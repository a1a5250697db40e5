/** The budgeted retry loops of the generation service: per-attempt timeouts against one
    deadline, backoff between attempts, and the empty-text degradation ladder.  Clock readings,
    call durations and outcomes, jitter and oversleeping are inputs; seconds are reals. */
module RetryEngine {
  import opened Strings
  import opened Wrappers

  const MAX_RETRIES: nat := 3
  const MIN_RETRY_REMAINING := 2.5
  const ROUNDING_SLACK := 0.0005

  /** Which of the two loops: structured output, or plain text. */
  datatype Kind = Structured | PlainText

  // ---------- budgets and timeouts ----------

  function NormalizeBudget(budgetMs: Option<int>, kind: Kind): (r: int)
    ensures 4000 <= r <= 90000
    ensures budgetMs.Some? && 4000 <= budgetMs.value <= 90000 ==> r == budgetMs.value
  {
    match budgetMs
    case None => if kind == Structured then 45000 else 30000
    case Some(b) => if b < 4000 then 4000 else if b > 90000 then 90000 else b
  }

  /** Python's round(x, 3): to the nearest thousandth, ties to even. */
  function Round3(x: real): (r: real)
    ensures x - ROUNDING_SLACK <= r <= x + ROUNDING_SLACK
    ensures x >= MIN_RETRY_REMAINING ==> r >= MIN_RETRY_REMAINING
    ensures (r * 1000.0).Floor as real == r * 1000.0
  {
    var scaled := x * 1000.0;
    var low := scaled.Floor;
    var rest := scaled - low as real;
    (if rest < 0.5 || (rest == 0.5 && low % 2 == 0) then low as real else low as real + 1.0) / 1000.0
  }

  function Min(a: real, b: real): real { if a <= b then a else b }

  function Max(a: real, b: real): real { if a >= b then a else b }

  function RetryTimeout(budgetMs: int, attempt: nat, cold: bool): real {
    var weight := if attempt == 0 then (if cold then 0.75 else 0.6)
                  else if attempt == 1 then (if cold then 0.17 else 0.25)
                  else (if cold then 0.08 else 0.15);
    Round3(Max(4.0, budgetMs as real * weight / 1000.0))
  }

  /** The nominal timeouts shrink from attempt to attempt, and once none of them is lifted to
      the 4-second floor they divide the whole budget between them. */
  lemma TimeoutsDivideBudget(budgetMs: int, cold: bool)
    requires budgetMs >= 0
    ensures RetryTimeout(budgetMs, 0, cold) >= RetryTimeout(budgetMs, 1, cold) >= RetryTimeout(budgetMs, 2, cold) >= 4.0
    ensures budgetMs >= (if cold then 50000 else 26667) ==>
              var sum := RetryTimeout(budgetMs, 0, cold) + RetryTimeout(budgetMs, 1, cold)
                         + RetryTimeout(budgetMs, 2, cold);
              -0.0015 <= sum - budgetMs as real / 1000.0 <= 0.0015
  {
    var b := budgetMs as real;
    if cold {
      RoundMonotone(Max(4.0, b * 0.17 / 1000.0), Max(4.0, b * 0.75 / 1000.0));
      RoundMonotone(Max(4.0, b * 0.08 / 1000.0), Max(4.0, b * 0.17 / 1000.0));
      RoundMonotone(4.0, Max(4.0, b * 0.08 / 1000.0));
    } else {
      RoundMonotone(Max(4.0, b * 0.25 / 1000.0), Max(4.0, b * 0.6 / 1000.0));
      RoundMonotone(Max(4.0, b * 0.15 / 1000.0), Max(4.0, b * 0.25 / 1000.0));
      RoundMonotone(4.0, Max(4.0, b * 0.15 / 1000.0));
    }
    assert Round3(4.0) == 4.0;
  }

  lemma RoundMonotone(x: real, y: real)
    requires x <= y
    ensures Round3(x) <= Round3(y)
  {
    var a, b := (x * 1000.0).Floor, (y * 1000.0).Floor;
    assert a <= b;
  }

  function AttemptTimeout(budgetMs: int, attempt: nat, remaining: real, cold: bool): (r: Option<real>)
    ensures r.None? <==> attempt > 0 && remaining < MIN_RETRY_REMAINING
    ensures r.Some? ==> r.value >= MIN_RETRY_REMAINING
    ensures r.Some? && remaining >= MIN_RETRY_REMAINING ==> r.value <= remaining + ROUNDING_SLACK
  {
    if attempt > 0 && remaining < MIN_RETRY_REMAINING then None
    else
      var timeout := RetryTimeout(budgetMs, attempt, cold);
      var clamped := if remaining > 0.0 then Min(timeout, remaining) else timeout;
      Some(Round3(Max(clamped, MIN_RETRY_REMAINING)))
  }

  /** Backoff before retry `attempt + 1`: 2^attempt seconds and a random half of that at most. */
  function Backoff(attempt: nat, extra: real): (r: real)
    requires 0.0 <= extra <= Pow2(attempt) as real * 0.5
    ensures Pow2(attempt) as real <= r <= Pow2(attempt) as real * 1.5
  {
    Pow2(attempt) as real + extra
  }

  function Pow2(n: nat): (r: nat)
    ensures r >= 1
  {
    if n == 0 then 1 else 2 * Pow2(n - 1)
  }

  // ---------- the fallback model ----------

  function Lower(s: string): (r: string)
    ensures |r| == |s|
  {
    seq(|s|, i requires 0 <= i < |s| => if 'A' <= s[i] <= 'Z' then s[i] - 'A' + 'a' else s[i])
  }

  /** How two model names are compared. */
  function Norm(model: string): string { Lower(PyStrip(model)) }

  predicate Lite(normalized: string) {
    |normalized| >= 4 && (normalized[..4] == "lite" || Lite(normalized[1..]))
  }

  ghost predicate LiteAt(name: string, i: nat) { i + 4 <= |name| && name[i..i + 4] == "lite" }

  /** A model is a lite one when its name contains the word. */
  lemma {:induction false} LiteExactly(name: string)
    ensures Lite(name) <==> exists i :: LiteAt(name, i)
  {
    if |name| >= 4 {
      LiteExactly(name[1..]);
      assert name[..4] == name[0..4];
      assert forall i: nat :: LiteAt(name, i + 1) <==> LiteAt(name[1..], i) by {
        forall i: nat ensures LiteAt(name, i + 1) <==> LiteAt(name[1..], i) {
          if i + 5 <= |name| { assert name[i + 1..i + 5] == name[1..][i..i + 4]; }
        }
      }
      if i: nat :| LiteAt(name, i) { assert i > 0 ==> LiteAt(name[1..], i - 1); }
      if i: nat :| LiteAt(name[1..], i) { assert LiteAt(name, i + 1); }
      assert name[..4] == "lite" ==> LiteAt(name, 0);
    }
  }

  /** Lower case: capitals become the small letters as far into the alphabet, and nothing else changes. */
  lemma LowerIs(s: string, i: nat)
    requires i < |s|
    ensures 'A' <= s[i] <= 'Z' ==>
              'a' <= Lower(s)[i] <= 'z' && Lower(s)[i] as int - 'a' as int == s[i] as int - 'A' as int
    ensures !('A' <= s[i] <= 'Z') ==> Lower(s)[i] == s[i]
  {
  }

  /** The configured model of each tier (empty when unset). */
  datatype Tiers = Tiers(standard: string, heavy: string)

  function FirstOther(ladder: seq<string>, normalized: string): string {
    if ladder == [] then ""
    else
      var cleaned := PyStrip(ladder[0]);
      if cleaned != "" && Lower(cleaned) != normalized then cleaned else FirstOther(ladder[1..], normalized)
  }

  function FallbackModel(model: string, tiers: Tiers): string {
    var normalized := Norm(model);
    var heavy := PyStrip(tiers.heavy);
    if normalized == "" then ""
    else if heavy != "" && normalized == Lower(heavy) then ""
    else FirstOther(if Lite(normalized) then [tiers.standard, tiers.heavy] else [tiers.heavy], normalized)
  }

  /** The fallback by cases: the standard model for a lite one, else the heavy one, never itself. */
  lemma FallbackCases(model: string, tiers: Tiers)
    ensures var n, standard, heavy := Norm(model), PyStrip(tiers.standard), PyStrip(tiers.heavy);
            FallbackModel(model, tiers) ==
              if n == "" || (heavy != "" && n == Lower(heavy)) then ""
              else if Lite(n) && standard != "" && Lower(standard) != n then standard
              else heavy
  {
    var n, heavy := Norm(model), PyStrip(tiers.heavy);
    assert [tiers.standard, tiers.heavy][1..] == [tiers.heavy];
    assert [tiers.heavy][1..] == [];
    assert FirstOther([tiers.heavy], n) == if heavy != "" && Lower(heavy) != n then heavy else FirstOther([], n);
  }

  /** Falling back from any model under any configuration: at most two hops, each to a model not
      seen before, and the last hop of two is the heavy tier. */
  lemma FallbackEndsInTwoHops(model: string, tiers: Tiers)
    ensures var one := FallbackModel(model, tiers);
            one != "" ==>
              && Norm(one) != Norm(model)
              && var two := FallbackModel(one, tiers);
                 two != "" ==>
                   && Norm(two) != Norm(one) && Norm(two) != Norm(model)
                   && two == PyStrip(tiers.heavy)
                   && FallbackModel(two, tiers) == ""
  {
    StripTwice(tiers.standard, PySpace);
    StripTwice(tiers.heavy, PySpace);
    var one := FallbackModel(model, tiers);
    FallbackCases(model, tiers);
    FallbackCases(one, tiers);
    FallbackCases(FallbackModel(one, tiers), tiers);
  }

  // ---------- the degradation ladder ----------

  /** The thinking setting sent with a call. */
  datatype Thinking = Absent | Configured | MinimalFor(model: string)

  datatype Ladder = Ladder(model: string, thinking: Thinking, minimized: bool, fellBack: bool)

  function Start(model: string, hasThinking: bool): Ladder {
    Ladder(model, if hasThinking then Configured else Absent, !hasThinking, false)
  }

  /** 0: as configured; 1: thinking minimised; 2: heavier model. */
  function Rung(l: Ladder): nat { if l.fellBack then 2 else if l.minimized then 1 else 0 }

  /** One step up after an empty-text failure. */
  function Degrade(l: Ladder, kind: Kind, tiers: Tiers): Ladder {
    if !l.minimized then l.(minimized := true, thinking := MinimalFor(l.model))
    else if l.fellBack then l
    else
      var fallback := FallbackModel(l.model, tiers);
      if fallback == "" then l
      else if kind == Structured then l.(fellBack := true, model := fallback)
      else l.(fellBack := true, model := fallback, thinking := MinimalFor(fallback))
  }

  // ---------- one run of a loop ----------

  datatype Outcome = Success | Timeout | AuthTransport | SafetyBlock | EmptyText | OtherError

  /** Everything the loop cannot control about one attempt: `duration` runs from the timeout
      computation to the end of the call, `oversleep` is what passes beyond the backoff. */
  datatype Env = Env(cold: bool, duration: real, outcome: Outcome, extra: real, oversleep: real) {
    predicate Possible(attempt: nat) {
      duration >= 0.0 && 0.0 <= extra <= Pow2(attempt) as real * 0.5 && oversleep >= 0.0
    }
  }

  datatype Call = Call(start: real, timeout: real, end: real, ladder: Ladder, outcome: Outcome)

  datatype Exit = Returned | Terminal | OutOfAttempts | BudgetExhausted | NoRoomForBackoff

  ghost predicate Prompt(calls: seq<Call>) {
    forall i :: 0 <= i < |calls| ==> calls[i].end <= calls[i].start + calls[i].timeout
  }

  ghost predicate SleepsWithin(env: seq<Env>, over: real) {
    forall i :: 0 <= i < |env| ==> env[i].oversleep <= over
  }

  /** Outcomes that end the run at once. */
  predicate Ends(o: Outcome) { o == Success || o == AuthTransport || o == SafetyBlock }

  /** What a run is given: the loop, the configured models, the budget, the deadline fixed before the
      first attempt, when that starts, and what the attempts meet. */
  datatype Plan = Plan(kind: Kind, tiers: Tiers, model: string, hasThinking: bool, budgetMs: int,
                       deadline: real, first: real, env: seq<Env>) {
    ghost predicate Possible() { |env| == MAX_RETRIES && forall i :: 0 <= i < |env| ==> env[i].Possible(i) }
  }

  /** A structured timeout goes straight to the next attempt. */
  predicate SkipsBackoff(kind: Kind, c: Call) { kind == Structured && c.outcome == Timeout }

  predicate BackoffFits(p: Plan, attempt: nat, c: Call, e: Env)
    requires e.Possible(attempt)
  {
    SkipsBackoff(p.kind, c) || p.deadline - c.end - Backoff(attempt, e.extra) >= MIN_RETRY_REMAINING
  }

  /** What passes between a failed call and the next one. */
  function Pause(kind: Kind, attempt: nat, c: Call, e: Env): real
    requires e.Possible(attempt)
  {
    if SkipsBackoff(kind, c) then 0.0 else Backoff(attempt, e.extra) + e.oversleep
  }

  /** Attempt i gets the timeout the budget allows at its start, and takes and ends as it must. */
  ghost predicate CallOf(p: Plan, i: nat, c: Call, e: Env) {
    && AttemptTimeout(p.budgetMs, i, p.deadline - c.start, e.cold) == Some(c.timeout)
    && c.end == c.start + e.duration && c.outcome == e.outcome
  }

  /** After call i: the retry starts at `now` with `ladder`, one Degrade away exactly when the failure
      was an empty text. */
  ghost predicate Retried(p: Plan, i: nat, c: Call, e: Env, ladder: Ladder, now: real)
    requires e.Possible(i)
  {
    && !Ends(c.outcome) && BackoffFits(p, i, c, e) && now == c.end + Pause(p.kind, i, c, e)
    && ladder == if c.outcome == EmptyText then Degrade(c.ladder, p.kind, p.tiers) else c.ladder
  }

  /** The calls of a run so far: everything about them but the decision to stop. */
  ghost predicate History(p: Plan, calls: seq<Call>)
    requires p.Possible()
  {
    && |calls| <= MAX_RETRIES
    && (calls != [] ==> calls[0].start == p.first && calls[0].ladder == Start(p.model, p.hasThinking))
    && (forall i :: 0 <= i < |calls| ==> CallOf(p, i, calls[i], p.env[i]))
    && (forall i :: 0 <= i < |calls| - 1 ==> Retried(p, i, calls[i], p.env[i], calls[i + 1].ladder, calls[i + 1].start))
  }

  /** The loop is about to make call |calls|. */
  ghost predicate Ready(p: Plan, calls: seq<Call>, ladder: Ladder, now: real)
    requires p.Possible()
  {
    && History(p, calls) && |calls| < MAX_RETRIES
    && if calls == [] then now == p.first && ladder == Start(p.model, p.hasThinking)
       else Retried(p, |calls| - 1, calls[|calls| - 1], p.env[|calls| - 1], ladder, now)
  }

  lemma HistorySnoc(p: Plan, calls: seq<Call>, ladder: Ladder, now: real, c: Call)
    requires p.Possible() && Ready(p, calls, ladder, now)
    requires CallOf(p, |calls|, c, p.env[|calls|]) && c.start == now && c.ladder == ladder
    ensures History(p, calls + [c])
  {
  }

  /** Why a run ended, and when. */
  ghost predicate Ended(p: Plan, calls: seq<Call>, exit: Exit, end: real)
    requires p.Possible() && 1 <= |calls| <= MAX_RETRIES
  {
    var n := |calls|;
    var last, e := calls[n - 1], p.env[n - 1];
    match exit
    case Returned => last.outcome == Success && end == last.end
    case Terminal => (last.outcome == AuthTransport || last.outcome == SafetyBlock) && end == last.end
    case OutOfAttempts => !Ends(last.outcome) && n == MAX_RETRIES && end == last.end
    case NoRoomForBackoff =>
      !Ends(last.outcome) && n < MAX_RETRIES && !BackoffFits(p, n - 1, last, e) && end == last.end
    case BudgetExhausted =>
      && !Ends(last.outcome) && n < MAX_RETRIES && BackoffFits(p, n - 1, last, e)
      && end == last.end + Pause(p.kind, n - 1, last, e) && p.deadline - end < MIN_RETRY_REMAINING
  }

  /** What a failed call is followed by: no room for the backoff, or the time of the next attempt. */
  method SleepBackoff(p: Plan, attempt: nat, c: Call) returns (now: Option<real>)
    requires p.Possible() && attempt < MAX_RETRIES
    ensures var e := p.env[attempt];
            now == if BackoffFits(p, attempt, c, e) then Some(c.end + Pause(p.kind, attempt, c, e)) else None
  {
    var e := p.env[attempt];
    if p.kind == Structured && c.outcome == Timeout { return Some(c.end); }
    var backoff := Backoff(attempt, e.extra);
    if p.deadline - c.end - backoff < MIN_RETRY_REMAINING { return None; }
    now := Some(c.end + backoff + e.oversleep);
  }

  method Attempt(p: Plan, attempt: nat, now: real, ladder: Ladder) returns (call: Option<Call>)
    requires p.Possible() && attempt < MAX_RETRIES
    ensures call.None? ==> attempt > 0 && p.deadline - now < MIN_RETRY_REMAINING
    ensures call.Some? ==> CallOf(p, attempt, call.value, p.env[attempt])
    ensures call.Some? ==> call.value.start == now && call.value.ladder == ladder
  {
    var e := p.env[attempt];
    var timeout := AttemptTimeout(p.budgetMs, attempt, p.deadline - now, e.cold);
    if timeout.None? { return None; }
    call := Some(Call(now, timeout.value, now + e.duration, ladder, e.outcome));
  }

  method Generate(p: Plan) returns (exit: Exit, calls: seq<Call>, end: real)
    requires p.Possible()
    ensures 1 <= |calls| <= MAX_RETRIES
    ensures History(p, calls) && Ended(p, calls, exit, end)
  {
    calls := [];
    var now := p.first;
    var ladder := Start(p.model, p.hasThinking);
    for attempt := 0 to MAX_RETRIES
      invariant attempt < MAX_RETRIES && |calls| == attempt && Ready(p, calls, ladder, now)
    {
      var call := Attempt(p, attempt, now, ladder);
      if call.None? { return BudgetExhausted, calls, now; }
      var c := call.value;
      HistorySnoc(p, calls, ladder, now, c);
      calls := calls + [c];
      if c.outcome == Success { return Returned, calls, c.end; }
      if Ends(c.outcome) { return Terminal, calls, c.end; }
      if attempt == MAX_RETRIES - 1 { return OutOfAttempts, calls, c.end; }
      if c.outcome == EmptyText { ladder := Degrade(ladder, p.kind, p.tiers); }
      var next := SleepBackoff(p, attempt, c);
      if next.None? { return NoRoomForBackoff, calls, c.end; }
      now := next.value;
    }
    assert false;
  }

  // ---------- consequences for every run ----------

  /** The exits exclude one another: the calls alone say which one was taken and when. */
  lemma OneEnding(p: Plan, calls: seq<Call>, exit: Exit, end: real, other: Exit, otherEnd: real)
    requires p.Possible() && 1 <= |calls| <= MAX_RETRIES
    requires Ended(p, calls, exit, end) && Ended(p, calls, other, otherEnd)
    ensures exit == other && end == otherEnd
  {
  }

  /** The last call may be retried, its backoff fits before the deadline, and the sleep then lasts past it. */
  ghost predicate SleptPast(p: Plan, calls: seq<Call>)
    requires p.Possible() && 1 <= |calls| <= MAX_RETRIES
  {
    var n := |calls|;
    var last, e := calls[n - 1], p.env[n - 1];
    && !Ends(last.outcome) && n < MAX_RETRIES && !SkipsBackoff(p.kind, last) && BackoffFits(p, n - 1, last, e)
    && last.end + Backoff(n - 1, e.extra) + e.oversleep > p.deadline + ROUNDING_SLACK
  }

  /** The deadline, exactly: if the first call starts with at least 2.5 seconds left and each call
      ends by its timeout, the run ends by the deadline, give or take the rounding of a timeout,
      unless a backoff that fitted was overslept past it. */
  lemma DeadlineExactly(p: Plan, calls: seq<Call>, exit: Exit, end: real)
    requires p.Possible() && 1 <= |calls| <= MAX_RETRIES && History(p, calls) && Ended(p, calls, exit, end)
    requires p.first <= p.deadline - MIN_RETRY_REMAINING && Prompt(calls)
    ensures end <= p.deadline + ROUNDING_SLACK <==> !SleptPast(p, calls)
  {
    var n := |calls|;
    assert CallOf(p, n - 1, calls[n - 1], p.env[n - 1]) && p.env[n - 1].Possible(n - 1);
  }

  /** So the deadline is kept when no sleep is more than 2.5 seconds too long. */
  lemma DeadlineKept(p: Plan, calls: seq<Call>, exit: Exit, end: real)
    requires p.Possible() && 1 <= |calls| <= MAX_RETRIES && History(p, calls) && Ended(p, calls, exit, end)
    requires p.first <= p.deadline - MIN_RETRY_REMAINING && Prompt(calls) && SleepsWithin(p.env, MIN_RETRY_REMAINING)
    ensures end <= p.deadline + ROUNDING_SLACK
  {
    DeadlineExactly(p, calls, exit, end);
    assert p.env[|calls| - 1].oversleep <= MIN_RETRY_REMAINING;
  }

  /** A late run: a text call with the least budget (4 seconds) fails at once, its one-second backoff
      fits, and a sleep ten seconds too long ends the run seven seconds after the deadline. */
  lemma OversleepingIsLate(p: Plan) returns (calls: seq<Call>)
    requires p.Possible() && p.kind == PlainText && p.budgetMs == 4000 && p.first == 0.0 && p.deadline == 4.0
    requires p.env[0] == Env(false, 0.0, OtherError, 0.0, 10.0)
    ensures |calls| == 1 && History(p, calls) && Prompt(calls) && Ended(p, calls, BudgetExhausted, 11.0)
  {
    assert RetryTimeout(4000, 0, false) == Round3(4.0) == 4.0;
    calls := [Call(0.0, 4.0, 0.0, Start(p.model, p.hasThinking), OtherError)];
    assert CallOf(p, 0, calls[0], p.env[0]);
    assert Backoff(0, 0.0) == 1.0;
  }

  /** Every call, retried or not, has at least 2.5 seconds to answer; a retry starts only with that
      much left of the budget. */
  lemma RetriesHaveRoom(p: Plan, calls: seq<Call>, i: nat)
    requires p.Possible() && History(p, calls) && i < |calls|
    ensures calls[i].timeout >= MIN_RETRY_REMAINING
    ensures i > 0 ==> calls[i].start <= p.deadline - MIN_RETRY_REMAINING
  {
    assert CallOf(p, i, calls[i], p.env[i]);
  }

  /** The last call was a structured-output timeout, before the last attempt, too close to the deadline. */
  ghost predicate StructuredTimeoutLate(p: Plan, calls: seq<Call>)
    requires calls != []
  {
    var last := calls[|calls| - 1];
    SkipsBackoff(p.kind, last) && |calls| < MAX_RETRIES && p.deadline - last.end < MIN_RETRY_REMAINING
  }

  /** With exact sleeps the exhausted exit is taken exactly after a structured timeout that leaves
      less than 2.5 seconds; so never in the text loop. */
  lemma ExhaustedExactly(p: Plan, calls: seq<Call>, exit: Exit, end: real)
    requires p.Possible() && 1 <= |calls| <= MAX_RETRIES && SleepsWithin(p.env, 0.0) && Ended(p, calls, exit, end)
    ensures exit == BudgetExhausted <==> StructuredTimeoutLate(p, calls)
  {
    assert p.env[|calls| - 1].oversleep <= 0.0 && p.env[|calls| - 1].Possible(|calls| - 1);
  }

  /** The exhausted exit on a retry is real: a structured call with the least budget (4 seconds)
      that times out exactly at its timeout leaves nothing for a second one. */
  lemma StructuredTimeoutExhausts(p: Plan) returns (calls: seq<Call>)
    requires p.Possible() && p.kind == Structured && p.budgetMs == 4000 && p.first == 0.0 && p.deadline == 4.0
    requires p.env[0].duration == 4.0 && p.env[0].outcome == Timeout
    ensures |calls| == 1 && History(p, calls) && Ended(p, calls, BudgetExhausted, 4.0) && Prompt(calls)
  {
    assert RetryTimeout(4000, 0, p.env[0].cold) == Round3(4.0) == 4.0;
    calls := [Call(0.0, 4.0, 4.0, Start(p.model, p.hasThinking), Timeout)];
  }

  /** The ladder only climbs: at most one rung per retried call, and only past an empty text. */
  lemma LadderClimbs(p: Plan, calls: seq<Call>, i: nat)
    requires p.Possible() && History(p, calls) && i + 1 < |calls|
    ensures var a, b := calls[i].ladder, calls[i + 1].ladder;
            && Rung(a) <= Rung(b) <= Rung(a) + 1
            && (a != b ==> calls[i].outcome == EmptyText && Rung(b) == Rung(a) + 1)
            && (Rung(b) == Rung(a) + 1 && Rung(b) == 2 ==> b.model == FallbackModel(a.model, p.tiers))
            && (Rung(b) < 2 ==> b.model == a.model)
  {
    LadderShape(p, calls, i);
    assert Retried(p, i, calls[i], p.env[i], calls[i + 1].ladder, calls[i + 1].start);
  }

  /** What a failed call changes, exactly: an empty text first minimises the thinking, and after that moves to the
      fallback model if there is one and it was not tried yet; any other failure, and an empty text at the top,
      changes nothing. */
  lemma LadderExactly(p: Plan, calls: seq<Call>, i: nat)
    requires p.Possible() && History(p, calls) && i + 1 < |calls|
    ensures var a, b := calls[i].ladder, calls[i + 1].ladder;
            if calls[i].outcome != EmptyText then b == a
            else if !a.minimized then b == Ladder(a.model, MinimalFor(a.model), true, a.fellBack)
            else if a.fellBack || FallbackModel(a.model, p.tiers) == "" then b == a
            else && b.model == FallbackModel(a.model, p.tiers) && b.minimized && b.fellBack
                 && b.thinking == if p.kind == PlainText then MinimalFor(b.model) else a.thinking
  {
    assert Retried(p, i, calls[i], p.env[i], calls[i + 1].ladder, calls[i + 1].start);
  }

  /** The models of a run: the configured one, then possibly its fallback; and what is sent as
      thinking setting with each.  In the structured loop a minimal setting made for the
      configured model is kept when the model changes; the text loop never does that. */
  lemma {:induction false} LadderShape(p: Plan, calls: seq<Call>, i: nat)
    requires p.Possible() && History(p, calls) && i < |calls|
    ensures var l := calls[i].ladder;
            && (l.fellBack ==> l.minimized && FallbackModel(p.model, p.tiers) != "")
            && l.model == (if l.fellBack then FallbackModel(p.model, p.tiers) else p.model)
            && l.thinking == (if !l.minimized then Configured
                              else if l.fellBack && p.kind == PlainText then MinimalFor(l.model)
                              else if p.hasThinking then MinimalFor(p.model)
                              else Absent)
            && (!p.hasThinking ==> l.minimized)
  {
    if i > 0 {
      LadderShape(p, calls, i - 1);
      assert Retried(p, i - 1, calls[i - 1], p.env[i - 1], calls[i].ladder, calls[i].start);
    }
  }

  /** A policy block, an authentication failure or an answer is the last thing a run sees. */
  lemma TerminalIsLast(p: Plan, calls: seq<Call>, i: nat)
    requires p.Possible() && History(p, calls) && i < |calls|
    ensures calls[i].outcome == Success || calls[i].outcome == AuthTransport || calls[i].outcome == SafetyBlock ==>
              i == |calls| - 1
  {
    if i + 1 < |calls| { assert Retried(p, i, calls[i], p.env[i], calls[i + 1].ladder, calls[i + 1].start); }
  }
}
