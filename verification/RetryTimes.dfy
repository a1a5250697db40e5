/** The times of a retried run, told from the budget and the clock alone: how long each call may take, how
    long the loop pauses, which exit it takes, and when a hanging first call leaves room for a second. */
module RetryTimes {
  import opened Wrappers
  import opened RetryEngine

  ghost function Distance(x: real, y: real): real { if x <= y then y - x else x - y }

  /** A request outside the accepted range gets the nearest budget in it; without one the structured loop
      gets 45 seconds and the text loop 30. */
  lemma BudgetIs(budgetMs: Option<int>, kind: Kind, other: int)
    requires 4000 <= other <= 90000
    ensures var r := NormalizeBudget(budgetMs, kind);
            match budgetMs
            case None => r == if kind == PlainText then 30000 else 45000
            case Some(b) => Distance(r as real, b as real) <= Distance(other as real, b as real)
  {
  }

  /** Rounding takes the nearest thousandth: nothing else with three decimals is nearer. */
  lemma RoundIsNearest(x: real, n: int)
    ensures Distance(Round3(x), x) <= Distance(n as real / 1000.0, x)
  {
    var k := (Round3(x) * 1000.0).Floor;
    assert Round3(x) == k as real / 1000.0;
    if n < k { assert n + 1 <= k; } else if n > k { assert n >= k + 1; }
  }

  /** A number exactly between two thousandths goes to the even one. */
  lemma TiesGoToEven(x: real, k: int)
    requires x * 1000.0 == k as real + 0.5
    ensures Round3(x) * 1000.0 == (if k % 2 == 0 then k else k + 1) as real
  {
    assert (x * 1000.0).Floor == k;
  }

  /** The share of the budget an attempt may use, in seconds; never less than four. */
  ghost function Share(budgetMs: int, attempt: nat, cold: bool): real {
    var budget := budgetMs as real / 1000.0;
    var part := match attempt
                case 0 => budget * if cold then 0.75 else 0.6
                case 1 => budget * if cold then 0.17 else 0.25
                case _ => budget * if cold then 0.08 else 0.15;
    if part < 4.0 then 4.0 else part
  }

  /** The time an attempt should get: its share, or what is left if that is less, and never less than the
      2.5 seconds a call needs. */
  ghost function Allowance(budgetMs: int, attempt: nat, cold: bool, left: real): real {
    var share := Share(budgetMs, attempt, cold);
    var time := if 0.0 < left < share then left else share;
    if time < 2.5 then 2.5 else time
  }

  lemma TimeoutIsAllowance(budgetMs: int, attempt: nat, cold: bool, left: real)
    ensures var timeout := AttemptTimeout(budgetMs, attempt, left, cold);
            timeout.Some? ==>
              var ideal := Allowance(budgetMs, attempt, cold, left); ideal - 0.001 <= timeout.value <= ideal + 0.001
  {
    ShareIsRounded(budgetMs, attempt, cold);
  }

  lemma ShareIsRounded(budgetMs: int, attempt: nat, cold: bool)
    ensures var share, timeout := Share(budgetMs, attempt, cold), RetryTimeout(budgetMs, attempt, cold);
            share - 0.0005 <= timeout <= share + 0.0005
  {
    var b := budgetMs as real;
    match attempt
    case 0 => assert b * 0.75 / 1000.0 == b / 1000.0 * 0.75 && b * 0.6 / 1000.0 == b / 1000.0 * 0.6;
    case 1 => assert b * 0.17 / 1000.0 == b / 1000.0 * 0.17 && b * 0.25 / 1000.0 == b / 1000.0 * 0.25;
    case _ => assert b * 0.08 / 1000.0 == b / 1000.0 * 0.08 && b * 0.15 / 1000.0 == b / 1000.0 * 0.15;
  }

  /** Every call of a run gets its allowance, up to the rounding to thousandths. */
  lemma CallsGetTheirShare(p: Plan, calls: seq<Call>, i: nat)
    requires p.Possible() && History(p, calls) && i < |calls|
    ensures var ideal := Allowance(p.budgetMs, i, p.env[i].cold, p.deadline - calls[i].start);
            ideal - 0.001 <= calls[i].timeout <= ideal + 0.001
  {
    assert CallOf(p, i, calls[i], p.env[i]);
    TimeoutIsAllowance(p.budgetMs, i, p.env[i].cold, p.deadline - calls[i].start);
  }

  /** Between two calls pass one or two seconds, half of that again at most, and what was overslept; after
      a timeout of structured output nothing. */
  lemma PausesAre(p: Plan, calls: seq<Call>, i: nat)
    requires p.Possible() && History(p, calls) && i + 1 < |calls|
    ensures var pause, base := calls[i + 1].start - calls[i].end, if i == 0 then 1.0 else 2.0;
            if p.kind == Structured && calls[i].outcome == Timeout then pause == 0.0
            else base + p.env[i].oversleep <= pause <= base * 1.5 + p.env[i].oversleep
  {
    assert Retried(p, i, calls[i], p.env[i], calls[i + 1].ladder, calls[i + 1].start);
    assert p.env[i].Possible(i);
    assert Pow2(0) == 1 && Pow2(1) == 2;
  }

  /** Which exit a run takes, from its last call: an answer returns, an authentication failure or a policy
      block is terminal, a third failure is the last, and an earlier one gives up when its backoff would
      leave less than 2.5 seconds - and otherwise when less than that is left after it. */
  lemma ExitsExactly(p: Plan, calls: seq<Call>, exit: Exit, end: real)
    requires p.Possible() && 1 <= |calls| <= MAX_RETRIES && Ended(p, calls, exit, end)
    ensures var n := |calls|;
            var last, e := calls[n - 1], p.env[n - 1];
            var skips := p.kind == Structured && last.outcome == Timeout;
            var backoff := (if n == 1 then 1.0 else if n == 2 then 2.0 else 4.0) + e.extra;
            exit == if last.outcome == Success then Returned
                    else if last.outcome == AuthTransport || last.outcome == SafetyBlock then Terminal
                    else if n == 3 then OutOfAttempts
                    else if !skips && p.deadline - last.end - backoff < 2.5 then NoRoomForBackoff
                    else BudgetExhausted
  {
    var n := |calls|;
    assert p.env[n - 1].Possible(n - 1);
    assert Pow2(0) == 1 && Pow2(1) == 2 && Pow2(2) == 4;
  }

  // ---------- a first call that hangs ----------

  /** The first structured call of a run that starts on time takes exactly its timeout. */
  ghost predicate FirstHangs(p: Plan, calls: seq<Call>)
    requires p.Possible()
  {
    && calls != [] && History(p, calls) && p.kind == Structured && 4000 <= p.budgetMs <= 90000
    && p.deadline == p.first + p.budgetMs as real / 1000.0
    && calls[0].outcome == Timeout && calls[0].end == calls[0].start + calls[0].timeout
  }

  lemma FirstTimeout(budgetMs: int, cold: bool)
    requires 4000 <= budgetMs <= 90000
    ensures var budget := budgetMs as real / 1000.0;
            var timeout := AttemptTimeout(budgetMs, 0, budget, cold).value;
            budget - timeout >= 2.5 <==> budgetMs >= if cold then 9998 else 6500
  {
    var b := budgetMs as real;
    var timeout := RetryTimeout(budgetMs, 0, cold);
    assert b * 0.75 / 1000.0 * 1000.0 == b * 0.75 && b * 0.6 / 1000.0 * 1000.0 == b * 0.6;
    RoundedOnce(timeout);
  }

  /** Rounding what is already rounded changes nothing. */
  lemma RoundedOnce(x: real)
    requires (x * 1000.0).Floor as real == x * 1000.0
    ensures Round3(x) == x
  {
  }

  /** When a first call that hangs for its whole timeout still leaves room for a second one: with a budget
      of at least 6.5 seconds when warm, and 9.998 when cold.  With less, it is the only call. */
  lemma HangingFirstCall(p: Plan, calls: seq<Call>, exit: Exit, end: real)
    requires p.Possible() && FirstHangs(p, calls) && |calls| <= MAX_RETRIES && Ended(p, calls, exit, end)
    ensures |calls| == 1 <==> p.budgetMs < if p.env[0].cold then 9998 else 6500
    ensures |calls| == 1 ==> exit == BudgetExhausted
  {
    assert CallOf(p, 0, calls[0], p.env[0]);
    FirstTimeout(p.budgetMs, p.env[0].cold);
    if |calls| > 1 {
      assert Retried(p, 0, calls[0], p.env[0], calls[1].ladder, calls[1].start);
      assert CallOf(p, 1, calls[1], p.env[1]);
    }
  }
}
