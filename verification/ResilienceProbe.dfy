/** The double-checked sidecar probe: requests read the shared flag under a read lock and, when the
    last probe is too old, take the write lock, check again and probe.  A run is any interleaving
    of the requests' atomic steps with the passing of time. */
module ResilienceProbe {
  import opened Wrappers

  /** Fifteen seconds, in nanoseconds. */
  const PROBE_INTERVAL: nat := 15_000_000_000

  datatype Shared = Shared(lastCheck: Option<nat>, ready: bool, locked: bool)

  /** The zero time counts as infinitely long ago. */
  predicate ProbeDue(lastCheck: Option<nat>, now: nat) {
    lastCheck.None? || now > lastCheck.value + PROBE_INTERVAL
  }

  function AfterLock(s: Shared, now: nat): Shared { s.(locked := ProbeDue(s.lastCheck, now)) }

  function AfterProbe(now: nat, healthy: bool): Shared { Shared(Some(now), healthy, false) }

  /** The variables the middleware's closure shares; `locked` says a probe holds the write lock. */
  class ProbeState {
    var lastCheck: Option<nat>
    var sidecarReady: bool
    var locked: bool

    ghost function State(): Shared reads this { Shared(lastCheck, sidecarReady, locked) }

    constructor ()
      ensures State() == Shared(None, true, false)
    {
      lastCheck, sidecarReady, locked := None, true, false;
    }

    /** Under the read lock. */
    method Read(now: nat) returns (checkNeeded: bool, degraded: bool)
      requires !locked
      ensures checkNeeded == ProbeDue(State().lastCheck, now) && degraded == !State().ready
    {
      checkNeeded := lastCheck.None? || now > lastCheck.value + PROBE_INTERVAL;
      degraded := !sidecarReady;
    }

    /** The write lock is kept only if the second check still asks for a probe. */
    method Lock(now: nat) returns (probing: bool)
      requires !locked
      modifies this
      ensures State() == AfterLock(old(State()), now) && probing == locked
    {
      probing := lastCheck.None? || now > lastCheck.value + PROBE_INTERVAL;
      locked := probing;
    }

    /** The probe's result, and the lock's release; without a client the sidecar counts as healthy. */
    method Finish(now: nat, hasClient: bool, answered: bool) returns (degraded: bool)
      requires locked
      modifies this
      ensures State() == AfterProbe(now, !hasClient || answered) && degraded == !State().ready
    {
      var ready := true;
      if hasClient { ready := answered; }
      sidecarReady := ready;
      degraded := !sidecarReady;
      lastCheck := Some(now);
      locked := false;
    }
  }

  // ---------- the interleavings ----------

  datatype Phase = Waiting(checkNeeded: bool, degraded: bool) | Probing | Served(degraded: bool) | Skipped

  datatype Probe = Probe(start: nat, end: nat, healthy: bool)

  /** Everything at one moment; `probes` are the finished ones, `open` when the running one began. */
  datatype State = State(now: nat, shared: Shared, phases: map<nat, Phase>, open: Option<nat>, probes: seq<Probe>)

  datatype Event =
    | Tick(nanoseconds: nat) | Skip(request: nat) | Arrive(request: nat) | Pass(request: nat)
    | TakeLock(request: nat) | FinishProbe(request: nat, healthy: bool)

  const START := State(0, Shared(None, true, false), map[], None, [])

  predicate In(s: State, r: nat, p: Phase) { r in s.phases && s.phases[r] == p }

  /** Which steps the locks and the program order allow. */
  predicate Enabled(s: State, e: Event) {
    match e
    case Tick(_) => true
    case Skip(r) => r !in s.phases
    case Arrive(r) => r !in s.phases && !s.shared.locked
    case Pass(r) => r in s.phases && s.phases[r].Waiting? && !s.phases[r].checkNeeded
    case TakeLock(r) => r in s.phases && s.phases[r].Waiting? && s.phases[r].checkNeeded && !s.shared.locked
    case FinishProbe(r, _) => In(s, r, Probing)
  }

  function Apply(s: State, e: Event): State
    requires Enabled(s, e)
  {
    match e
    case Tick(d) => s.(now := s.now + d)
    case Skip(r) => s.(phases := s.phases[r := Skipped])
    case Arrive(r) => s.(phases := s.phases[r := Waiting(ProbeDue(s.shared.lastCheck, s.now), !s.shared.ready)])
    case Pass(r) => s.(phases := s.phases[r := Served(s.phases[r].degraded)])
    case TakeLock(r) =>
      if ProbeDue(s.shared.lastCheck, s.now) then
        s.(shared := AfterLock(s.shared, s.now), open := Some(s.now), phases := s.phases[r := Probing])
      else s.(shared := AfterLock(s.shared, s.now), phases := s.phases[r := Served(s.phases[r].degraded)])
    case FinishProbe(r, healthy) =>
      s.(shared := AfterProbe(s.now, healthy), open := None,
         probes := s.probes + [Probe(if s.open.Some? then s.open.value else s.now, s.now, healthy)],
         phases := s.phases[r := Served(!healthy)])
  }

  /** A run, as the states it goes through. */
  ghost predicate IsRun(states: seq<State>, events: seq<Event>) {
    && |states| == |events| + 1 && states[0] == START
    && forall i :: 0 <= i < |events| ==> Enabled(states[i], events[i]) && states[i + 1] == Apply(states[i], events[i])
  }

  // ---------- what every run keeps ----------

  /** A probe starts more than the interval after the one before it finished. */
  ghost predicate Spaced(probes: seq<Probe>) {
    && (forall i :: 0 <= i < |probes| ==> probes[i].start <= probes[i].end)
    && (forall i :: 0 < i < |probes| ==> probes[i].start > probes[i - 1].end + PROBE_INTERVAL)
  }

  /** The shared variables mirror the probes made so far, and one request at most is probing. */
  ghost predicate Sound(s: State) {
    && Spaced(s.probes)
    && s.shared.ready == (if s.probes == [] then true else s.probes[|s.probes| - 1].healthy)
    && s.shared.lastCheck == (if s.probes == [] then None else Some(s.probes[|s.probes| - 1].end))
    && (s.probes != [] ==> s.probes[|s.probes| - 1].end <= s.now)
    && (s.shared.locked <==> s.open.Some?)
    && (s.open.Some? ==> s.open.value <= s.now)
    && (s.open.Some? && s.probes != [] ==> s.open.value > s.probes[|s.probes| - 1].end + PROBE_INTERVAL)
    && (forall r :: In(s, r, Probing) ==> s.shared.locked)
    && (forall q, r :: In(s, q, Probing) && In(s, r, Probing) ==> q == r)
  }

  lemma StepSound(s: State, e: Event)
    requires Sound(s) && Enabled(s, e)
    ensures Sound(Apply(s, e))
  {
    var t := Apply(s, e);
    forall r | In(t, r, Probing) ensures t.shared.locked {
      if e.Tick? || r != e.request { assert In(s, r, Probing); }
    }
    forall q, r | In(t, q, Probing) && In(t, r, Probing) ensures q == r {
      if e.Tick? || (q != e.request && r != e.request) { assert In(s, q, Probing) && In(s, r, Probing); }
      if !e.Tick? && q != e.request { assert In(s, q, Probing); }
      if !e.Tick? && r != e.request { assert In(s, r, Probing); }
    }
  }

  /** Each step is what the shared variables undergo under its lock: an arrival is Read, taking the
      lock is Lock, and the end of a probe is Finish, with the phase each of them leaves the request in. */
  method Perform(p: ProbeState, s: State, e: Event, hasClient: bool, answered: bool) returns (phase: Option<Phase>)
    requires Sound(s) && Enabled(s, e) && p.State() == s.shared
    requires e.FinishProbe? ==> e.healthy == (!hasClient || answered)
    modifies p
    ensures p.State() == Apply(s, e).shared
    ensures if e.Tick? then phase == None else phase.Some? && Apply(s, e).phases == s.phases[e.request := phase.value]
  {
    match e
    case Tick(_) => phase := None;
    case Skip(_) => phase := Some(Skipped);
    case Pass(r) => phase := Some(Served(s.phases[r].degraded));
    case Arrive(_) =>
      var checkNeeded, degraded := p.Read(s.now);
      phase := Some(Waiting(checkNeeded, degraded));
    case TakeLock(r) =>
      var probing := p.Lock(s.now);
      phase := Some(if probing then Probing else Served(s.phases[r].degraded));
    case FinishProbe(_, _) =>
      var degraded := p.Finish(s.now, hasClient, answered);
      phase := Some(Served(degraded));
  }

  /** In every run: probes never overlap and are spaced by more than the interval, and the flag is
      the last probe's result, true before any. */
  lemma {:induction false} RunSound(states: seq<State>, events: seq<Event>, n: nat)
    requires IsRun(states, events) && n < |states|
    ensures Sound(states[n])
    decreases n
  {
    if n > 0 {
      RunSound(states, events, n - 1);
      StepSound(states[n - 1], events[n - 1]);
    }
  }

  /** However many requests come, n probes take more than n - 1 intervals. */
  lemma {:induction false} ProbesAreRare(probes: seq<Probe>)
    requires Spaced(probes) && probes != []
    ensures probes[|probes| - 1].end >= (|probes| - 1) * (PROBE_INTERVAL + 1)
  {
    if |probes| > 1 {
      var front := probes[..|probes| - 1];
      ProbesAreRare(front);
      assert probes[|probes| - 1].start > front[|front| - 1].end + PROBE_INTERVAL;
    }
  }

  // ---------- the flag a request carries ----------

  predicate Carries(p: Phase, degraded: bool) {
    (p.Waiting? && p.degraded == degraded) || (p.Served? && p.degraded == degraded)
  }

  /** The request had arrived at moment k, and was not yet served just before. */
  ghost predicate During(states: seq<State>, k: nat, r: nat) {
    k < |states| && r in states[k].phases && (k > 0 && r in states[k - 1].phases ==> !states[k - 1].phases[r].Served?)
  }

  /** The flag a request carries was the shared value at some moment during that request: when it
      read it, or when its own probe finished. */
  lemma {:induction false} FlagWasShared(states: seq<State>, events: seq<Event>, n: nat, r: nat, degraded: bool)
    returns (k: nat)
    requires IsRun(states, events) && n < |states|
    requires r in states[n].phases && Carries(states[n].phases[r], degraded)
    ensures k <= n && During(states, k, r) && degraded == !states[k].shared.ready
    ensures (k > 0 && events[k - 1] == Arrive(r)) || (k > 0 && events[k - 1].FinishProbe? && events[k - 1].request == r)
    decreases n
  {
    var before, e := states[n - 1], events[n - 1];
    if r in before.phases && Carries(before.phases[r], degraded) {
      k := FlagWasShared(states, events, n - 1, r, degraded);
    } else {
      k := n;
    }
  }

  ghost function Final(states: seq<State>): State
    requires states != []
  {
    states[|states| - 1]
  }

  /** A run goes on with one more enabled step. */
  lemma OneMore(states: seq<State>, events: seq<Event>, e: Event) returns (more: seq<State>)
    requires IsRun(states, events) && Enabled(Final(states), e)
    ensures IsRun(more, events + [e]) && Final(more) == Apply(Final(states), e)
  {
    more := states + [Apply(Final(states), e)];
  }

  /** A request that waits for the write lock while another one's probe fails still carries the flag
      it read before: it is served as healthy although the shared flag already says otherwise. */
  lemma WaiterCanBeStale() returns (states: seq<State>, events: seq<Event>)
    ensures IsRun(states, events)
    ensures In(Final(states), 2, Served(false)) && !Final(states).shared.ready
  {
    states := OneMore([START], [], Arrive(1));
    states := OneMore(states, [Arrive(1)], Arrive(2));
    states := OneMore(states, [Arrive(1), Arrive(2)], TakeLock(1));
    states := OneMore(states, [Arrive(1), Arrive(2), TakeLock(1)], FinishProbe(1, false));
    states := OneMore(states, [Arrive(1), Arrive(2), TakeLock(1), FinishProbe(1, false)], TakeLock(2));
    events := [Arrive(1), Arrive(2), TakeLock(1), FinishProbe(1, false), TakeLock(2)];
  }

  /** One request probes and finds the sidecar healthy, and a second one reads that. */
  lemma ReadAfterProbe() returns (states: seq<State>, events: seq<Event>)
    ensures IsRun(states, events) && TakeLock(2) !in events
    ensures Final(states) ==
              State(0, Shared(Some(0), true, false), map[1 := Served(false), 2 := Waiting(false, false)], None,
                    [Probe(0, 0, true)])
  {
    states := OneMore([START], [], Arrive(1));
    states := OneMore(states, [Arrive(1)], TakeLock(1));
    states := OneMore(states, [Arrive(1), TakeLock(1)], FinishProbe(1, true));
    states := OneMore(states, [Arrive(1), TakeLock(1), FinishProbe(1, true)], Arrive(2));
    events := [Arrive(1), TakeLock(1), FinishProbe(1, true), Arrive(2)];
  }

  /** A request that never asks for the lock can be stale too: it read the flag just before the
      interval was over, and goes on after a later request's probe has failed. */
  lemma ReaderCanBeStale() returns (states: seq<State>, events: seq<Event>)
    ensures IsRun(states, events) && TakeLock(2) !in events
    ensures In(Final(states), 2, Served(false)) && !Final(states).shared.ready
  {
    states, events := ReadAfterProbe();
    states := OneMore(states, events, Tick(PROBE_INTERVAL + 1));
    events := events + [Tick(PROBE_INTERVAL + 1)];
    states := OneMore(states, events, Arrive(3));
    events := events + [Arrive(3)];
    states := OneMore(states, events, TakeLock(3));
    events := events + [TakeLock(3)];
    states := OneMore(states, events, FinishProbe(3, false));
    events := events + [FinishProbe(3, false)];
    states := OneMore(states, events, Pass(2));
    events := events + [Pass(2)];
  }

  /** The last probe that finished between moments k and n found the sidecar other than `ready` says. */
  ghost predicate Overturned(events: seq<Event>, k: nat, n: nat, ready: bool)
    requires n <= |events|
  {
    exists i :: k <= i < n && Overturns(events[i], ready) && forall j :: i < j < n ==> !events[j].FinishProbe?
  }

  ghost predicate Overturns(e: Event, ready: bool) { e.FinishProbe? && e.healthy != ready }

  lemma OverturnedBy(events: seq<Event>, k: nat, n: nat, ready: bool)
    requires k < n <= |events|
    ensures events[n - 1].FinishProbe? ==> (Overturned(events, k, n, ready) <==> events[n - 1].healthy != ready)
    ensures !events[n - 1].FinishProbe? ==> (Overturned(events, k, n, ready) <==> Overturned(events, k, n - 1, ready))
  {
    assert Overturns(events[n - 1], ready) ==> Overturned(events, k, n, ready);
    if !events[n - 1].FinishProbe? && Overturned(events, k, n - 1, ready) {
      var i :| k <= i < n - 1 && Overturns(events[i], ready) && forall j :: i < j < n - 1 ==> !events[j].FinishProbe?;
      assert Overturns(events[i], ready);
    }
  }

  lemma {:induction false} ChangedExactly(states: seq<State>, events: seq<Event>, k: nat, n: nat)
    requires IsRun(states, events) && k <= n < |states|
    ensures states[n].shared.ready != states[k].shared.ready <==> Overturned(events, k, n, states[k].shared.ready)
    decreases n
  {
    if k < n {
      ChangedExactly(states, events, k, n - 1);
      OverturnedBy(events, k, n, states[k].shared.ready);
      assert Enabled(states[n - 1], events[n - 1]) && states[n] == Apply(states[n - 1], events[n - 1]);
    }
  }

  predicate IsServed(s: State, r: nat) { r in s.phases && s.phases[r].Served? }

  /** A request not yet served is waiting with the flag it read on arrival, or probing. */
  lemma {:induction false} KeepsItsFlag(states: seq<State>, events: seq<Event>, k: nat, m: nat, r: nat)
    requires IsRun(states, events) && 0 < k <= m < |states| && events[k - 1] == Arrive(r) && !IsServed(states[m], r)
    ensures r in states[m].phases && !states[m].phases[r].Skipped?
    ensures states[m].phases[r].Waiting? ==> states[m].phases[r].degraded == !states[k].shared.ready
    decreases m
  {
    if k < m {
      assert Enabled(states[m - 1], events[m - 1]) && states[m] == Apply(states[m - 1], events[m - 1]);
      KeepsItsFlag(states, events, k, m - 1, r);
    }
  }

  /** Exactly what a request is served with, however the others' steps interleave with its own.  If
      its own probe just finished, the current value.  Otherwise the value it read on arrival, at
      moment k; that is out of date exactly when the last probe finished since then, another
      request's, came out the other way. */
  lemma ServedFlagExactly(states: seq<State>, events: seq<Event>, k: nat, n: nat, r: nat)
    requires IsRun(states, events) && 0 < k < n < |states| && events[k - 1] == Arrive(r)
    requires !IsServed(states[n - 1], r) && IsServed(states[n], r)
    ensures var degraded, read, current := states[n].phases[r].degraded, states[k].shared.ready, states[n].shared.ready;
            if events[n - 1].FinishProbe? then events[n - 1].request == r && degraded == !current
            else degraded == !read && (degraded != !current <==> Overturned(events, k, n, read))
  {
    KeepsItsFlag(states, events, k, n - 1, r);
    assert Enabled(states[n - 1], events[n - 1]) && states[n] == Apply(states[n - 1], events[n - 1]);
    ChangedExactly(states, events, k, n);
  }
}
