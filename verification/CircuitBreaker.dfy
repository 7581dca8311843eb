/**
  The circuit breaker of one provider. A call is admitted (or refused) at one moment and
  settles at a later one, so a call begun while CLOSED may settle in any later state.
  The clock is assumed not to run backwards.
 */
module CircuitBreaker {
  import opened Policies

  datatype BreakerState = CLOSED | OPEN | HALF_OPEN

  datatype Breaker = Breaker(state: BreakerState, consecutiveFailures: nat, openedAt: int)

  const FreshBreaker := Breaker(CLOSED, 0, 0)

  // ---- What one call does to the breaker ----

  predicate Admits(b: Breaker, now: int, reset: int) {
    b.state == CLOSED || (b.state == OPEN && now - b.openedAt >= reset)
  }

  function AfterAdmission(b: Breaker, now: int, reset: int): Breaker {
    if b.state == OPEN && Admits(b, now, reset) then b.(state := HALF_OPEN) else b
  }

  function AfterSuccess(b: Breaker): Breaker {
    b.(state := CLOSED, consecutiveFailures := 0)
  }

  function AfterFailure(b: Breaker, now: int, threshold: int): Breaker {
    var n := b.consecutiveFailures + 1;
    if b.state == HALF_OPEN || n >= threshold then Breaker(OPEN, n, now) else b.(consecutiveFailures := n)
  }

  // ---- Runs of one key ----

  /** A call in flight: when it was let through, and whether that was a probe: while the breaker was not CLOSED. */
  datatype Call = Call(startedAt: int, probe: bool)

  /** `settled` and `probes` only record: outcomes in order, and when each probe started. */
  datatype State = State(
    now: int,
    breaker: Breaker,
    calls: map<nat, Call>,
    settled: seq<bool>,
    probes: seq<int>,
    prober: nat)

  datatype Event = Tick(ms: nat) | Arrive(call: nat) | Succeed(call: nat) | Fail(call: nat)

  function Step(p: Policy, s: State, e: Event): State {
    match e
    case Tick(ms) => s.(now := s.now + ms)
    case Arrive(c) =>
      if c in s.calls || !Admits(s.breaker, s.now, p.resetTimeoutMs) then s
      else
        var probe := s.breaker.state != CLOSED;
        s.(breaker := AfterAdmission(s.breaker, s.now, p.resetTimeoutMs),
           calls := s.calls[c := Call(s.now, probe)],
           probes := if probe then s.probes + [s.now] else s.probes,
           prober := if probe then c else s.prober)
    case Succeed(c) =>
      if c !in s.calls then s
      else s.(breaker := AfterSuccess(s.breaker), calls := s.calls - {c}, settled := s.settled + [true])
    case Fail(c) =>
      if c !in s.calls then s
      else s.(breaker := AfterFailure(s.breaker, s.now, p.failureThreshold),
              calls := s.calls - {c}, settled := s.settled + [false])
  }

  function Exec(p: Policy, s: State, es: seq<Event>): State {
    if es == [] then s else Step(p, Exec(p, s, es[..|es| - 1]), es[|es| - 1])
  }

  ghost predicate Init(s: State) {
    s.breaker == FreshBreaker && s.calls == map[] && s.settled == [] && s.probes == []
  }

  // ---- Counting failures ----

  /** Failures settled since the last settled success. */
  function TrailingFailures(settled: seq<bool>): nat {
    if settled == [] || settled[|settled| - 1] then 0 else 1 + TrailingFailures(settled[..|settled| - 1])
  }

  ghost predicate ClosedIffBelow(p: Policy, s: State) {
    s.breaker.state == CLOSED <==> s.breaker.consecutiveFailures < p.failureThreshold
  }

  ghost predicate Counts(p: Policy, s: State) {
    && s.breaker.consecutiveFailures == TrailingFailures(s.settled)
    && (p.failureThreshold >= 1 ==> ClosedIffBelow(p, s))
  }

  lemma {:induction false} AlwaysCounts(p: Policy, s: State, es: seq<Event>)
    requires Counts(p, s)
    ensures Counts(p, Exec(p, s, es))
  {
    if es != [] {
      AlwaysCounts(p, s, es[..|es| - 1]);
      var s', e := Exec(p, s, es[..|es| - 1]), es[|es| - 1];
      assert e.Succeed? ==> (s'.settled + [true])[..|s'.settled|] == s'.settled;
      assert e.Fail? ==> (s'.settled + [false])[..|s'.settled|] == s'.settled;
    }
  }

  /** In any order of admissions and settlements the counter is the run of failures since the last success. */
  lemma CounterIsTrailingFailures(p: Policy, s: State, es: seq<Event>)
    requires Init(s)
    ensures Exec(p, s, es).breaker.consecutiveFailures == TrailingFailures(Exec(p, s, es).settled)
  {
    AlwaysCounts(p, s, es);
  }

  ghost predicate ClosedIffBelowAfter(p: Policy, s: State, es: seq<Event>) {
    ClosedIffBelow(p, Exec(p, s, es))
  }

  /** The breaker is closed exactly while that run is below the threshold, if the threshold is positive. */
  lemma ClosedIffBelowThreshold(p: Policy, s: State)
    requires Init(s)
    ensures (forall es :: ClosedIffBelowAfter(p, s, es)) <==> p.failureThreshold >= 1
  {
    if p.failureThreshold >= 1 {
      forall es
        ensures ClosedIffBelowAfter(p, s, es)
      {
        AlwaysCounts(p, s, es);
      }
    } else {
      assert !ClosedIffBelowAfter(p, s, []);
    }
  }

  // ---- Probes ----

  function LastProbe(s: State): int
    requires s.probes != []
  {
    s.probes[|s.probes| - 1]
  }

  ghost predicate Spaced(p: Policy, probes: seq<int>) {
    forall i, j :: 0 <= i < j < |probes| ==> probes[i] + p.resetTimeoutMs <= probes[j]
  }

  predicate ProbeInFlight(s: State, c: nat) {
    c in s.calls && s.calls[c].probe
  }

  ghost predicate ProbeInv(p: Policy, s: State) {
    && Spaced(p, s.probes)
    && (s.probes != [] ==> LastProbe(s) <= s.now)
    && (s.breaker.state == OPEN ==> s.breaker.openedAt <= s.now)
    && (s.breaker.state == OPEN && s.probes != [] ==> LastProbe(s) <= s.breaker.openedAt)
    && (s.breaker.state == HALF_OPEN ==> s.probes != [] && s.calls.Keys >= {s.prober}
                                         && s.calls[s.prober] == Call(LastProbe(s), true))
    && (forall c :: ProbeInFlight(s, c) ==> s.probes != [] && s.calls[c].startedAt <= LastProbe(s))
    && (forall c, d :: ProbeInFlight(s, c) && ProbeInFlight(s, d) && c != d ==>
          || s.calls[c].startedAt + p.resetTimeoutMs <= s.calls[d].startedAt
          || s.calls[d].startedAt + p.resetTimeoutMs <= s.calls[c].startedAt)
  }

  /** A call that is no probe, admitted while CLOSED. */
  lemma PlainArrivalKeepsProbeInv(p: Policy, s: State, call: nat)
    requires ProbeInv(p, s) && call !in s.calls && s.breaker.state == CLOSED
    ensures ProbeInv(p, Step(p, s, Arrive(call)))
  {
    var s' := Step(p, s, Arrive(call));
    forall c
      ensures ProbeInFlight(s', c) <==> ProbeInFlight(s, c)
    {}
  }

  /** A probe is younger, by the reset timeout at least, than every probe before it. */
  lemma ProbeKeepsProbeInv(p: Policy, s: State, call: nat)
    requires ProbeInv(p, s) && p.resetTimeoutMs >= 0
    requires call !in s.calls && s.breaker.state == OPEN && Admits(s.breaker, s.now, p.resetTimeoutMs)
    ensures ProbeInv(p, Step(p, s, Arrive(call)))
  {
    var s' := Step(p, s, Arrive(call));
    forall c | ProbeInFlight(s', c) && c != call
      ensures ProbeInFlight(s, c) && s'.calls[c] == s.calls[c] && s.calls[c].startedAt + p.resetTimeoutMs <= s.now
    {}
  }

  lemma ArrivalKeepsProbeInv(p: Policy, s: State, call: nat)
    requires ProbeInv(p, s) && p.resetTimeoutMs >= 0
    ensures ProbeInv(p, Step(p, s, Arrive(call)))
  {
    if call !in s.calls && Admits(s.breaker, s.now, p.resetTimeoutMs) {
      if s.breaker.state == OPEN {
        ProbeKeepsProbeInv(p, s, call);
      } else {
        PlainArrivalKeepsProbeInv(p, s, call);
      }
    }
  }

  lemma SettlementKeepsProbeInv(p: Policy, s: State, e: Event)
    requires ProbeInv(p, s) && !e.Arrive?
    ensures ProbeInv(p, Step(p, s, e))
  {
    var s' := Step(p, s, e);
    forall c | ProbeInFlight(s', c)
      ensures ProbeInFlight(s, c) && s'.calls[c] == s.calls[c]
    {}
  }

  lemma StepKeepsProbeInv(p: Policy, s: State, e: Event)
    requires ProbeInv(p, s) && p.resetTimeoutMs >= 0
    ensures ProbeInv(p, Step(p, s, e))
  {
    if e.Arrive? {
      ArrivalKeepsProbeInv(p, s, e.call);
    } else {
      SettlementKeepsProbeInv(p, s, e);
    }
  }

  lemma {:induction false} AlwaysProbeInv(p: Policy, s: State, es: seq<Event>)
    requires ProbeInv(p, s) && p.resetTimeoutMs >= 0
    ensures ProbeInv(p, Exec(p, s, es))
  {
    if es != [] {
      AlwaysProbeInv(p, s, es[..|es| - 1]);
      StepKeepsProbeInv(p, Exec(p, s, es[..|es| - 1]), es[|es| - 1]);
    }
  }

  /** Probes of one key start at least the reset timeout apart, stale settlements or not. */
  lemma ProbesAreSpaced(p: Policy, s: State, es: seq<Event>, i: nat, j: nat)
    requires Init(s) && p.resetTimeoutMs >= 0 && i < j < |Exec(p, s, es).probes|
    ensures Exec(p, s, es).probes[i] + p.resetTimeoutMs <= Exec(p, s, es).probes[j]
  {
    AlwaysProbeInv(p, s, es);
  }

  /** While the breaker is half open, the probe that made it so is still in flight. */
  lemma HalfOpenMeansProbing(p: Policy, s: State, es: seq<Event>)
    requires Init(s) && p.resetTimeoutMs >= 0 && Exec(p, s, es).breaker.state == HALF_OPEN
    ensures exists c :: ProbeInFlight(Exec(p, s, es), c)
                        && Exec(p, s, es).probes != [] && Exec(p, s, es).calls[c].startedAt == LastProbe(Exec(p, s, es))
  {
    AlwaysProbeInv(p, s, es);
    assert ProbeInFlight(Exec(p, s, es), Exec(p, s, es).prober);
  }

  /** No call in flight is as old as the reset timeout. */
  ghost predicate Prompt(p: Policy, s: State) {
    forall c :: c in s.calls ==> s.now < s.calls[c].startedAt + p.resetTimeoutMs
  }

  /** If calls settle in less than the reset timeout, at most one probe runs at a time. */
  lemma AtMostOneProbe(p: Policy, s: State, es: seq<Event>, c: nat, d: nat)
    requires Init(s) && p.resetTimeoutMs >= 0 && Prompt(p, Exec(p, s, es))
    requires ProbeInFlight(Exec(p, s, es), c) && ProbeInFlight(Exec(p, s, es), d)
    ensures c == d
  {
    AlwaysProbeInv(p, s, es);
  }

  /** Every preset gives its calls less time than its reset timeout, so one probe at a time it is. */
  lemma PresetsProbeOnce(p: Policy, s: State, es: seq<Event>, c: nat, d: nat)
    requires Preset(p) && Init(s)
    requires forall k :: k in Exec(p, s, es).calls ==> Exec(p, s, es).now <= Exec(p, s, es).calls[k].startedAt + p.timeoutMs
    requires ProbeInFlight(Exec(p, s, es), c) && ProbeInFlight(Exec(p, s, es), d)
    ensures c == d
  {
    AtMostOneProbe(p, s, es, c, d);
  }

  /** One way back to CLOSED: wait, let a probe through if none is on its way, and let it succeed. */
  ghost function Recovery(p: Policy, s: State, c: nat): seq<Event>
    requires p.resetTimeoutMs >= 0
  {
    match s.breaker.state
    case CLOSED => []
    case HALF_OPEN => [Succeed(s.prober)]
    case OPEN => [Tick(p.resetTimeoutMs)] + [Arrive(c)] + [Succeed(c)]
  }

  lemma OpenRecovers(p: Policy, s: State, c: nat)
    requires p.resetTimeoutMs >= 0 && s.breaker.state == OPEN && s.breaker.openedAt <= s.now && c !in s.calls
    ensures Exec(p, s, Recovery(p, s, c)).breaker.state == CLOSED
  {
    var waited := [Tick(p.resetTimeoutMs)];
    assert waited[..0] == [];
    var s1 := s.(now := s.now + p.resetTimeoutMs);
    assert Exec(p, s, waited) == Step(p, s, Tick(p.resetTimeoutMs)) == s1;
    ExecSnoc(p, s, waited, Arrive(c));
    var s2 := Step(p, s1, Arrive(c));
    assert c in s2.calls;
    ExecSnoc(p, s, waited + [Arrive(c)], Succeed(c));
    assert Step(p, s2, Succeed(c)).breaker == AfterSuccess(s2.breaker);
  }

  lemma HalfOpenRecovers(p: Policy, s: State, c: nat)
    requires p.resetTimeoutMs >= 0 && s.breaker.state == HALF_OPEN && s.prober in s.calls
    ensures Exec(p, s, Recovery(p, s, c)).breaker.state == CLOSED
  {
    assert [Succeed(s.prober)][..0] == [];
  }

  /** The breaker never gets stuck: after any run, the next probe to succeed closes it. */
  lemma NeverStuck(p: Policy, s: State, es: seq<Event>, c: nat)
    requires Init(s) && p.resetTimeoutMs >= 0 && c !in Exec(p, s, es).calls
    ensures var end := Exec(p, s, es);
            Exec(p, end, Recovery(p, end, c)).breaker.state == CLOSED
  {
    AlwaysProbeInv(p, s, es);
    var end := Exec(p, s, es);
    match end.breaker.state
    case CLOSED =>
    case HALF_OPEN => HalfOpenRecovers(p, end, c);
    case OPEN => OpenRecovers(p, end, c);
  }

  lemma ExecSnoc(p: Policy, s: State, es: seq<Event>, e: Event)
    ensures Exec(p, s, es + [e]) == Step(p, Exec(p, s, es), e)
  {
    assert (es + [e])[..|es|] == es;
  }

  // ---- Who is let through ----

  /** The call reaches `fn` by this step. */
  predicate LetThrough(s: State, s': State, c: nat) {
    c !in s.calls && c in s'.calls
  }

  /** While a probe is out, and until the reset timeout is over, nobody is let through and nothing changes. */
  lemma Refused(p: Policy, s: State, c: nat)
    requires s.breaker.state == HALF_OPEN || (s.breaker.state == OPEN && s.now - s.breaker.openedAt < p.resetTimeoutMs)
    ensures Step(p, s, Arrive(c)) == s
  {}

  /** In every other state a new call is let through; only one behind the reset timeout turns OPEN into HALF_OPEN. */
  lemma Admitted(p: Policy, s: State, c: nat)
    requires c !in s.calls
    requires s.breaker.state == CLOSED || (s.breaker.state == OPEN && s.now - s.breaker.openedAt >= p.resetTimeoutMs)
    ensures var s' := Step(p, s, Arrive(c));
            && LetThrough(s, s', c) && s'.calls[c].startedAt == s.now == s'.now && s'.calls - {c} == s.calls
            && s'.breaker == (if s.breaker.state == CLOSED then s.breaker else s.breaker.(state := HALF_OPEN))
  {
    assert Step(p, s, Arrive(c)).calls - {c} == s.calls;
  }

  /** The step is a failure that opens the breaker, or opens it anew. */
  predicate Opens(p: Policy, s: State, e: Event) {
    e.Fail? && e.call in s.calls && Step(p, s, e).breaker.state == OPEN
  }

  /** When the breaker was opened last in the run. */
  function LastOpened(p: Policy, s: State, es: seq<Event>): int {
    if es == [] then 0
    else
      var before, e := Exec(p, s, es[..|es| - 1]), es[|es| - 1];
      if Opens(p, before, e) then before.now else LastOpened(p, s, es[..|es| - 1])
  }

  /** How many calls have been let through since then while the breaker was not CLOSED. */
  function SinceOpened(p: Policy, s: State, es: seq<Event>): nat {
    if es == [] then 0
    else
      var before, e := Exec(p, s, es[..|es| - 1]), es[|es| - 1];
      if Opens(p, before, e) then 0
      else
        SinceOpened(p, s, es[..|es| - 1])
        + if e.Arrive? && before.breaker.state != CLOSED && LetThrough(before, Step(p, before, e), e.call) then 1 else 0
  }

  /**
    Over whole runs, of all the calls that arrive after the breaker was opened, none is let
    through while it is OPEN, exactly one has been let through while it is HALF_OPEN, and at
    most one was before it closed again.
   */
  lemma {:induction false} OneLetThrough(p: Policy, s: State, es: seq<Event>)
    requires Init(s)
    ensures Exec(p, s, es).breaker.state == OPEN ==> SinceOpened(p, s, es) == 0
    ensures Exec(p, s, es).breaker.state == HALF_OPEN ==> SinceOpened(p, s, es) == 1
    ensures SinceOpened(p, s, es) <= 1
    ensures Exec(p, s, es).breaker.state != CLOSED ==> Exec(p, s, es).breaker.openedAt == LastOpened(p, s, es)
  {
    if es != [] {
      OneLetThrough(p, s, es[..|es| - 1]);
      AlwaysCounts(p, s, es[..|es| - 1]);
    }
  }

  /** And that one comes when the reset timeout has passed since the breaker was opened last. */
  lemma LetThroughAfterReset(p: Policy, s: State, es: seq<Event>, c: nat)
    requires Init(s) && Exec(p, s, es).breaker.state != CLOSED
    requires LetThrough(Exec(p, s, es), Step(p, Exec(p, s, es), Arrive(c)), c)
    ensures LastOpened(p, s, es) + p.resetTimeoutMs <= Exec(p, s, es).now
    ensures Step(p, Exec(p, s, es), Arrive(c)).breaker.state == HALF_OPEN
  {
    OneLetThrough(p, s, es);
  }

  // ---- When one probe at a time is what every run gives ----

  ghost predicate NoneOlderThan(s: State, d: int) {
    forall c :: c in s.calls ==> s.now <= s.calls[c].startedAt + d
  }

  /** At no time in the run has a call been in flight for longer than `d`. */
  ghost predicate NeverOlderThan(p: Policy, s: State, es: seq<Event>, d: int) {
    NoneOlderThan(Exec(p, s, es), d) && (es != [] ==> NeverOlderThan(p, s, es[..|es| - 1], d))
  }

  ghost predicate OneProbe(s: State) {
    forall c, q :: ProbeInFlight(s, c) && ProbeInFlight(s, q) ==> c == q
  }

  ghost predicate OneProbeAfter(p: Policy, s: State, es: seq<Event>, d: int) {
    NeverOlderThan(p, s, es, d) ==> OneProbe(Exec(p, s, es))
  }

  lemma StepWithin(p: Policy, s: State, es: seq<Event>, e: Event, d: int)
    requires NeverOlderThan(p, s, es, d) && NoneOlderThan(Step(p, Exec(p, s, es), e), d)
    ensures NeverOlderThan(p, s, es + [e], d)
    ensures Exec(p, s, es + [e]) == Step(p, Exec(p, s, es), e)
  {
    ExecSnoc(p, s, es, e);
    assert (es + [e])[..|es|] == es;
  }

  /** How many failures open a closed breaker. */
  function Enough(p: Policy): nat
    ensures Enough(p) >= 1
  {
    if p.failureThreshold < 1 then 1 else p.failureThreshold
  }

  /** The calls `lo`, ..., `hi - 1`, all admitted at `now` while CLOSED. */
  function Calls(now: int, lo: nat, hi: nat): (r: map<nat, Call>)
    ensures forall c: nat :: c in r <==> lo <= c < hi
    ensures forall c: nat :: c in r ==> r[c] == Call(now, false)
  {
    if hi <= lo then map[] else Calls(now, lo, hi - 1)[hi - 1 := Call(now, false)]
  }

  function Failures(n: nat): (r: seq<bool>)
    ensures |r| == n
  {
    if n == 0 then [] else Failures(n - 1) + [false]
  }

  function Arrivals(n: nat): seq<Event> {
    if n == 0 then [] else Arrivals(n - 1) + [Arrive(n - 1)]
  }

  lemma OneMoreArrives(p: Policy, s: State, n: nat)
    requires s.breaker.state == CLOSED && s.calls == Calls(s.now, 0, n)
    ensures Step(p, s, Arrive(n)) == s.(calls := Calls(s.now, 0, n + 1))
  {}

  lemma {:induction false} AllArrive(p: Policy, s: State, n: nat, d: nat)
    requires Init(s)
    ensures NeverOlderThan(p, s, Arrivals(n), d)
    ensures Exec(p, s, Arrivals(n)) == s.(calls := Calls(s.now, 0, n))
  {
    if n == 0 {
      assert Calls(s.now, 0, 0) == map[];
    } else {
      AllArrive(p, s, n - 1, d);
      OneMoreArrives(p, s.(calls := Calls(s.now, 0, n - 1)), n - 1);
      StepWithin(p, s, Arrivals(n - 1), Arrive(n - 1), d);
    }
  }

  /** `total` calls arrive and the first `n` of them fail. */
  function FailFirst(total: nat, n: nat): seq<Event> {
    if n == 0 then Arrivals(total) else FailFirst(total, n - 1) + [Fail(n - 1)]
  }

  function Tripped(p: Policy, s: State, n: nat): Breaker {
    if n < Enough(p) then Breaker(CLOSED, n, 0) else Breaker(OPEN, n, s.now)
  }

  lemma OneMoreFails(p: Policy, s: State, n: nat)
    requires n < Enough(p) && s.breaker == Tripped(p, s, n) && s.calls == Calls(s.now, n, Enough(p) + 1)
    ensures Step(p, s, Fail(n)) == s.(breaker := Tripped(p, s, n + 1), calls := Calls(s.now, n + 1, Enough(p) + 1),
                                      settled := s.settled + [false])
  {
    assert Calls(s.now, n, Enough(p) + 1) - {n} == Calls(s.now, n + 1, Enough(p) + 1);
  }

  lemma {:induction false} SomeFail(p: Policy, s: State, n: nat, d: nat)
    requires Init(s) && n <= Enough(p)
    ensures NeverOlderThan(p, s, FailFirst(Enough(p) + 1, n), d)
    ensures Exec(p, s, FailFirst(Enough(p) + 1, n))
         == s.(breaker := Tripped(p, s, n), calls := Calls(s.now, n, Enough(p) + 1), settled := Failures(n))
  {
    var total := Enough(p) + 1;
    if n == 0 {
      AllArrive(p, s, total, d);
    } else {
      SomeFail(p, s, n - 1, d);
      OneMoreFails(p, Exec(p, s, FailFirst(total, n - 1)), n - 1);
      StepWithin(p, s, FailFirst(total, n - 1), Fail(n - 1), d);
    }
  }

  /** One call is left of those begun while CLOSED; the reset timeout passes and call `c` probes. */
  lemma ProbeBesideStaleCall(p: Policy, s: State, n: nat, d: nat)
    requires s.breaker.state == OPEN && s.breaker.openedAt == s.now && s.calls == map[n := Call(s.now, false)]
    requires 0 <= p.resetTimeoutMs <= d
    ensures var waited := Step(p, s, Tick(p.resetTimeoutMs));
            var probing := Step(p, waited, Arrive(n + 1));
            && NoneOlderThan(waited, d) && NoneOlderThan(probing, d)
            && probing.now == s.now + p.resetTimeoutMs && probing.breaker.state == HALF_OPEN
            && n in probing.calls && probing.calls - {n} == map[n + 1 := Call(probing.now, true)]
  {
    var waited := s.(now := s.now + p.resetTimeoutMs);
    assert Step(p, s, Tick(p.resetTimeoutMs)) == waited;
    assert Admits(s.breaker, waited.now, p.resetTimeoutMs);
    assert Step(p, waited, Arrive(n + 1)).calls == waited.calls[n + 1 := Call(waited.now, true)];
  }

  /** The stale call fails and reopens the breaker; after the reset timeout a second probe joins the first. */
  lemma SecondProbeJoins(p: Policy, s: State, n: nat, d: nat)
    requires s.breaker.state == HALF_OPEN && n in s.calls && s.calls - {n} == map[n + 1 := Call(s.now, true)]
    requires 0 <= p.resetTimeoutMs <= d
    ensures var reopened := Step(p, s, Fail(n));
            var waited := Step(p, reopened, Tick(p.resetTimeoutMs));
            var joined := Step(p, waited, Arrive(n + 2));
            && NoneOlderThan(reopened, d) && NoneOlderThan(waited, d) && NoneOlderThan(joined, d)
            && ProbeInFlight(joined, n + 1) && ProbeInFlight(joined, n + 2)
  {
    var reopened := Step(p, s, Fail(n));
    assert reopened.breaker.state == OPEN && reopened.breaker.openedAt == s.now;
    assert reopened.calls == map[n + 1 := Call(s.now, true)];
    var waited := reopened.(now := s.now + p.resetTimeoutMs);
    assert Step(p, reopened, Tick(p.resetTimeoutMs)) == waited;
    assert Step(p, waited, Arrive(n + 2)).calls == waited.calls[n + 2 := Call(waited.now, true)];
  }

  /** Up to the first probe. */
  function FirstProbe(p: Policy): seq<Event>
    requires p.resetTimeoutMs >= 0
  {
    FailFirst(Enough(p) + 1, Enough(p)) + [Tick(p.resetTimeoutMs)] + [Arrive(Enough(p) + 1)]
  }

  lemma OneCallLeft(p: Policy, s: State, d: nat)
    requires Init(s)
    ensures NeverOlderThan(p, s, FailFirst(Enough(p) + 1, Enough(p)), d)
    ensures var end := Exec(p, s, FailFirst(Enough(p) + 1, Enough(p)));
            && end.breaker.state == OPEN && end.breaker.openedAt == end.now
            && end.calls == map[Enough(p) := Call(end.now, false)]
  {
    SomeFail(p, s, Enough(p), d);
    assert Calls(s.now, Enough(p), Enough(p) + 1) == map[Enough(p) := Call(s.now, false)];
  }

  lemma FirstProbeStarts(p: Policy, s: State, d: nat)
    requires Init(s) && 0 <= p.resetTimeoutMs <= d
    ensures NeverOlderThan(p, s, FirstProbe(p), d)
    ensures var n, end := Enough(p), Exec(p, s, FirstProbe(p));
            && end.breaker.state == HALF_OPEN && n in end.calls
            && end.calls - {n} == map[n + 1 := Call(end.now, true)]
  {
    var n := Enough(p);
    OneCallLeft(p, s, d);
    var es := FailFirst(n + 1, n);
    ProbeBesideStaleCall(p, Exec(p, s, es), n, d);
    StepWithin(p, s, es, Tick(p.resetTimeoutMs), d);
    StepWithin(p, s, es + [Tick(p.resetTimeoutMs)], Arrive(n + 1), d);
  }

  /** The run in which a second probe joins: the breaker trips, and one call begun while CLOSED fails late. */
  function JoinedProbes(p: Policy): seq<Event>
    requires p.resetTimeoutMs >= 0
  {
    FirstProbe(p) + [Fail(Enough(p))] + [Tick(p.resetTimeoutMs)] + [Arrive(Enough(p) + 2)]
  }

  /** For every policy, calls as old as the reset timeout are enough for two probes in flight. */
  lemma SlowProbeIsJoined(p: Policy, s: State, d: nat)
    requires Init(s) && 0 <= p.resetTimeoutMs <= d
    ensures NeverOlderThan(p, s, JoinedProbes(p), d) && !OneProbe(Exec(p, s, JoinedProbes(p)))
  {
    var n, es := Enough(p), FirstProbe(p);
    FirstProbeStarts(p, s, d);
    SecondProbeJoins(p, Exec(p, s, es), n, d);
    StepWithin(p, s, es, Fail(n), d);
    StepWithin(p, s, es + [Fail(n)], Tick(p.resetTimeoutMs), d);
    StepWithin(p, s, es + [Fail(n)] + [Tick(p.resetTimeoutMs)], Arrive(n + 2), d);
  }

  /**
    One probe at a time is what every run gives, as long as no call in it is ever older than
    `d`, exactly if `d` is below the reset timeout.
   */
  lemma OneProbeIff(p: Policy, s: State, d: nat)
    requires Init(s) && p.resetTimeoutMs >= 0
    ensures (forall es :: OneProbeAfter(p, s, es, d)) <==> d < p.resetTimeoutMs
  {
    if d < p.resetTimeoutMs {
      forall es
        ensures OneProbeAfter(p, s, es, d)
      {
        if NeverOlderThan(p, s, es, d) {
          assert Prompt(p, Exec(p, s, es));
          forall c, q | ProbeInFlight(Exec(p, s, es), c) && ProbeInFlight(Exec(p, s, es), q)
            ensures c == q
          {
            AtMostOneProbe(p, s, es, c, q);
          }
        }
      }
    } else {
      SlowProbeIsJoined(p, s, d);
      assert !OneProbeAfter(p, s, JoinedProbes(p), d);
    }
  }

  // ---- The module-level table of breakers ----

  /** One breaker per key, created on first use and kept; calls with one key share it. */
  class Breakers {
    var breakers: map<string, Breaker>

    constructor ()
      ensures breakers == map[]
    {
      breakers := map[];
    }

    ghost function Of(key: string): Breaker
      reads this
    {
      if key in breakers then breakers[key] else FreshBreaker
    }

    ghost predicate OthersAsIn(was: map<string, Breaker>, key: string)
      reads this
    {
      breakers.Keys == was.Keys + {key} && forall k :: k in was && k != key ==> breakers[k] == was[k]
    }

    method GetBreaker(key: string) returns (b: Breaker)
      modifies this
      ensures b == old(Of(key)) == Of(key) && OthersAsIn(old(breakers), key)
    {
      if key !in breakers {
        breakers := breakers[key := Breaker(CLOSED, 0, 0)];
      }
      b := breakers[key];
    }

    /** Up to the call of `fn`; false is the `CircuitOpenError`. */
    method Enter(key: string, now: int, p: Policy) returns (admitted: bool)
      modifies this
      ensures admitted <==> Admits(old(Of(key)), now, p.resetTimeoutMs)
      ensures Of(key) == AfterAdmission(old(Of(key)), now, p.resetTimeoutMs) && OthersAsIn(old(breakers), key)
      ensures old(Of(key)).state == CLOSED ==> admitted && Of(key) == old(Of(key))
      ensures old(Of(key)).state == HALF_OPEN ==> !admitted && Of(key) == old(Of(key))
      ensures old(Of(key)).state == OPEN ==> (admitted <==> now - old(Of(key)).openedAt >= p.resetTimeoutMs)
      ensures old(Of(key)).state == OPEN ==> Of(key) == old(Of(key)).(state := if admitted then HALF_OPEN else OPEN)
    {
      var b := GetBreaker(key);
      if b.state == OPEN {
        var elapsed := now - b.openedAt;
        if elapsed < p.resetTimeoutMs {
          return false;
        }
        breakers := breakers[key := b.(state := HALF_OPEN)];
      } else if b.state == HALF_OPEN {
        return false;
      }
      return true;
    }

    /** When `fn` resolves. */
    method Resolved(key: string)
      modifies this
      ensures Of(key) == AfterSuccess(old(Of(key))) && OthersAsIn(old(breakers), key)
      ensures Of(key).state == CLOSED && Of(key).consecutiveFailures == 0
    {
      var b := GetBreaker(key);
      breakers := breakers[key := Breaker(CLOSED, 0, b.openedAt)];
    }

    /** When `fn` rejects. */
    method Rejected(key: string, now: int, p: Policy)
      modifies this
      ensures Of(key) == AfterFailure(old(Of(key)), now, p.failureThreshold) && OthersAsIn(old(breakers), key)
      ensures Of(key).consecutiveFailures == old(Of(key)).consecutiveFailures + 1
      ensures old(Of(key)).state == HALF_OPEN || Of(key).consecutiveFailures >= p.failureThreshold ==>
                Of(key).state == OPEN && Of(key).openedAt == now
      ensures old(Of(key)).state != HALF_OPEN && Of(key).consecutiveFailures < p.failureThreshold ==>
                Of(key).state == old(Of(key)).state && Of(key).openedAt == old(Of(key)).openedAt
    {
      var b := GetBreaker(key);
      b := b.(consecutiveFailures := b.consecutiveFailures + 1);
      if b.state == HALF_OPEN || b.consecutiveFailures >= p.failureThreshold {
        b := b.(state := OPEN, openedAt := now);
      }
      breakers := breakers[key := b];
    }
  }
}
