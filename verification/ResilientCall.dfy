/**
  Calls to one external provider: a bulkhead slot, in it the retry loop, in every attempt the
  circuit breaker, and inside that the timeout. Any number of calls are under way at once on
  one semaphore and one breaker; the machine takes its steps with the machines of these two.
 */
module ResilientCall {
  import opened Common
  import opened Policies
  import opened Retry
  import Circuit = CircuitBreaker
  import Slots = Bulkhead

  /** How one attempt ended; `Refused` is the breaker's CircuitOpenError, with `fn` not called. */
  datatype Outcome = Succeeded | Failed | Refused

  /**
    Where a call stands. `outs` are the outcomes of its attempts so far, `granted` is when it
    got its slot. `Ready` is about to make the next attempt, `Ending` is out of the loop and
    still holds the slot.
   */
  datatype Phase =
    | Queued
    | Woken
    | Ready(outs: seq<Outcome>, granted: int)
    | Invoking(outs: seq<Outcome>, since: int, granted: int)
    | Pausing(outs: seq<Outcome>, since: int, granted: int)
    | Ending(outs: seq<Outcome>, granted: int)

  datatype Fate = Rejected | Finished(outs: seq<Outcome>)

  datatype State = State(slots: Slots.State, circuit: Circuit.State, phases: map<nat, Phase>, fates: map<nat, Fate>)

  datatype Event =
    | Tick(ms: nat)
    | Arrive(call: nat)
    | Resume              // the oldest woken call takes its slot
    | Begin(call: nat)    // an attempt reaches the breaker
    | Succeed(call: nat)  // fn resolves
    | Fail(call: nat)     // fn rejects, by itself or after the abort
    | WakeUp(call: nat)   // the pause is over
    | Leave(call: nat)    // the slot is given back

  predicate IsInvoking(s: State, c: nat) {
    c in s.phases && s.phases[c].Invoking?
  }

  predicate InSlot(s: State, c: nat) {
    c in s.phases && !s.phases[c].Queued? && !s.phases[c].Woken?
  }

  predicate IsFinished(s: State, c: nat) {
    c in s.fates && s.fates[c].Finished?
  }

  predicate Enabled(p: Policy, s: State, e: Event) {
    match e
    case Tick(_) => true
    case Arrive(c) => c !in s.phases && c !in s.fates
    case Resume => s.slots.woken != []
    case Begin(c) => c in s.phases && s.phases[c].Ready?
    case Succeed(c) => IsInvoking(s, c)
    case Fail(c) => IsInvoking(s, c)
    case WakeUp(c) =>
      c in s.phases && s.phases[c].Pausing? && s.phases[c].outs != []
      && s.circuit.now >= s.phases[c].since + Delay(p, |s.phases[c].outs|)
    case Leave(c) => c in s.phases && s.phases[c].Ending?
  }

  /** What the step is to the semaphore, if anything. */
  function SlotEvent(e: Event): Option<Slots.Event> {
    match e
    case Arrive(c) => Some(Slots.Arrive(c))
    case Resume => Some(Slots.Resume)
    case Leave(c) => Some(Slots.Finish(c))
    case _ => None
  }

  predicate AttemptsLeft(p: Policy, ph: Phase)
    requires ph.Ready? || ph.Invoking?
  {
    |ph.outs| < p.attempts
  }

  /** What the step is to the breaker; a tick of no length is nothing. */
  function CircuitEvent(p: Policy, s: State, e: Event): Circuit.Event
    requires Enabled(p, s, e)
  {
    match e
    case Tick(ms) => Circuit.Tick(ms)
    case Begin(c) => if AttemptsLeft(p, s.phases[c]) then Circuit.Arrive(c) else Circuit.Tick(0)
    case Succeed(c) => Circuit.Succeed(c)
    case Fail(c) => Circuit.Fail(c)
    case _ => Circuit.Tick(0)
  }

  function SlotsAfter(p: Policy, s: State, e: Event): Slots.State {
    if SlotEvent(e).Some? then Slots.Step(p, s.slots, SlotEvent(e).value) else s.slots
  }

  function CircuitAfter(p: Policy, s: State, e: Event): Circuit.State
    requires Enabled(p, s, e)
  {
    Circuit.Step(p, s.circuit, CircuitEvent(p, s, e))
  }

  /** The attempt is made if the breaker lets it through, and ends the loop if it does not. */
  function Begun(p: Policy, ph: Phase, admitted: bool, now: int): Phase
    requires ph.Ready?
  {
    if !AttemptsLeft(p, ph) then Ending(ph.outs, ph.granted)
    else if admitted then Invoking(ph.outs, now, ph.granted)
    else Ending(ph.outs + [Refused], ph.granted)
  }

  /** A failure is followed by a pause, unless it was the last attempt. */
  function FailedOnce(p: Policy, ph: Phase, now: int): Phase
    requires ph.Invoking?
  {
    if |ph.outs| + 1 >= p.attempts then Ending(ph.outs + [Failed], ph.granted)
    else Pausing(ph.outs + [Failed], now, ph.granted)
  }

  function PhasesAfter(p: Policy, s: State, e: Event): map<nat, Phase>
    requires Enabled(p, s, e)
  {
    var now := s.circuit.now;
    match e
    case Tick(_) => s.phases
    case Arrive(c) =>
      if c in SlotsAfter(p, s, e).running then s.phases[c := Ready([], now)]
      else if c in SlotsAfter(p, s, e).waiters then s.phases[c := Queued]
      else s.phases
    case Resume => s.phases[s.slots.woken[0] := Ready([], now)]
    case Begin(c) => s.phases[c := Begun(p, s.phases[c], c in CircuitAfter(p, s, e).calls, now)]
    case Succeed(c) => s.phases[c := Ending(s.phases[c].outs + [Succeeded], s.phases[c].granted)]
    case Fail(c) => s.phases[c := FailedOnce(p, s.phases[c], now)]
    case WakeUp(c) => s.phases[c := Ready(s.phases[c].outs, s.phases[c].granted)]
    case Leave(c) =>
      if s.slots.waiters == [] then s.phases - {c} else (s.phases - {c})[s.slots.waiters[0] := Woken]
  }

  function FatesAfter(p: Policy, s: State, e: Event): map<nat, Fate>
    requires Enabled(p, s, e)
  {
    match e
    case Arrive(c) =>
      if c in SlotsAfter(p, s, e).running || c in SlotsAfter(p, s, e).waiters then s.fates else s.fates[c := Rejected]
    case Leave(c) => s.fates[c := Finished(s.phases[c].outs)]
    case _ => s.fates
  }

  function Step(p: Policy, s: State, e: Event): State {
    if !Enabled(p, s, e) then s
    else State(SlotsAfter(p, s, e), CircuitAfter(p, s, e), PhasesAfter(p, s, e), FatesAfter(p, s, e))
  }

  function Exec(p: Policy, s: State, es: seq<Event>): State {
    if es == [] then s else Step(p, Exec(p, s, es[..|es| - 1]), es[|es| - 1])
  }

  ghost predicate Init(s: State) {
    s.slots == Slots.Idle && Circuit.Init(s.circuit) && s.phases == map[] && s.fates == map[]
  }

  lemma ExecSnoc(p: Policy, s: State, es: seq<Event>, e: Event)
    ensures Exec(p, s, es + [e]) == Step(p, Exec(p, s, es), e)
  {
    assert (es + [e])[..|es|] == es;
  }

  // ---- Every run is a run of the breaker and a run of the semaphore ----

  ghost function CircuitRun(p: Policy, s: State, es: seq<Event>): seq<Circuit.Event> {
    if es == [] then []
    else
      var before, e := es[..|es| - 1], es[|es| - 1];
      CircuitRun(p, s, before)
      + if Enabled(p, Exec(p, s, before), e) then [CircuitEvent(p, Exec(p, s, before), e)] else []
  }

  ghost function SlotRun(p: Policy, s: State, es: seq<Event>): seq<Slots.Event> {
    if es == [] then []
    else
      var before, e := es[..|es| - 1], es[|es| - 1];
      SlotRun(p, s, before)
      + if Enabled(p, Exec(p, s, before), e) && SlotEvent(e).Some? then [SlotEvent(e).value] else []
  }

  /** So what is proved of the breaker in any run is so in this one. */
  lemma {:induction false} RunsTheCircuit(p: Policy, s: State, es: seq<Event>)
    ensures Exec(p, s, es).circuit == Circuit.Exec(p, s.circuit, CircuitRun(p, s, es))
  {
    if es != [] {
      var before, e := es[..|es| - 1], es[|es| - 1];
      RunsTheCircuit(p, s, before);
      if Enabled(p, Exec(p, s, before), e) {
        Circuit.ExecSnoc(p, s.circuit, CircuitRun(p, s, before), CircuitEvent(p, Exec(p, s, before), e));
      } else {
        assert CircuitRun(p, s, before) + [] == CircuitRun(p, s, before);
      }
    }
  }

  /** And what is proved of the semaphore. */
  lemma {:induction false} RunsTheSlots(p: Policy, s: State, es: seq<Event>)
    ensures Exec(p, s, es).slots == Slots.Exec(p, s.slots, SlotRun(p, s, es))
  {
    if es != [] {
      var before, e := es[..|es| - 1], es[|es| - 1];
      RunsTheSlots(p, s, before);
      if Enabled(p, Exec(p, s, before), e) && SlotEvent(e).Some? {
        Slots.ExecSnoc(p, s.slots, SlotRun(p, s, before), SlotEvent(e).value);
      } else {
        assert SlotRun(p, s, before) + [] == SlotRun(p, s, before);
      }
    }
  }

  // ---- The invariant ----

  /** The semaphore and the breaker know the calls as being where they are. */
  ghost predicate Placed(s: State, c: nat) {
    && (c in s.slots.running <==> InSlot(s, c))
    && (c in s.slots.waiters <==> c in s.phases && s.phases[c].Queued?)
    && (c in s.slots.woken <==> c in s.phases && s.phases[c].Woken?)
    && (c in s.circuit.calls <==> IsInvoking(s, c))
    && (IsInvoking(s, c) ==> s.circuit.calls[c].startedAt == s.phases[c].since)
    && (c in s.fates ==> c !in s.phases)
  }

  ghost predicate AllFailed(outs: seq<Outcome>) {
    forall i :: 0 <= i < |outs| ==> outs[i] == Failed
  }

  /** Outcomes with which the loop is over: all but the last failed, and it goes on after a failure if it may. */
  ghost predicate LoopEnds(p: Policy, outs: seq<Outcome>) {
    && |outs| <= Allowed(p) && (outs != [] ==> AllFailed(outs[..|outs| - 1]))
    && (|outs| < Allowed(p) ==> outs != [] && outs[|outs| - 1] != Failed)
  }

  ghost predicate PhaseInv(p: Policy, ph: Phase) {
    match ph
    case Queued => true
    case Woken => true
    case Ready(outs, _) => AllFailed(outs) && (outs == [] || |outs| < p.attempts)
    case Invoking(outs, _, _) => AllFailed(outs) && |outs| < p.attempts
    case Pausing(outs, _, _) => AllFailed(outs) && 1 <= |outs| < p.attempts
    case Ending(outs, _) => LoopEnds(p, outs)
  }

  ghost predicate Inv(p: Policy, s: State) {
    && Slots.Inv(p, s.slots)
    && (forall c :: Placed(s, c))
    && (forall c :: c in s.phases ==> PhaseInv(p, s.phases[c]))
    && (forall c :: IsFinished(s, c) ==> LoopEnds(p, s.fates[c].outs))
  }

  lemma ArrivalKeepsPlaces(p: Policy, s: State, e: Event, c: nat)
    requires Inv(p, s) && Enabled(p, s, e) && e.Arrive?
    ensures Placed(Step(p, s, e), c)
  {
    assert Placed(s, c) && Placed(s, e.call);
  }

  lemma HeadOf(q: seq<nat>, d: nat)
    requires q != []
    ensures q[0] in q
    ensures d in q <==> d == q[0] || d in q[1..]
  {}

  lemma ResumptionKeepsPlaces(p: Policy, s: State, c: nat)
    requires Inv(p, s) && Enabled(p, s, Resume)
    ensures Placed(Step(p, s, Resume), c)
  {
    HeadOf(s.slots.woken, c);
    assert Placed(s, c) && Placed(s, s.slots.woken[0]);
  }

  lemma DepartureKeepsPlaces(p: Policy, s: State, e: Event, c: nat)
    requires Inv(p, s) && Enabled(p, s, e) && e.Leave?
    ensures Placed(Step(p, s, e), c)
  {
    assert Placed(s, c) && Placed(s, e.call);
    if s.slots.waiters != [] {
      HeadOf(s.slots.waiters, c);
      assert Placed(s, s.slots.waiters[0]);
    }
  }

  lemma AttemptStepKeepsPlaces(p: Policy, s: State, e: Event, c: nat)
    requires Inv(p, s) && Enabled(p, s, e) && !(e.Arrive? || e.Resume? || e.Leave?)
    ensures Placed(Step(p, s, e), c)
  {
    assert Placed(s, c);
    if !e.Tick? {
      assert Placed(s, e.call);
    }
  }

  lemma LastOutcome(outs: seq<Outcome>, o: Outcome)
    ensures (outs + [o])[..|outs + [o]| - 1] == outs
  {}

  lemma BegunKeepsLoop(p: Policy, ph: Phase, admitted: bool, now: int)
    requires ph.Ready? && PhaseInv(p, ph)
    ensures PhaseInv(p, Begun(p, ph, admitted, now))
  {
    LastOutcome(ph.outs, Refused);
  }

  lemma SucceededKeepsLoop(p: Policy, ph: Phase)
    requires ph.Invoking? && PhaseInv(p, ph)
    ensures LoopEnds(p, ph.outs + [Succeeded])
  {
    LastOutcome(ph.outs, Succeeded);
  }

  lemma FailedKeepsLoop(p: Policy, ph: Phase, now: int)
    requires ph.Invoking? && PhaseInv(p, ph)
    ensures PhaseInv(p, FailedOnce(p, ph, now))
  {
    LastOutcome(ph.outs, Failed);
  }

  lemma StepKeepsPhase(p: Policy, s: State, e: Event, c: nat)
    requires Inv(p, s) && Enabled(p, s, e) && c in Step(p, s, e).phases
    ensures PhaseInv(p, Step(p, s, e).phases[c])
  {
    if c in s.phases {
      var ph := s.phases[c];
      assert PhaseInv(p, ph);
      if e == Begin(c) {
        BegunKeepsLoop(p, ph, c in CircuitAfter(p, s, e).calls, s.circuit.now);
      } else if e == Succeed(c) {
        SucceededKeepsLoop(p, ph);
      } else if e == Fail(c) {
        FailedKeepsLoop(p, ph, s.circuit.now);
      }
    }
  }

  lemma StepKeepsFate(p: Policy, s: State, e: Event, c: nat)
    requires Inv(p, s) && Enabled(p, s, e) && IsFinished(Step(p, s, e), c)
    ensures LoopEnds(p, Step(p, s, e).fates[c].outs)
  {
    if e == Leave(c) {
      assert PhaseInv(p, s.phases[c]);
    } else {
      assert IsFinished(s, c) && Step(p, s, e).fates[c] == s.fates[c];
    }
  }

  lemma StepKeepsInv(p: Policy, s: State, e: Event)
    requires Inv(p, s)
    ensures Inv(p, Step(p, s, e))
  {
    if Enabled(p, s, e) {
      if SlotEvent(e).Some? {
        Slots.StepKeepsInv(p, s.slots, SlotEvent(e).value);
      }
      forall c
        ensures Placed(Step(p, s, e), c)
      {
        if e.Arrive? {
          ArrivalKeepsPlaces(p, s, e, c);
        } else if e.Resume? {
          ResumptionKeepsPlaces(p, s, c);
        } else if e.Leave? {
          DepartureKeepsPlaces(p, s, e, c);
        } else {
          AttemptStepKeepsPlaces(p, s, e, c);
        }
      }
      forall c | c in Step(p, s, e).phases
        ensures PhaseInv(p, Step(p, s, e).phases[c])
      {
        StepKeepsPhase(p, s, e, c);
      }
      forall c | IsFinished(Step(p, s, e), c)
        ensures LoopEnds(p, Step(p, s, e).fates[c].outs)
      {
        StepKeepsFate(p, s, e, c);
      }
    }
  }

  lemma {:induction false} ReachableInv(p: Policy, s: State, es: seq<Event>)
    requires Inv(p, s)
    ensures Inv(p, Exec(p, s, es))
  {
    if es != [] {
      ReachableInv(p, s, es[..|es| - 1]);
      StepKeepsInv(p, Exec(p, s, es[..|es| - 1]), es[|es| - 1]);
    }
  }

  // ---- Accounts of one call ----

  datatype Kind = Invocation | Settlement | Grant | Release

  /** What happens to a call in a step, seen at `fn`, at the breaker and at the semaphore. */
  predicate Happens(kind: Kind, s: State, s': State, c: nat) {
    match kind
    case Invocation => !IsInvoking(s, c) && IsInvoking(s', c)
    case Settlement =>
      c in s.circuit.calls && c !in s'.circuit.calls && |s'.circuit.settled| == |s.circuit.settled| + 1
    case Grant => c !in s.slots.running && c in s'.slots.running
    case Release => c in s.slots.running && c !in s'.slots.running && s'.slots.active == s.slots.active - 1
  }

  /** How often it happens in a run. */
  ghost function Times(kind: Kind, p: Policy, s: State, es: seq<Event>, c: nat): nat {
    if es == [] then 0
    else
      var before := es[..|es| - 1];
      Times(kind, p, s, before, c) + if Happens(kind, Exec(p, s, before), Exec(p, s, es), c) then 1 else 0
  }

  function Outs(s: State, c: nat): seq<Outcome> {
    if InSlot(s, c) then s.phases[c].outs
    else if IsFinished(s, c) then s.fates[c].outs
    else []
  }

  /** The attempts among these in which `fn` was called. */
  function Made(outs: seq<Outcome>): (n: nat)
    ensures n <= |outs|
  {
    if outs == [] then 0 else Made(outs[..|outs| - 1]) + if outs[|outs| - 1] == Refused then 0 else 1
  }

  function Expected(kind: Kind, s: State, c: nat): nat {
    match kind
    case Invocation => Made(Outs(s, c)) + if IsInvoking(s, c) then 1 else 0
    case Settlement => Made(Outs(s, c))
    case Grant => if InSlot(s, c) || IsFinished(s, c) then 1 else 0
    case Release => if IsFinished(s, c) then 1 else 0
  }

  lemma MadeSnoc(outs: seq<Outcome>, o: Outcome)
    ensures Made(outs + [o]) == Made(outs) + if o == Refused then 0 else 1
  {
    assert (outs + [o])[..|outs|] == outs;
  }

  /** A call the step is not about is only ever queued, woken or given a slot by it. */
  lemma OtherCallUntouched(p: Policy, s: State, e: Event, c: nat)
    requires Inv(p, s) && Enabled(p, s, e) && (e.Tick? || (!e.Resume? && c != e.call))
    ensures var s' := Step(p, s, e);
            && InSlot(s', c) == InSlot(s, c) && IsFinished(s', c) == IsFinished(s, c) && IsInvoking(s', c) == IsInvoking(s, c)
            && Outs(s', c) == Outs(s, c)
  {
    assert Placed(s, c);
    if e.Leave? && s.slots.waiters != [] {
      assert s.slots.waiters[0] in s.slots.waiters && Placed(s, s.slots.waiters[0]);
    }
  }

  lemma OtherCallCounts(kind: Kind, p: Policy, s: State, e: Event, c: nat)
    requires Inv(p, s) && Enabled(p, s, e) && (e.Tick? || (!e.Resume? && c != e.call))
    ensures Expected(kind, Step(p, s, e), c) == Expected(kind, s, c) && !Happens(kind, s, Step(p, s, e), c)
  {
    OtherCallUntouched(p, s, e, c);
    StepKeepsInv(p, s, e);
    assert Placed(s, c) && Placed(Step(p, s, e), c);
  }

  lemma ResumptionCounts(kind: Kind, p: Policy, s: State, c: nat)
    requires Inv(p, s) && Enabled(p, s, Resume)
    ensures var s' := Step(p, s, Resume);
            Expected(kind, s', c) == Expected(kind, s, c) + if Happens(kind, s, s', c) then 1 else 0
  {
    StepKeepsInv(p, s, Resume);
    HeadOf(s.slots.woken, c);
    assert Placed(s, c) && Placed(Step(p, s, Resume), c) && Placed(s, s.slots.woken[0]);
  }

  lemma ArrivalCounts(kind: Kind, p: Policy, s: State, c: nat)
    requires Inv(p, s) && Enabled(p, s, Arrive(c))
    ensures var s' := Step(p, s, Arrive(c));
            Expected(kind, s', c) == Expected(kind, s, c) + if Happens(kind, s, s', c) then 1 else 0
  {
    StepKeepsInv(p, s, Arrive(c));
    assert Placed(s, c) && Placed(Step(p, s, Arrive(c)), c);
  }

  lemma DepartureCounts(kind: Kind, p: Policy, s: State, c: nat)
    requires Inv(p, s) && Enabled(p, s, Leave(c))
    ensures var s' := Step(p, s, Leave(c));
            Expected(kind, s', c) == Expected(kind, s, c) + if Happens(kind, s, s', c) then 1 else 0
  {
    StepKeepsInv(p, s, Leave(c));
    assert Placed(s, c) && Placed(Step(p, s, Leave(c)), c);
    if s.slots.waiters != [] {
      HeadOf(s.slots.waiters, c);
      assert Placed(s, s.slots.waiters[0]);
    }
  }

  /** What a step does to a call in its slot, as far as the accounts go. */
  lemma BeginOutcome(p: Policy, s: State, c: nat)
    requires Inv(p, s) && Enabled(p, s, Begin(c))
    ensures var s' := Step(p, s, Begin(c));
            && InSlot(s', c) && c in s'.slots.running && s'.circuit.settled == s.circuit.settled
            && Made(Outs(s', c)) == Made(Outs(s, c)) && !IsFinished(s', c)
  {
    assert Placed(s, c);
    MadeSnoc(s.phases[c].outs, Refused);
    var s' := Step(p, s, Begin(c));
    assert s'.phases[c] == Begun(p, s.phases[c], c in s'.circuit.calls, s.circuit.now);
  }

  lemma BeginCounts(kind: Kind, p: Policy, s: State, c: nat)
    requires Inv(p, s) && Enabled(p, s, Begin(c))
    ensures var s' := Step(p, s, Begin(c));
            Expected(kind, s', c) == Expected(kind, s, c) + if Happens(kind, s, s', c) then 1 else 0
  {
    assert Placed(s, c);
    BeginOutcome(p, s, c);
  }

  lemma SettlementOutcome(p: Policy, s: State, e: Event, c: nat)
    requires Inv(p, s) && Enabled(p, s, e) && (e == Succeed(c) || e == Fail(c))
    ensures var s' := Step(p, s, e);
            && InSlot(s', c) && !IsInvoking(s', c) && !IsFinished(s', c) && c in s'.slots.running
            && c !in s'.circuit.calls && |s'.circuit.settled| == |s.circuit.settled| + 1
            && Made(Outs(s', c)) == Made(Outs(s, c)) + 1
  {
    assert Placed(s, c);
    var o := if e.Succeed? then Succeeded else Failed;
    MadeSnoc(s.phases[c].outs, o);
    assert Outs(Step(p, s, e), c) == s.phases[c].outs + [o];
  }

  lemma SettlementCounts(kind: Kind, p: Policy, s: State, e: Event, c: nat)
    requires Inv(p, s) && Enabled(p, s, e) && (e == Succeed(c) || e == Fail(c))
    ensures var s' := Step(p, s, e);
            Expected(kind, s', c) == Expected(kind, s, c) + if Happens(kind, s, s', c) then 1 else 0
  {
    assert Placed(s, c);
    SettlementOutcome(p, s, e, c);
  }

  lemma WakeUpCounts(kind: Kind, p: Policy, s: State, c: nat)
    requires Inv(p, s) && Enabled(p, s, WakeUp(c))
    ensures var s' := Step(p, s, WakeUp(c));
            Expected(kind, s', c) == Expected(kind, s, c) && !Happens(kind, s, s', c)
  {
    assert Placed(s, c);
  }

  lemma StepCounts(kind: Kind, p: Policy, s: State, e: Event, c: nat)
    requires Inv(p, s)
    ensures Expected(kind, Step(p, s, e), c) == Expected(kind, s, c) + if Happens(kind, s, Step(p, s, e), c) then 1 else 0
  {
    if Enabled(p, s, e) {
      if e.Tick? || (!e.Resume? && e.call != c) {
        OtherCallCounts(kind, p, s, e, c);
      } else if e.Resume? {
        ResumptionCounts(kind, p, s, c);
      } else if e.Arrive? {
        ArrivalCounts(kind, p, s, c);
      } else if e.Leave? {
        DepartureCounts(kind, p, s, c);
      } else if e.Begin? {
        BeginCounts(kind, p, s, c);
      } else if e.WakeUp? {
        WakeUpCounts(kind, p, s, c);
      } else {
        SettlementCounts(kind, p, s, e, c);
      }
    }
  }

  lemma {:induction false} CountsAsExpected(kind: Kind, p: Policy, s: State, es: seq<Event>, c: nat)
    requires Inv(p, s) && Expected(kind, s, c) == 0
    ensures Times(kind, p, s, es, c) == Expected(kind, Exec(p, s, es), c)
  {
    if es != [] {
      var before := es[..|es| - 1];
      CountsAsExpected(kind, p, s, before, c);
      ReachableInv(p, s, before);
      StepCounts(kind, p, Exec(p, s, before), es[|es| - 1], c);
    }
  }

  lemma InitInv(p: Policy, s: State)
    requires Init(s)
    ensures Inv(p, s)
  {
    forall c
      ensures Placed(s, c)
    {}
  }

  lemma MadeWithinLimit(p: Policy, s: State, c: nat)
    requires Inv(p, s)
    ensures Made(Outs(s, c)) + (if IsInvoking(s, c) then 1 else 0) <= Allowed(p)
  {
    assert Placed(s, c);
    if c in s.phases {
      assert PhaseInv(p, s.phases[c]);
    }
  }

  /**
    One call, in any run with any others: `fn` is called at most as often as attempts are
    allowed; the breaker has settled once for every invocation but the one running now; the
    slot was granted at most once, from the queue or at once, and was given back once unless
    the call still has it.
   */
  lemma CallAccount(p: Policy, s: State, es: seq<Event>, c: nat)
    requires Init(s)
    ensures var end := Exec(p, s, es);
            && Times(Invocation, p, s, es, c) <= Allowed(p)
            && Times(Settlement, p, s, es, c) + (if IsInvoking(end, c) then 1 else 0) == Times(Invocation, p, s, es, c)
            && Times(Release, p, s, es, c) + (if c in end.slots.running then 1 else 0) == Times(Grant, p, s, es, c) <= 1
  {
    InitInv(p, s);
    ReachableInv(p, s, es);
    var end := Exec(p, s, es);
    CountsAsExpected(Invocation, p, s, es, c);
    CountsAsExpected(Settlement, p, s, es, c);
    CountsAsExpected(Grant, p, s, es, c);
    CountsAsExpected(Release, p, s, es, c);
    assert Placed(end, c);
    MadeWithinLimit(p, end, c);
  }

  /** The breaker settles nothing but calls: whatever a step adds to its record is the settlement of one of them. */
  lemma EverySettlementHasACall(p: Policy, s: State, e: Event)
    requires Inv(p, s)
    ensures |Step(p, s, e).circuit.settled| == |s.circuit.settled| ||
            (|Step(p, s, e).circuit.settled| == |s.circuit.settled| + 1 && exists c :: Happens(Settlement, s, Step(p, s, e), c))
  {
    if Enabled(p, s, e) && (e.Succeed? || e.Fail?) {
      assert Placed(s, e.call);
      assert Happens(Settlement, s, Step(p, s, e), e.call);
    }
  }

  // ---- The end of the loop ----

  /** The call is out of its retry loop. */
  predicate IsOver(s: State, c: nat) {
    (c in s.phases && s.phases[c].Ending?) || c in s.fates
  }

  lemma StepKeepsOver(p: Policy, s: State, e: Event, c: nat)
    requires Inv(p, s) && IsOver(s, c)
    ensures IsOver(Step(p, s, e), c) && !IsInvoking(Step(p, s, e), c)
  {
    assert Placed(s, c);
    if Enabled(p, s, e) {
      if e.Resume? {
        assert s.slots.woken[0] in s.slots.woken && Placed(s, s.slots.woken[0]);
      } else if e.Leave? && s.slots.waiters != [] {
        assert s.slots.waiters[0] in s.slots.waiters && Placed(s, s.slots.waiters[0]);
      }
      StepKeepsInv(p, s, e);
      assert Placed(Step(p, s, e), c);
    }
  }

  lemma {:induction false} NoneWhenOver(p: Policy, s: State, es: seq<Event>, more: seq<Event>, c: nat)
    requires Inv(p, s) && IsOver(Exec(p, s, es), c)
    ensures IsOver(Exec(p, s, es + more), c)
    ensures Times(Invocation, p, s, es + more, c) == Times(Invocation, p, s, es, c)
  {
    if more == [] {
      assert es + more == es;
    } else {
      var front := more[..|more| - 1];
      assert (es + more)[..|es + more| - 1] == es + front && (es + more)[|es + more| - 1] == more[|more| - 1];
      NoneWhenOver(p, s, es, front, c);
      ReachableInv(p, s, es + front);
      StepKeepsOver(p, Exec(p, s, es + front), more[|more| - 1], c);
    }
  }

  /** The breaker is HALF_OPEN, or OPEN for less than the reset timeout. */
  predicate Shut(p: Policy, s: State) {
    s.circuit.breaker.state == Circuit.HALF_OPEN ||
    (s.circuit.breaker.state == Circuit.OPEN && s.circuit.now - s.circuit.breaker.openedAt < p.resetTimeoutMs)
  }

  /** The step ends the loop early: `fn` has succeeded, or the breaker is shut for the attempt. */
  predicate EndsLoop(p: Policy, s: State, e: Event, c: nat) {
    Enabled(p, s, e) && (e == Succeed(c) || (e == Begin(c) && Shut(p, s)))
  }

  /**
    An attempt in any run calls `fn` if and only if attempts are left and the breaker is not
    shut; with a shut breaker it changes nothing at the breaker and ends the loop.
   */
  lemma AttemptCallsFnIff(p: Policy, s: State, es: seq<Event>, c: nat)
    requires Init(s) && Enabled(p, Exec(p, s, es), Begin(c))
    ensures var before := Exec(p, s, es); var after := Step(p, before, Begin(c));
            && (IsInvoking(after, c) <==> |before.phases[c].outs| < p.attempts && !Shut(p, before))
            && (!IsInvoking(after, c) ==> IsOver(after, c) && after.circuit == before.circuit)
  {
    InitInv(p, s);
    ReachableInv(p, s, es);
    assert Placed(Exec(p, s, es), c);
    if Shut(p, Exec(p, s, es)) {
      Circuit.Refused(p, Exec(p, s, es).circuit, c);
    } else {
      Circuit.Admitted(p, Exec(p, s, es).circuit, c);
    }
  }

  /** After a success, and after a refusal by the breaker, `fn` is never called again, whatever follows. */
  lemma NoneAfterEnd(p: Policy, s: State, es: seq<Event>, e: Event, more: seq<Event>, c: nat)
    requires Init(s) && EndsLoop(p, Exec(p, s, es), e, c)
    ensures Times(Invocation, p, s, es + [e] + more, c) == Times(Invocation, p, s, es, c)
  {
    InitInv(p, s);
    ReachableInv(p, s, es);
    ExecSnoc(p, s, es, e);
    assert (es + [e])[..|es|] == es;
    assert Placed(Exec(p, s, es), c);
    assert IsOver(Exec(p, s, es + [e]), c) && !IsInvoking(Exec(p, s, es + [e]), c);
    NoneWhenOver(p, s, es + [e], more, c);
  }

  /** The outcomes as the retry loop would meet them. */
  function ScriptOf(outs: seq<Outcome>): Script {
    (k: nat) =>
      if 1 <= k <= |outs| then
        match outs[k - 1]
        case Succeeded => Success(0)
        case Failed => Failure(true, 0)
        case Refused => Failure(false, 0)
      else Failure(true, 0)
  }

  /** A call that has left made exactly the attempts that `WithRetry` makes of the same outcomes. */
  lemma AttemptsAsInRetry(p: Policy, s: State, es: seq<Event>, c: nat, n: nat)
    requires Init(s) && IsFinished(Exec(p, s, es), c)
    ensures var outs := Exec(p, s, es).fates[c].outs; EndsAt(ScriptOf(outs), p, n) <==> n == |outs|
  {
    InitInv(p, s);
    ReachableInv(p, s, es);
    var outs := Exec(p, s, es).fates[c].outs;
    assert LoopEnds(p, outs);
    forall k | 1 <= k < |outs|
      ensures GoesOn(ScriptOf(outs)(k))
    {
      assert outs[k - 1] == outs[..|outs| - 1][k - 1];
    }
    assert EndsAt(ScriptOf(outs), p, |outs|);
    if EndsAt(ScriptOf(outs), p, n) {
      EndIsUnique(ScriptOf(outs), p, n, |outs|);
    }
  }

  /** When no call is under way, every slot is free and the breaker waits for nothing. */
  lemma QuietMeansFree(p: Policy, s: State, es: seq<Event>)
    requires Init(s) && Exec(p, s, es).phases == map[]
    ensures var end := Exec(p, s, es);
            end.slots.active == 0 && end.slots.waiters == [] && end.slots.woken == [] && end.circuit.calls == map[]
  {
    InitInv(p, s);
    ReachableInv(p, s, es);
    var end := Exec(p, s, es);
    forall c
      ensures c !in end.slots.running && c !in end.slots.waiters && c !in end.slots.woken && c !in end.circuit.calls
    {
      assert Placed(end, c);
    }
    assert end.slots.running == {};
    if end.slots.waiters != [] {
      HasMember(end.slots.waiters);
    }
    if end.slots.woken != [] {
      HasMember(end.slots.woken);
    }
  }

  lemma HasMember(q: seq<nat>)
    requires q != []
    ensures exists c :: c in q
  {
    assert q[0] in q;
  }

  // ---- Every slot comes back ----

  lemma {:induction false} ExecCons(p: Policy, s: State, e: Event, es: seq<Event>)
    ensures Exec(p, s, [e] + es) == Exec(p, Step(p, s, e), es)
  {
    if es == [] {
      assert [e] + es == [e] && [e][..0] == [];
    } else {
      assert ([e] + es)[..|es|] == [e] + es[..|es| - 1];
      ExecCons(p, s, e, es[..|es| - 1]);
    }
  }

  lemma EndingLeaves(p: Policy, s: State, c: nat) returns (more: seq<Event>)
    requires c in s.phases && s.phases[c].Ending?
    ensures IsFinished(Exec(p, s, more), c)
  {
    more := [Leave(c)];
    assert more[..0] == [];
    assert IsFinished(Step(p, s, Leave(c)), c);
  }

  lemma InvokingLeaves(p: Policy, s: State, c: nat) returns (more: seq<Event>)
    requires IsInvoking(s, c)
    ensures IsFinished(Exec(p, s, more), c)
  {
    more := EndingLeaves(p, Step(p, s, Succeed(c)), c);
    ExecCons(p, s, Succeed(c), more);
    more := [Succeed(c)] + more;
  }

  lemma ReadyLeaves(p: Policy, s: State, c: nat) returns (more: seq<Event>)
    requires c in s.phases && s.phases[c].Ready?
    ensures IsFinished(Exec(p, s, more), c)
  {
    var s' := Step(p, s, Begin(c));
    if s'.phases[c].Invoking? {
      more := InvokingLeaves(p, s', c);
    } else {
      more := EndingLeaves(p, s', c);
    }
    ExecCons(p, s, Begin(c), more);
    more := [Begin(c)] + more;
  }

  lemma PausingLeaves(p: Policy, s: State, c: nat) returns (more: seq<Event>)
    requires Inv(p, s) && c in s.phases && s.phases[c].Pausing? && s.phases[c].since <= s.circuit.now
    ensures IsFinished(Exec(p, s, more), c)
  {
    assert PhaseInv(p, s.phases[c]);
    var ms := Delay(p, |s.phases[c].outs|);
    var later := Step(p, s, Tick(ms));
    var ready := Step(p, later, WakeUp(c));
    more := ReadyLeaves(p, ready, c);
    ExecCons(p, later, WakeUp(c), more);
    more := [WakeUp(c)] + more;
    ExecCons(p, s, Tick(ms), more);
    more := [Tick(ms)] + more;
  }

  ghost predicate PausesBegan(s: State) {
    forall c :: c in s.phases && s.phases[c].Pausing? ==> s.phases[c].since <= s.circuit.now
  }

  lemma {:induction false} PausesHaveBegun(p: Policy, s: State, es: seq<Event>)
    requires Init(s)
    ensures PausesBegan(Exec(p, s, es))
  {
    if es != [] {
      PausesHaveBegun(p, s, es[..|es| - 1]);
    }
  }

  /** No slot is lost: in whatever state a run leaves a call that has one, the call can go on to give it back. */
  lemma SlotCanComeBack(p: Policy, s: State, es: seq<Event>, c: nat)
    requires Init(s) && c in Exec(p, s, es).slots.running
    ensures exists more :: IsFinished(Exec(p, Exec(p, s, es), more), c)
  {
    InitInv(p, s);
    ReachableInv(p, s, es);
    PausesHaveBegun(p, s, es);
    var end := Exec(p, s, es);
    assert Placed(end, c);
    var more: seq<Event>;
    match end.phases[c] {
      case Ready(_, _) => more := ReadyLeaves(p, end, c);
      case Invoking(_, _, _) => more := InvokingLeaves(p, end, c);
      case Pausing(_, _, _) => more := PausingLeaves(p, end, c);
      case Ending(_, _) => more := EndingLeaves(p, end, c);
    }
  }

  // ---- Pauses ----

  predicate PausesSince(s: State, c: nat, outs: seq<Outcome>, since: int) {
    c in s.phases && s.phases[c].Pausing? && s.phases[c].outs == outs && s.phases[c].since == since
  }

  lemma TimeGoesOn(p: Policy, s: State, e: Event)
    ensures s.circuit.now <= Step(p, s, e).circuit.now
  {}

  lemma StepKeepsPause(p: Policy, s: State, e: Event, c: nat, outs: seq<Outcome>, since: int)
    requires Inv(p, s) && PausesSince(s, c, outs, since) && outs != []
    ensures PausesSince(Step(p, s, e), c, outs, since) || since + Delay(p, |outs|) <= s.circuit.now
  {
    assert Placed(s, c);
    if Enabled(p, s, e) {
      if e.Resume? {
        HeadOf(s.slots.woken, c);
      } else if e.Leave? && s.slots.waiters != [] {
        HeadOf(s.slots.waiters, c);
      }
    }
  }

  /**
    No attempt comes too early: however a run goes on from a pause after the `k`-th failed
    attempt, the call is in that pause until the delay of that attempt has passed.
   */
  lemma {:induction false} PauseLasts(p: Policy, s: State, es: seq<Event>, more: seq<Event>, c: nat)
    requires Init(s) && c in Exec(p, s, es).phases && Exec(p, s, es).phases[c].Pausing?
    ensures var outs, since := Exec(p, s, es).phases[c].outs, Exec(p, s, es).phases[c].since;
            outs != [] &&
            (PausesSince(Exec(p, s, es + more), c, outs, since) || since + Delay(p, |outs|) <= Exec(p, s, es + more).circuit.now)
  {
    InitInv(p, s);
    ReachableInv(p, s, es);
    assert PhaseInv(p, Exec(p, s, es).phases[c]);
    if more == [] {
      assert es + more == es;
    } else {
      var front, e := more[..|more| - 1], more[|more| - 1];
      assert (es + more)[..|es + more| - 1] == es + front && (es + more)[|es + more| - 1] == e;
      PauseLasts(p, s, es, front, c);
      ReachableInv(p, s, es + front);
      var outs, since := Exec(p, s, es).phases[c].outs, Exec(p, s, es).phases[c].since;
      var s' := Exec(p, s, es + front);
      TimeGoesOn(p, s', e);
      if PausesSince(s', c, outs, since) {
        StepKeepsPause(p, s', e, c, outs, since);
      }
    }
  }

  /** After a failure that is not the last, the next attempt begins no earlier than its delay; after the last there is none. */
  lemma FailureIsFollowed(p: Policy, s: State, es: seq<Event>, more: seq<Event>, c: nat)
    requires Init(s) && Enabled(p, Exec(p, s, es), Fail(c))
    ensures var before := Exec(p, s, es); var k := |before.phases[c].outs| + 1; var end := Exec(p, s, es + [Fail(c)] + more);
            && k <= Allowed(p)
            && (k == Allowed(p) ==> IsOver(end, c))
            && (k < Allowed(p) ==> (c in end.phases && end.phases[c].Pausing?) || before.circuit.now + Delay(p, k) <= end.circuit.now)
  {
    InitInv(p, s);
    ReachableInv(p, s, es);
    ExecSnoc(p, s, es, Fail(c));
    assert PhaseInv(p, Exec(p, s, es).phases[c]);
    var failed := Exec(p, s, es + [Fail(c)]);
    if failed.phases[c].Pausing? {
      PauseLasts(p, s, es + [Fail(c)], more, c);
    } else {
      NoneWhenOver(p, s, es + [Fail(c)], more, c);
    }
  }

  // ---- Time ----

  /** Time does not pass over the end of a timeout or a pause, nor while a call is between two steps. */
  ghost predicate MayPass(p: Policy, s: State, ms: nat) {
    forall c :: c in s.phases ==>
      match s.phases[c]
      case Ready(_, _) => ms == 0
      case Ending(_, _) => ms == 0
      case Invoking(_, since, _) => s.circuit.now + ms <= since + p.timeoutMs
      case Pausing(outs, since, _) => outs != [] && s.circuit.now + ms <= since + Delay(p, |outs|)
      case _ => true
  }

  /** A run in which aborts are honoured at the timeout and pauses end when they should. */
  ghost predicate Punctual(p: Policy, s: State, es: seq<Event>) {
    es == [] ||
    (Punctual(p, s, es[..|es| - 1]) && (es[|es| - 1].Tick? ==> MayPass(p, Exec(p, s, es[..|es| - 1]), es[|es| - 1].ms)))
  }

  /** The time that `k` failed attempts and the pauses after them take at most. */
  function Spent(p: Policy, k: nat): nat {
    if k == 0 then 0 else Spent(p, k - 1) + p.timeoutMs + Delay(p, k)
  }

  /** The time a slot is held at most: attempts times timeout, and the pauses between. */
  function SlotBound(p: Policy): nat {
    LoopBound(p, p.timeoutMs)
  }

  lemma {:induction false} SpentIsSum(p: Policy, k: nat)
    ensures Spent(p, k) == k * p.timeoutMs + DelaysUpTo(p, k)
  {
    if k > 0 {
      SpentIsSum(p, k - 1);
      assert k * p.timeoutMs == (k - 1) * p.timeoutMs + p.timeoutMs;
    }
  }

  lemma {:induction false} SpentGrows(p: Policy, k: nat, n: nat)
    requires k <= n
    ensures Spent(p, k) <= Spent(p, n)
  {
    if k < n {
      SpentGrows(p, k, n - 1);
    }
  }

  lemma BoundIsSpent(p: Policy)
    requires p.attempts >= 1
    ensures SlotBound(p) == Spent(p, p.attempts - 1) + p.timeoutMs
  {
    var n := p.attempts - 1;
    SpentIsSum(p, n);
    assert p.attempts * p.timeoutMs == n * p.timeoutMs + p.timeoutMs;
  }

  lemma SpentWithinBound(p: Policy, k: nat)
    requires k < p.attempts
    ensures Spent(p, k) + p.timeoutMs <= SlotBound(p)
  {
    SpentGrows(p, k, p.attempts - 1);
    BoundIsSpent(p);
  }

  /** Every call is on schedule, counted from the grant of its slot. */
  ghost predicate OnTime(p: Policy, ph: Phase, now: int) {
    match ph
    case Queued => true
    case Woken => true
    case Ready(outs, g) => now <= g + Spent(p, |outs|)
    case Invoking(outs, since, g) => since <= now <= since + p.timeoutMs && since <= g + Spent(p, |outs|)
    case Pausing(outs, since, g) =>
      outs != [] && since <= now <= since + Delay(p, |outs|) && since <= g + Spent(p, |outs| - 1) + p.timeoutMs
    case Ending(outs, g) => now <= g + SlotBound(p)
  }

  ghost predicate TimeInv(p: Policy, s: State) {
    forall c :: c in s.phases ==> OnTime(p, s.phases[c], s.circuit.now)
  }

  lemma TickKeepsTime(p: Policy, s: State, ms: nat)
    requires TimeInv(p, s) && MayPass(p, s, ms)
    ensures TimeInv(p, Step(p, s, Tick(ms)))
  {}

  lemma StepKeepsTime(p: Policy, s: State, e: Event)
    requires Inv(p, s) && TimeInv(p, s) && !e.Tick?
    ensures TimeInv(p, Step(p, s, e))
  {
    if Enabled(p, s, e) {
      var s' := Step(p, s, e);
      forall c | c in s'.phases
        ensures OnTime(p, s'.phases[c], s'.circuit.now)
      {
        if c in s.phases && s'.phases[c] != s.phases[c] {
          CallStaysOnTime(p, s, e, c);
        }
      }
    }
  }

  lemma BegunOnTime(p: Policy, ph: Phase, admitted: bool, now: int)
    requires ph.Ready? && PhaseInv(p, ph) && OnTime(p, ph, now)
    ensures OnTime(p, Begun(p, ph, admitted, now), now)
  {
    if |ph.outs| < p.attempts {
      SpentWithinBound(p, |ph.outs|);
    }
  }

  lemma SettledOnTime(p: Policy, ph: Phase, now: int)
    requires ph.Invoking? && PhaseInv(p, ph) && OnTime(p, ph, now)
    ensures OnTime(p, FailedOnce(p, ph, now), now) && OnTime(p, Ending(ph.outs + [Succeeded], ph.granted), now)
  {
    SpentWithinBound(p, |ph.outs|);
  }

  lemma WokenUpOnTime(p: Policy, ph: Phase, now: int)
    requires ph.Pausing? && OnTime(p, ph, now)
    ensures OnTime(p, Ready(ph.outs, ph.granted), now)
  {
    assert Spent(p, |ph.outs|) == Spent(p, |ph.outs| - 1) + p.timeoutMs + Delay(p, |ph.outs|);
  }

  lemma CallStaysOnTime(p: Policy, s: State, e: Event, c: nat)
    requires Inv(p, s) && TimeInv(p, s) && Enabled(p, s, e) && !e.Tick? && c in s.phases && c in Step(p, s, e).phases
    ensures OnTime(p, Step(p, s, e).phases[c], s.circuit.now)
  {
    var ph, now := s.phases[c], s.circuit.now;
    assert OnTime(p, ph, now) && PhaseInv(p, ph);
    if e == Begin(c) {
      BegunOnTime(p, ph, c in CircuitAfter(p, s, e).calls, now);
    } else if e == Succeed(c) || e == Fail(c) {
      SettledOnTime(p, ph, now);
    } else if e == WakeUp(c) {
      WokenUpOnTime(p, ph, now);
    }
  }

  lemma {:induction false} AlwaysOnTime(p: Policy, s: State, es: seq<Event>)
    requires Init(s) && Punctual(p, s, es)
    ensures TimeInv(p, Exec(p, s, es))
  {
    if es != [] {
      var before, e := es[..|es| - 1], es[|es| - 1];
      AlwaysOnTime(p, s, before);
      InitInv(p, s);
      ReachableInv(p, s, before);
      if e.Tick? {
        TickKeepsTime(p, Exec(p, s, before), e.ms);
      } else {
        StepKeepsTime(p, Exec(p, s, before), e);
      }
    }
  }

  function GrantedAt(s: State, c: nat): int
    requires InSlot(s, c)
  {
    s.phases[c].granted
  }

  lemma StepKeepsGrant(p: Policy, s: State, e: Event, c: nat)
    requires Inv(p, s) && InSlot(s, c)
    ensures if InSlot(Step(p, s, e), c) then GrantedAt(Step(p, s, e), c) == GrantedAt(s, c) else c in Step(p, s, e).fates
  {
    assert Placed(s, c);
    if Enabled(p, s, e) {
      if e.Resume? {
        assert s.slots.woken[0] in s.slots.woken && Placed(s, s.slots.woken[0]);
      } else if e.Leave? && s.slots.waiters != [] {
        assert s.slots.waiters[0] in s.slots.waiters && Placed(s, s.slots.waiters[0]);
      }
    }
  }

  lemma {:induction false} GrantLasts(p: Policy, s: State, es: seq<Event>, more: seq<Event>, c: nat)
    requires Inv(p, s) && InSlot(Exec(p, s, es), c)
    ensures var end := Exec(p, s, es + more);
            if InSlot(end, c) then GrantedAt(end, c) == GrantedAt(Exec(p, s, es), c) else c in end.fates
  {
    if more == [] {
      assert es + more == es;
    } else {
      var front, e := more[..|more| - 1], more[|more| - 1];
      assert (es + more)[..|es + more| - 1] == es + front && (es + more)[|es + more| - 1] == e;
      GrantLasts(p, s, es, front, c);
      ReachableInv(p, s, es + front);
      var s' := Exec(p, s, es + front);
      if InSlot(s', c) {
        StepKeepsGrant(p, s', e, c);
      } else {
        StepKeepsOver(p, s', e, c);
        StepKeepsInv(p, s', e);
        assert Placed(Step(p, s', e), c);
        FatesLast(p, s', e, c);
      }
    }
  }

  lemma FatesLast(p: Policy, s: State, e: Event, c: nat)
    requires Inv(p, s) && c in s.fates
    ensures c in Step(p, s, e).fates && !InSlot(Step(p, s, e), c)
  {
    assert Placed(s, c);
    StepKeepsInv(p, s, e);
    assert Placed(Step(p, s, e), c);
  }

  lemma GrantIsNow(p: Policy, s: State, e: Event, c: nat)
    requires Inv(p, s) && c !in s.slots.running && c in Step(p, s, e).slots.running
    ensures InSlot(Step(p, s, e), c) && GrantedAt(Step(p, s, e), c) == s.circuit.now == Step(p, s, e).circuit.now
  {
    assert Placed(s, c);
    StepKeepsInv(p, s, e);
    assert Placed(Step(p, s, e), c);
  }

  /**
    In every run in which aborts are honoured, a call that got its slot at the step `e`, at
    once or from the queue, and still has it, got it no longer ago than the bound.
   */
  lemma HeldAtMost(p: Policy, s: State, es: seq<Event>, e: Event, more: seq<Event>, c: nat)
    requires Init(s) && Punctual(p, s, es + [e] + more)
    requires c !in Exec(p, s, es).slots.running && c in Exec(p, s, es + [e]).slots.running
    requires c in Exec(p, s, es + [e] + more).slots.running
    ensures Exec(p, s, es + [e] + more).circuit.now <= Exec(p, s, es + [e]).circuit.now + SlotBound(p)
  {
    InitInv(p, s);
    ReachableInv(p, s, es);
    ExecSnoc(p, s, es, e);
    GrantIsNow(p, Exec(p, s, es), e, c);
    GrantLasts(p, s, es + [e], more, c);
    AlwaysOnTime(p, s, es + [e] + more);
    ReachableInv(p, s, es + [e] + more);
    var end := Exec(p, s, es + [e] + more);
    assert Placed(end, c);
    OnTimeInSlot(p, end.phases[c], end.circuit.now);
  }

  lemma OnTimeInSlot(p: Policy, ph: Phase, now: int)
    requires OnTime(p, ph, now) && PhaseInv(p, ph) && !ph.Queued? && !ph.Woken?
    ensures now <= ph.granted + SlotBound(p)
  {
    if (ph.Ready? || ph.Invoking?) && |ph.outs| < p.attempts {
      SpentWithinBound(p, |ph.outs|);
    } else if ph.Pausing? {
      SpentWithinBound(p, |ph.outs|);
    }
  }

  /**
    Of all the attempts of all calls since the breaker was opened last, none has called `fn`
    while it is OPEN, exactly one has while it is HALF_OPEN, and at most one did before it
    closed again.
   */
  lemma OneAttemptWhileNotClosed(p: Policy, s: State, es: seq<Event>)
    requires Init(s)
    ensures var state, n := Exec(p, s, es).circuit.breaker.state, Circuit.SinceOpened(p, s.circuit, CircuitRun(p, s, es));
            && (state == Circuit.OPEN ==> n == 0) && (state == Circuit.HALF_OPEN ==> n == 1) && n <= 1
  {
    RunsTheCircuit(p, s, es);
    Circuit.OneLetThrough(p, s.circuit, CircuitRun(p, s, es));
  }

  /** With a timeout below the reset timeout, as in every preset, one probe at a time is what such runs give. */
  lemma OneProbeAtATime(p: Policy, s: State, es: seq<Event>, c: nat, d: nat)
    requires Init(s) && Punctual(p, s, es) && p.timeoutMs < p.resetTimeoutMs
    requires Circuit.ProbeInFlight(Exec(p, s, es).circuit, c) && Circuit.ProbeInFlight(Exec(p, s, es).circuit, d)
    ensures c == d
  {
    InitInv(p, s);
    ReachableInv(p, s, es);
    AlwaysOnTime(p, s, es);
    RunsTheCircuit(p, s, es);
    var end := Exec(p, s, es);
    forall k | k in end.circuit.calls
      ensures end.circuit.now < end.circuit.calls[k].startedAt + p.resetTimeoutMs
    {
      assert Placed(end, k);
      assert OnTime(p, end.phases[k], end.circuit.now);
    }
    Circuit.AtMostOneProbe(p, s.circuit, CircuitRun(p, s, es), c, d);
  }

  lemma PresetSlotBounds()
    ensures SlotBound(NOTIFICATION_PROVIDER_POLICY) == 15900
    ensures SlotBound(PAYMENT_PROVIDER_POLICY) == 20500
    ensures SlotBound(WEBHOOK_DELIVERY_POLICY) == 10000
  {
    assert Pow2(0) == 1 && Pow2(1) == 2;
    var n, m := NOTIFICATION_PROVIDER_POLICY, PAYMENT_PROVIDER_POLICY;
    assert Delay(n, 1) == 300 && Delay(n, 2) == 600 && Delay(m, 1) == 500;
    assert DelaysUpTo(n, 0) == 0 && DelaysUpTo(n, 1) == 300 && DelaysUpTo(n, 2) == 900;
    assert DelaysUpTo(m, 0) == 0 && DelaysUpTo(m, 1) == 500;
  }

  // ---- The bound on the slot is met ----

  function Fails(k: nat): (outs: seq<Outcome>)
    ensures |outs| == k
  {
    if k == 0 then [] else Fails(k - 1) + [Failed]
  }

  /** Call 0, alone since `start`, has failed `k` times and hangs in its next attempt since `now`. */
  function Hanging(start: int, now: int, k: nat, prober: nat): State {
    State(Slots.State(1, [], [], {0}, [], [], 0),
          Circuit.State(now, Circuit.Breaker(Circuit.CLOSED, k, 0), map[0 := Circuit.Call(now, false)],
                        Circuit.Failures(k), [], prober),
          map[0 := Invoking(Fails(k), now, start)], map[])
  }

  /** `k` attempts hang until the abort, and each time the next one begins after the pause. */
  function HangingRun(p: Policy, k: nat): seq<Event> {
    if k == 0 then [Arrive(0)] + [Begin(0)]
    else HangingRun(p, k - 1) + [Tick(p.timeoutMs)] + [Fail(0)] + [Tick(Delay(p, k))] + [WakeUp(0)] + [Begin(0)]
  }

  lemma PunctualSnoc(p: Policy, s: State, es: seq<Event>, e: Event)
    requires Punctual(p, s, es) && (e.Tick? ==> MayPass(p, Exec(p, s, es), e.ms))
    ensures Punctual(p, s, es + [e]) && Exec(p, s, es + [e]) == Step(p, Exec(p, s, es), e)
  {
    ExecSnoc(p, s, es, e);
    assert (es + [e])[..|es|] == es;
  }

  lemma HangStarts(p: Policy, s: State)
    requires Init(s) && p.attempts >= 1 && p.maxConcurrent >= 1
    ensures Step(p, Step(p, s, Arrive(0)), Begin(0)) == Hanging(s.circuit.now, s.circuit.now, 0, s.circuit.prober)
  {}

  /** The same, between the failure and the end of the pause. */
  function Resting(p: Policy, start: int, failedAt: int, now: int, k: nat, prober: nat): State
    requires k >= 1
  {
    State(Slots.State(1, [], [], {0}, [], [], 0),
          Circuit.State(now, Circuit.Breaker(Circuit.CLOSED, k, 0), map[], Circuit.Failures(k), [], prober),
          map[0 := Pausing(Fails(k), failedAt, start)], map[])
  }

  lemma HangFails(p: Policy, start: int, now: int, k: nat, prober: nat)
    requires k + 1 < p.attempts <= p.failureThreshold
    ensures var late := Step(p, Hanging(start, now, k, prober), Tick(p.timeoutMs));
            Step(p, late, Fail(0)) == Resting(p, start, now + p.timeoutMs, now + p.timeoutMs, k + 1, prober)
  {
    var late := Step(p, Hanging(start, now, k, prober), Tick(p.timeoutMs));
    assert late.circuit.calls - {0} == map[];
    assert Circuit.Failures(k) + [false] == Circuit.Failures(k + 1);
    assert Fails(k) + [Failed] == Fails(k + 1);
    assert Step(p, late, Fail(0)).phases == map[0 := Pausing(Fails(k + 1), now + p.timeoutMs, start)];
  }

  lemma RestEnds(p: Policy, start: int, now: int, k: nat, prober: nat)
    requires 1 <= k < p.attempts <= p.failureThreshold
    ensures var rested := Step(p, Resting(p, start, now, now, k, prober), Tick(Delay(p, k)));
            Step(p, Step(p, rested, WakeUp(0)), Begin(0)) == Hanging(start, now + Delay(p, k), k, prober)
  {
    var rested := Step(p, Resting(p, start, now, now, k, prober), Tick(Delay(p, k)));
    assert rested == Resting(p, start, now, now + Delay(p, k), k, prober);
    var ready := rested.(phases := map[0 := Ready(Fails(k), start)]);
    assert Step(p, rested, WakeUp(0)) == ready;
    var begun := Step(p, ready, Begin(0));
    assert begun.circuit.calls == map[0 := Circuit.Call(now + Delay(p, k), false)];
    assert begun.phases == map[0 := Invoking(Fails(k), now + Delay(p, k), start)];
  }

  lemma RunsIntoRest(p: Policy, s: State, es: seq<Event>, start: int, now: int, k: nat, prober: nat)
    requires Punctual(p, s, es) && Exec(p, s, es) == Hanging(start, now, k, prober) && k + 1 < p.attempts <= p.failureThreshold
    ensures var more := es + [Tick(p.timeoutMs)] + [Fail(0)];
            && Punctual(p, s, more)
            && Exec(p, s, more) == Resting(p, start, now + p.timeoutMs, now + p.timeoutMs, k + 1, prober)
  {
    HangFails(p, start, now, k, prober);
    PunctualSnoc(p, s, es, Tick(p.timeoutMs));
    PunctualSnoc(p, s, es + [Tick(p.timeoutMs)], Fail(0));
  }

  lemma RunsOnAfterRest(p: Policy, s: State, es: seq<Event>, start: int, now: int, k: nat, prober: nat, resumed: int)
    requires 1 <= k < p.attempts <= p.failureThreshold && resumed == now + Delay(p, k)
    requires Punctual(p, s, es) && Exec(p, s, es) == Resting(p, start, now, now, k, prober)
    ensures var more := es + [Tick(Delay(p, k))] + [WakeUp(0)] + [Begin(0)];
            Punctual(p, s, more) && Exec(p, s, more) == Hanging(start, resumed, k, prober)
  {
    RestEnds(p, start, now, k, prober);
    PunctualSnoc(p, s, es, Tick(Delay(p, k)));
    PunctualSnoc(p, s, es + [Tick(Delay(p, k))], WakeUp(0));
    PunctualSnoc(p, s, es + [Tick(Delay(p, k))] + [WakeUp(0)], Begin(0));
  }

  lemma HangingRunStarts(p: Policy, s: State)
    requires Init(s) && p.attempts >= 1 && p.maxConcurrent >= 1
    ensures Punctual(p, s, HangingRun(p, 0))
    ensures Exec(p, s, HangingRun(p, 0)) == Hanging(s.circuit.now, s.circuit.now, 0, s.circuit.prober)
  {
    HangStarts(p, s);
    assert [Arrive(0)][..0] == [];
    PunctualSnoc(p, s, [Arrive(0)], Begin(0));
  }

  /** The run leads to the hanging call with `k` failures behind it, and wastes no time. */
  ghost predicate HangsAfter(p: Policy, s: State, es: seq<Event>, k: nat) {
    && Punctual(p, s, es)
    && Exec(p, s, es) == Hanging(s.circuit.now, s.circuit.now + Spent(p, k), k, s.circuit.prober)
  }

  ghost predicate RestsAfter(p: Policy, s: State, es: seq<Event>, k: nat)
    requires k >= 1
  {
    var failedAt := s.circuit.now + Spent(p, k - 1) + p.timeoutMs;
    Punctual(p, s, es) && Exec(p, s, es) == Resting(p, s.circuit.now, failedAt, failedAt, k, s.circuit.prober)
  }

  lemma FailsOnceMore(p: Policy, s: State, es: seq<Event>, k: nat)
    requires HangsAfter(p, s, es, k) && k + 1 < p.attempts <= p.failureThreshold
    ensures RestsAfter(p, s, es + [Tick(p.timeoutMs)] + [Fail(0)], k + 1)
  {
    RunsIntoRest(p, s, es, s.circuit.now, s.circuit.now + Spent(p, k), k, s.circuit.prober);
  }

  lemma HangsOnceMore(p: Policy, s: State, es: seq<Event>, k: nat)
    requires 1 <= k < p.attempts <= p.failureThreshold && RestsAfter(p, s, es, k)
    ensures HangsAfter(p, s, es + [Tick(Delay(p, k))] + [WakeUp(0)] + [Begin(0)], k)
  {
    var failedAt := s.circuit.now + Spent(p, k - 1) + p.timeoutMs;
    RunsOnAfterRest(p, s, es, s.circuit.now, failedAt, k, s.circuit.prober, s.circuit.now + Spent(p, k));
  }

  lemma {:induction false} HangsOn(p: Policy, s: State, k: nat)
    requires Init(s) && k < p.attempts <= p.failureThreshold && p.maxConcurrent >= 1
    ensures HangsAfter(p, s, HangingRun(p, k), k)
  {
    if k == 0 {
      HangingRunStarts(p, s);
    } else {
      HangsOn(p, s, k - 1);
      FailsOnceMore(p, s, HangingRun(p, k - 1), k - 1);
      HangsOnceMore(p, s, HangingRun(p, k - 1) + [Tick(p.timeoutMs)] + [Fail(0)], k);
    }
  }

  lemma HangsToTheEnd(p: Policy, s: State, es: seq<Event>, k: nat)
    requires HangsAfter(p, s, es, k)
    ensures var more := es + [Tick(p.timeoutMs)];
            && Punctual(p, s, more) && 0 in Exec(p, s, more).slots.running
            && Exec(p, s, more).circuit.now == s.circuit.now + Spent(p, k) + p.timeoutMs
  {
    PunctualSnoc(p, s, es, Tick(p.timeoutMs));
  }

  /**
    The bound is met, for every policy whose breaker does not open within one call (as every
    preset): a call that gets its slot at once and hangs until each abort still holds the
    slot when the whole bound has passed.
   */
  lemma SlotBoundIsReached(p: Policy, s: State)
    requires Init(s) && 1 <= p.attempts <= p.failureThreshold && p.maxConcurrent >= 1
    ensures 0 in Step(p, s, Arrive(0)).slots.running
    ensures var es := HangingRun(p, p.attempts - 1) + [Tick(p.timeoutMs)];
            && Punctual(p, s, es) && 0 in Exec(p, s, es).slots.running
            && Exec(p, s, es).circuit.now == s.circuit.now + SlotBound(p)
  {
    ArrivalStarts(p, s);
    HangsOn(p, s, p.attempts - 1);
    HangsToTheEnd(p, s, HangingRun(p, p.attempts - 1), p.attempts - 1);
    BoundIsSpent(p);
  }

  lemma ArrivalStarts(p: Policy, s: State)
    requires Init(s) && p.maxConcurrent >= 1
    ensures 0 in Step(p, s, Arrive(0)).slots.running
  {}

  // ---- The call, between two awaited steps at a time ----

  /** One provider: its semaphore, its breaker in the table of all, and the calls under way. */
  class Provider {
    const key: string
    const policy: Policy
    const slots: Slots.Semaphore
    const breakers: Circuit.Breakers
    var now: int
    var phases: map<nat, Phase>
    ghost var fates: map<nat, Fate>
    ghost var calls: map<nat, Circuit.Call>
    ghost var settled: seq<bool>
    ghost var probes: seq<int>
    ghost var prober: nat

    ghost function View(): State
      reads this, slots, breakers
    {
      State(slots.View(), Circuit.State(now, breakers.Of(key), calls, settled, probes, prober), phases, fates)
    }

    ghost predicate Valid()
      reads this, slots, breakers
    {
      slots.policy == policy && Inv(policy, View())
    }

    constructor (key: string, policy: Policy, slots: Slots.Semaphore, breakers: Circuit.Breakers, now: int)
      requires slots.policy == policy && slots.View() == Slots.Idle && key !in breakers.breakers
      ensures this.key == key && this.policy == policy && this.slots == slots && this.breakers == breakers
      ensures Valid() && Init(View()) && this.now == now
    {
      this.key, this.policy, this.slots, this.breakers, this.now := key, policy, slots, breakers, now;
      phases, fates, calls, settled, probes, prober := map[], map[], map[], [], [], 0;
      new;
      InitInv(policy, View());
    }

    /** `withBulkhead` up to the slot, the queue or the refusal. */
    method Enter(call: nat)
      requires Valid() && call !in phases && call !in fates
      modifies this, slots
      ensures Valid() && View() == Step(policy, old(View()), Arrive(call))
      ensures old(slots.active) < policy.maxConcurrent ==>
                phases == old(phases)[call := Ready([], now)] && slots.active == old(slots.active) + 1
      ensures old(slots.active) >= policy.maxConcurrent && |old(slots.waiters)| < policy.maxQueue ==>
                phases == old(phases)[call := Phase.Queued] && slots.waiters == old(slots.waiters) + [call]
      ensures old(slots.active) >= policy.maxConcurrent && |old(slots.waiters)| >= policy.maxQueue ==>
                phases == old(phases) && call in fates && fates[call] == Rejected
    {
      assert Placed(View(), call);
      StepKeepsInv(policy, View(), Arrive(call));
      var entry := slots.Enter(call);
      match entry {
        case Started => phases := phases[call := Ready([], now)];
        case Queued => phases := phases[call := Phase.Queued];
        case Refused => fates := fates[call := Rejected];
      }
    }

    /** The wait for a slot is over. */
    method Continue(call: nat)
      requires Valid() && slots.woken != [] && slots.woken[0] == call
      modifies this, slots
      ensures Valid() && View() == Step(policy, old(View()), Resume)
      ensures phases == old(phases)[call := Ready([], now)] && slots.active == old(slots.active) + 1
    {
      StepKeepsInv(policy, View(), Resume);
      slots.Continue();
      phases := phases[call := Ready([], now)];
    }

    /** The head of the retry loop, and `withCircuitBreaker` up to the call of `fn`; false if `fn` is not called. */
    method BeginAttempt(call: nat) returns (invoked: bool)
      requires Valid() && call in phases && phases[call].Ready?
      modifies this, breakers
      ensures Valid() && View() == Step(policy, old(View()), Begin(call))
      ensures var outs, b := old(phases)[call].outs, old(breakers.Of(key));
              && (invoked <==> |outs| < policy.attempts
                               && (b.state == Circuit.CLOSED || (b.state == Circuit.OPEN && now - b.openedAt >= policy.resetTimeoutMs)))
              && (invoked ==> phases == old(phases)[call := Invoking(outs, now, old(phases)[call].granted)])
              && (!invoked ==> breakers.Of(key) == b)
              && (!invoked && |outs| < policy.attempts ==>
                    phases == old(phases)[call := Ending(outs + [Refused], old(phases)[call].granted)])
              && (|outs| >= policy.attempts ==> phases == old(phases)[call := Ending(outs, old(phases)[call].granted)])
    {
      assert Placed(View(), call);
      StepKeepsInv(policy, View(), Begin(call));
      var ph := phases[call];
      if |ph.outs| >= policy.attempts {
        phases := phases[call := Ending(ph.outs, ph.granted)];
        return false;
      }
      ghost var probe := breakers.Of(key).state != Circuit.CLOSED;
      invoked := breakers.Enter(key, now, policy);
      if !invoked {
        phases := phases[call := Ending(ph.outs + [Refused], ph.granted)];
        return;
      }
      calls := calls[call := Circuit.Call(now, probe)];
      if probe {
        probes, prober := probes + [now], call;
      }
      phases := phases[call := Invoking(ph.outs, now, ph.granted)];
    }

    method FnResolved(call: nat)
      requires Valid() && call in phases && phases[call].Invoking?
      modifies this, breakers
      ensures Valid() && View() == Step(policy, old(View()), Succeed(call))
      ensures phases == old(phases)[call := Ending(old(phases)[call].outs + [Succeeded], old(phases)[call].granted)]
      ensures breakers.Of(key).state == Circuit.CLOSED && breakers.Of(key).consecutiveFailures == 0
    {
      assert Placed(View(), call);
      StepKeepsInv(policy, View(), Succeed(call));
      breakers.Resolved(key);
      calls, settled := calls - {call}, settled + [true];
      phases := phases[call := Ending(phases[call].outs + [Succeeded], phases[call].granted)];
    }

    method FnRejected(call: nat)
      requires Valid() && call in phases && phases[call].Invoking?
      modifies this, breakers
      ensures Valid() && View() == Step(policy, old(View()), Fail(call))
      ensures var ph := old(phases)[call];
              phases == old(phases)[call := if |ph.outs| + 1 == policy.attempts then Ending(ph.outs + [Failed], ph.granted)
                                            else Pausing(ph.outs + [Failed], now, ph.granted)]
      ensures breakers.Of(key).consecutiveFailures == old(breakers.Of(key)).consecutiveFailures + 1
    {
      assert Placed(View(), call);
      StepKeepsInv(policy, View(), Fail(call));
      breakers.Rejected(key, now, policy);
      calls, settled := calls - {call}, settled + [false];
      var ph := phases[call];
      var isLastAttempt := |ph.outs| + 1 >= policy.attempts;
      phases := phases[call := if isLastAttempt then Ending(ph.outs + [Failed], ph.granted)
                               else Pausing(ph.outs + [Failed], now, ph.granted)];
    }

    method PauseOver(call: nat)
      requires Valid() && call in phases && phases[call].Pausing? && phases[call].outs != []
      requires now >= phases[call].since + Delay(policy, |phases[call].outs|)
      modifies this
      ensures Valid() && View() == Step(policy, old(View()), WakeUp(call))
      ensures phases == old(phases)[call := Ready(old(phases)[call].outs, old(phases)[call].granted)]
    {
      StepKeepsInv(policy, View(), WakeUp(call));
      phases := phases[call := Ready(phases[call].outs, phases[call].granted)];
    }

    /** The `finally` of `withBulkhead`. */
    method GiveBack(call: nat)
      requires Valid() && call in phases && phases[call].Ending?
      modifies this, slots
      ensures Valid() && View() == Step(policy, old(View()), Leave(call))
      ensures call !in phases && slots.active == old(slots.active) - 1
      ensures old(slots.waiters) != [] ==> slots.waiters == old(slots.waiters)[1..] && slots.woken == old(slots.woken) + [old(slots.waiters)[0]]
    {
      assert Placed(View(), call);
      StepKeepsInv(policy, View(), Leave(call));
      var waiting := slots.waiters;
      fates := fates[call := Finished(phases[call].outs)];
      slots.Leave(call);
      phases := phases - {call};
      if waiting != [] {
        phases := phases[waiting[0] := Woken];
      }
    }
  }
}
