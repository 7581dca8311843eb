/**
  The bulkhead of one provider: a semaphore with a bounded FIFO queue. A finishing call wakes
  the oldest waiter, but the woken call takes its slot only when it resumes, without looking
  at the count again; other calls may arrive in between.
 */
module Bulkhead {
  import opened Policies

  /**
    `woken` are the calls whose wait is over but which have not resumed. The rest only
    records: all calls ever queued and ever resumed, in order, and how many arrivals were
    admitted past a woken call.
   */
  datatype State = State(
    active: int,
    waiters: seq<nat>,
    woken: seq<nat>,
    running: set<nat>,
    queued: seq<nat>,
    resumed: seq<nat>,
    overtakes: nat)

  datatype Event = Arrive(call: nat) | Resume | Finish(call: nat)

  const Idle := State(0, [], [], {}, [], [], 0)

  predicate Known(s: State, c: nat) {
    c in s.running || c in s.waiters || c in s.woken
  }

  function Step(p: Policy, s: State, e: Event): State {
    match e
    case Arrive(c) =>
      if Known(s, c) then s
      else if s.active < p.maxConcurrent then
        s.(active := s.active + 1, running := s.running + {c},
           overtakes := if s.woken == [] then s.overtakes else s.overtakes + 1)
      else if |s.waiters| >= p.maxQueue then s
      else s.(waiters := s.waiters + [c], queued := s.queued + [c])
    case Resume =>
      if s.woken == [] then s
      else s.(active := s.active + 1, running := s.running + {s.woken[0]},
              woken := s.woken[1..], resumed := s.resumed + [s.woken[0]])
    case Finish(c) =>
      if c !in s.running then s
      else if s.waiters == [] then s.(active := s.active - 1, running := s.running - {c})
      else s.(active := s.active - 1, running := s.running - {c},
              waiters := s.waiters[1..], woken := s.woken + [s.waiters[0]])
  }

  function Exec(p: Policy, s: State, es: seq<Event>): State {
    if es == [] then s else Step(p, Exec(p, s, es[..|es| - 1]), es[|es| - 1])
  }

  function Max(a: int, b: int): int {
    if a < b then b else a
  }

  /** Slots taken or promised. */
  function Claimed(s: State): int {
    s.active + |s.woken|
  }

  /** No call is in two places or twice in one. */
  ghost predicate Apart(s: State) {
    && (forall c :: c in s.woken ==> c !in s.running && c !in s.waiters)
    && (forall c :: c in s.waiters ==> c !in s.running)
    && NoRepeat(s.woken) && NoRepeat(s.waiters)
  }

  ghost predicate NoRepeat(q: seq<nat>) {
    forall i, j :: 0 <= i < j < |q| ==> q[i] != q[j]
  }

  ghost predicate Ordered(s: State) {
    s.queued == s.resumed + s.woken + s.waiters
  }

  ghost predicate Inv(p: Policy, s: State) {
    && s.active == |s.running| && Apart(s) && Ordered(s)
    && (s.waiters != [] ==> p.maxConcurrent <= Claimed(s))
    && |s.waiters| <= Max(p.maxQueue, 0)
    && Claimed(s) <= Max(p.maxConcurrent, 0) + s.overtakes
  }

  lemma StepKeepsOrder(p: Policy, s: State, e: Event)
    requires Ordered(s)
    ensures Ordered(Step(p, s, e))
  {
    match e
    case Arrive(c) => assert s.resumed + s.woken + (s.waiters + [c]) == s.resumed + s.woken + s.waiters + [c];
    case Resume =>
      if s.woken != [] {
        assert s.resumed + s.woken == s.resumed + [s.woken[0]] + s.woken[1..];
      }
    case Finish(_) =>
      if s.waiters != [] {
        assert s.resumed + s.woken + s.waiters == s.resumed + (s.woken + [s.waiters[0]]) + s.waiters[1..];
      }
  }

  lemma StepKeepsApart(p: Policy, s: State, e: Event)
    requires Apart(s)
    ensures Apart(Step(p, s, e))
  {
    match e
    case Arrive(c) =>
    case Resume =>
      if s.woken != [] {
        assert forall c :: c in s.woken[1..] ==> c in s.woken && c != s.woken[0];
      }
    case Finish(_) =>
      if s.waiters != [] {
        assert s.waiters[0] in s.waiters;
        assert forall c :: c in s.waiters[1..] ==> c in s.waiters && c != s.waiters[0];
      }
  }

  lemma StepKeepsInv(p: Policy, s: State, e: Event)
    requires Inv(p, s)
    ensures Inv(p, Step(p, s, e))
  {
    StepKeepsOrder(p, s, e);
    StepKeepsApart(p, s, e);
    assert s.woken != [] ==> s.woken[0] in s.woken;
  }

  lemma {:induction false} AlwaysInv(p: Policy, s: State, es: seq<Event>)
    requires Inv(p, s)
    ensures Inv(p, Exec(p, s, es))
  {
    if es != [] {
      AlwaysInv(p, s, es[..|es| - 1]);
      StepKeepsInv(p, Exec(p, s, es[..|es| - 1]), es[|es| - 1]);
    }
  }

  /** No lost wake-up: while a call waits, every slot is taken or promised. */
  lemma NobodyWaitsForAFreeSlot(p: Policy, es: seq<Event>)
    ensures var s := Exec(p, Idle, es);
            && (s.waiters != [] ==> p.maxConcurrent <= Claimed(s))
            && (p.maxConcurrent >= 1 && s.running == {} && s.woken == [] ==> s.waiters == [])
  {
    AlwaysInv(p, Idle, es);
  }

  /** Calls leave the queue in the order they joined it, and it never exceeds its bound. */
  lemma QueueIsFifoAndBounded(p: Policy, es: seq<Event>)
    ensures var s := Exec(p, Idle, es);
            && s.resumed + s.woken + s.waiters == s.queued
            && |s.waiters| <= Max(p.maxQueue, 0)
  {
    AlwaysInv(p, Idle, es);
  }

  /** The limit holds up to the arrivals admitted while a woken call had not resumed. */
  lemma LimitUpToOvertakes(p: Policy, es: seq<Event>)
    ensures var s := Exec(p, Idle, es);
            && s.active == |s.running|
            && s.active <= Claimed(s) <= Max(p.maxConcurrent, 0) + s.overtakes
  {
    AlwaysInv(p, Idle, es);
  }

  ghost predicate WithinLimit(p: Policy, es: seq<Event>) {
    Exec(p, Idle, es).active <= Max(p.maxConcurrent, 0)
  }

  /** Without a queue no call is ever woken. */
  lemma {:induction false} NoQueueNoWaiters(p: Policy, es: seq<Event>)
    requires p.maxQueue <= 0 || p.maxConcurrent <= 0
    ensures var s := Exec(p, Idle, es);
            s.woken == [] && s.active <= Max(p.maxConcurrent, 0) && (p.maxQueue <= 0 ==> s.waiters == []) &&
            (p.maxConcurrent <= 0 ==> s.running == {} && s.active == 0)
  {
    if es != [] {
      NoQueueNoWaiters(p, es[..|es| - 1]);
    }
  }

  lemma ExecSnoc(p: Policy, s: State, es: seq<Event>, e: Event)
    ensures Exec(p, s, es + [e]) == Step(p, Exec(p, s, es), e)
  {
    assert (es + [e])[..|es|] == es;
  }

  /** The calls 0, 1, ... n-1 arriving one after the other. */
  function Arrivals(n: nat): seq<Event> {
    seq(n, i requires 0 <= i => Arrive(i))
  }

  function Upto(n: nat): (calls: set<nat>)
    ensures forall c: nat :: c in calls <==> c < n
  {
    if n == 0 then {} else Upto(n - 1) + {n - 1}
  }

  lemma {:induction false} Filled(p: Policy, n: nat)
    requires n <= p.maxConcurrent
    ensures Exec(p, Idle, Arrivals(n)) == State(n, [], [], Upto(n), [], [], 0)
  {
    if n > 0 {
      Filled(p, n - 1);
      assert Arrivals(n) == Arrivals(n - 1) + [Arrive(n - 1)];
      ExecSnoc(p, Idle, Arrivals(n - 1), Arrive(n - 1));
    }
  }

  /** `base`, `base + 2`, ...: the calls that went through the queue. */
  function Queuers(base: nat, n: nat): (q: seq<nat>)
    ensures |q| == n && forall c :: c in q ==> base <= c < base + 2 * n && c % 2 == base % 2
  {
    if n == 0 then [] else Queuers(base, n - 1) + [base + 2 * (n - 1)]
  }

  /** Call `c` queues, a running call ends and wakes it, and another call arrives before it resumes. */
  function Round(es: seq<Event>, c: nat): seq<Event>
    requires c >= 1
  {
    es + [Arrive(c)] + [Finish(c - 1)] + [Arrive(c + 1)]
  }

  /** All slots taken, and then `n` such rounds. */
  function PileUp(m: nat, n: nat): seq<Event>
    requires m >= 1
  {
    if n == 0 then Arrivals(m) else Round(PileUp(m, n - 1), m + 2 * (n - 1))
  }

  /** All slots taken still, and `n` woken calls each of which will take one more. */
  function Piled(m: nat, n: nat): State
    requires m >= 1
  {
    State(m, [], Queuers(m, n), Upto(m - 1) + {m + 2 * n - 1}, Queuers(m, n), [], n)
  }

  lemma PiledQueues(p: Policy, n: nat)
    requires p.maxConcurrent >= 1 && p.maxQueue >= 1
    ensures var m := p.maxConcurrent; var c := m + 2 * n;
            Step(p, Piled(m, n), Arrive(c)) == Piled(m, n).(waiters := [c], queued := Queuers(m, n) + [c])
  {}

  lemma PiledWakes(p: Policy, n: nat)
    requires p.maxConcurrent >= 1
    ensures var m := p.maxConcurrent; var c := m + 2 * n;
            Step(p, Piled(m, n).(waiters := [c], queued := Queuers(m, n) + [c]), Finish(c - 1))
              == State(m - 1, [], Queuers(m, n + 1), Upto(m - 1), Queuers(m, n + 1), [], n)
  {
    var m := p.maxConcurrent;
    assert (Upto(m - 1) + {m + 2 * n - 1}) - {m + 2 * n - 1} == Upto(m - 1);
  }

  lemma PiledAdmits(p: Policy, n: nat)
    requires p.maxConcurrent >= 1
    ensures var m := p.maxConcurrent; var c := m + 2 * n;
            Step(p, State(m - 1, [], Queuers(m, n + 1), Upto(m - 1), Queuers(m, n + 1), [], n), Arrive(c + 1)) == Piled(m, n + 1)
  {
    var m := p.maxConcurrent;
    assert m + 2 * n + 1 !in Queuers(m, n + 1);
  }

  ghost predicate PiledAfter(p: Policy, es: seq<Event>, n: nat)
    requires p.maxConcurrent >= 1
  {
    Exec(p, Idle, es) == Piled(p.maxConcurrent, n)
  }

  lemma PilesOnce(p: Policy, es: seq<Event>, n: nat)
    requires p.maxConcurrent >= 1 && p.maxQueue >= 1 && PiledAfter(p, es, n)
    ensures PiledAfter(p, Round(es, p.maxConcurrent + 2 * n), n + 1)
  {
    var c := p.maxConcurrent + 2 * n;
    PiledQueues(p, n);
    PiledWakes(p, n);
    PiledAdmits(p, n);
    ExecSnoc(p, Idle, es, Arrive(c));
    ExecSnoc(p, Idle, es + [Arrive(c)], Finish(c - 1));
    ExecSnoc(p, Idle, es + [Arrive(c)] + [Finish(c - 1)], Arrive(c + 1));
  }

  lemma NothingPiled(p: Policy)
    requires p.maxConcurrent >= 1
    ensures PiledAfter(p, Arrivals(p.maxConcurrent), 0)
  {
    var m := p.maxConcurrent;
    Filled(p, m);
    assert Upto(m - 1) + {m - 1} == Upto(m);
  }

  lemma {:induction false} PilesUp(p: Policy, n: nat)
    requires p.maxConcurrent >= 1 && p.maxQueue >= 1
    ensures PiledAfter(p, PileUp(p.maxConcurrent, n), n)
  {
    if n == 0 {
      NothingPiled(p);
    } else {
      PilesUp(p, n - 1);
      PilesOnce(p, PileUp(p.maxConcurrent, n - 1), n - 1);
    }
  }

  /** Then `k` of the woken calls resume. */
  function Overrun(m: nat, n: nat, k: nat): seq<Event>
    requires m >= 1
  {
    if k == 0 then PileUp(m, n) else Overrun(m, n, k - 1) + [Resume]
  }

  lemma {:induction false} WokenCallsResume(p: Policy, n: nat, k: nat)
    requires p.maxConcurrent >= 1 && p.maxQueue >= 1 && k <= n
    ensures var s := Exec(p, Idle, Overrun(p.maxConcurrent, n, k));
            s.active == p.maxConcurrent + k && |s.woken| == n - k
  {
    if k == 0 {
      PilesUp(p, n);
    } else {
      WokenCallsResume(p, n, k - 1);
      ExecSnoc(p, Idle, Overrun(p.maxConcurrent, n, k - 1), Resume);
    }
  }

  /** With a queue and a slot the overrun has no bound: for every `n` a run with `n` calls too many. */
  lemma OverrunExceedsLimit(p: Policy, n: nat)
    requires p.maxConcurrent >= 1 && p.maxQueue >= 1
    ensures var s := Exec(p, Idle, Overrun(p.maxConcurrent, n, n));
            s.active == |s.running| == p.maxConcurrent + n
  {
    WokenCallsResume(p, n, n);
    AlwaysInv(p, Idle, Overrun(p.maxConcurrent, n, n));
  }

  /**
    The documented limit holds over all runs exactly when nothing can be woken: when there is
    no queue, or no slot. With both, one arrival at the wrong moment exceeds it.
   */
  lemma LimitHoldsIffNoQueue(p: Policy)
    ensures (forall es :: WithinLimit(p, es)) <==> p.maxQueue <= 0 || p.maxConcurrent <= 0
  {
    if p.maxQueue <= 0 || p.maxConcurrent <= 0 {
      forall es
        ensures WithinLimit(p, es)
      {
        NoQueueNoWaiters(p, es);
      }
    } else {
      OverrunExceedsLimit(p, 1);
      assert !WithinLimit(p, Overrun(p.maxConcurrent, 1, 1));
    }
  }

  datatype Entry = Started | Queued | Refused

  /** The state of one key, updated in place; the fields after `waiters` are records. */
  class Semaphore {
    const policy: Policy
    var active: int
    var waiters: seq<nat>
    ghost var woken: seq<nat>
    ghost var running: set<nat>
    ghost var queued: seq<nat>
    ghost var resumed: seq<nat>
    ghost var overtakes: nat

    ghost function View(): State
      reads this
    {
      State(active, waiters, woken, running, queued, resumed, overtakes)
    }

    constructor (policy: Policy)
      ensures this.policy == policy && View() == Idle
    {
      this.policy := policy;
      active, waiters := 0, [];
      woken, running, queued, resumed, overtakes := [], {}, [], [], 0;
    }

    /** Up to the call of `fn` or the wait for a slot. */
    method Enter(call: nat) returns (entry: Entry)
      requires !Known(View(), call)
      modifies this
      ensures View() == Step(policy, old(View()), Arrive(call))
      ensures entry.Started? <==> old(active) < policy.maxConcurrent
      ensures entry.Refused? <==> old(active) >= policy.maxConcurrent && |old(waiters)| >= policy.maxQueue
      ensures active == old(active) + if entry.Started? then 1 else 0
      ensures waiters == old(waiters) + if entry.Queued? then [call] else []
    {
      if active >= policy.maxConcurrent {
        if |waiters| >= policy.maxQueue {
          return Refused;
        }
        waiters := waiters + [call];
        queued := queued + [call];
        return Queued;
      }
      active := active + 1;
      running := running + {call};
      if woken != [] {
        overtakes := overtakes + 1;
      }
      return Started;
    }

    /** The wait of the oldest woken call is over: it takes a slot. */
    method Continue()
      requires woken != []
      modifies this
      ensures View() == Step(policy, old(View()), Resume)
      ensures active == old(active) + 1 && waiters == old(waiters) && running == old(running) + {old(woken)[0]}
    {
      active := active + 1;
      running := running + {woken[0]};
      resumed := resumed + [woken[0]];
      woken := woken[1..];
    }

    /** The `finally` block. */
    method Leave(call: nat)
      requires call in running
      modifies this
      ensures View() == Step(policy, old(View()), Finish(call))
      ensures active == old(active) - 1 && running == old(running) - {call}
      ensures old(waiters) == [] ==> waiters == [] && woken == old(woken)
      ensures old(waiters) != [] ==> waiters == old(waiters)[1..] && woken == old(woken) + [old(waiters)[0]]
    {
      active := active - 1;
      running := running - {call};
      if waiters != [] {
        var next := waiters[0];
        waiters := waiters[1..];
        woken := woken + [next];
      }
    }
  }
}
