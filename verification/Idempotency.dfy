/**
  The idempotency middleware. A request reads the cache, then tries to take the key's lock,
  then runs the handler, whose successful JSON response is written to the cache; the lock is
  given back when the response is finished. The cache is not read again under the lock.

  Redis is up. One process sends its commands over one connection, so its cache write takes
  effect before its release of the lock; between sending and effect other requests may act.
 */
module Idempotency {
  import opened Common
  import Lock = DistributedLock

  const IDEMPOTENCY_CACHE_TTL_MS := 24 * 60 * 60 * 1000
  const LOCK_TTL_MS := 30_000

  datatype Response = Response(statusCode: int, body: string)

  /** `writer` records which run wrote the entry. */
  datatype Cached = Cached(response: Response, expiresAt: int, writer: nat)

  datatype Phase =
    | Missed(key: string, readStep: nat, readAt: int)   // read no entry, has to take the lock
    | Handling(key: string, run: nat)                   // handler running
    | Writing(key: string, run: nat, response: Response)  // cache write sent
    | Finishing(key: string, run: nat)                  // response out, lock to be given back

  datatype Write = Write(step: nat, at: int, response: Response)

  /** One run of the handler: which read led to it, and the cache write it made, if any. */
  datatype Run = Run(key: string, readStep: nat, readAt: int, write: Option<Write>)

  datatype Replay = Replay(key: string, response: Response, writer: nat, step: nat, at: int)

  /** `step` numbers the steps; `runs` and `replays` record what happened. */
  datatype State = State(
    lock: Lock.State,
    cache: map<string, Cached>,
    phases: map<nat, Phase>,
    step: nat,
    runs: seq<Run>,
    replays: seq<Replay>)

  datatype Event =
    | Tick(ms: nat)
    | Read(req: nat, key: string)
    | TryLock(req: nat, token: nat)
    | Answer(req: nat, response: Response)  // res.json in the handler
    | NoJson(req: nat)                      // the handler answers without res.json
    | Stored(req: nat)                      // the cache write takes effect
    | Finish(req: nat)
    | Crash(req: nat)

  predicate Hit(s: State, key: string) {
    key in s.cache && s.lock.now < s.cache[key].expiresAt
  }

  function LockName(key: string): string {
    "idempotency:" + key
  }

  function LockEvent(s: State, req: nat, token: nat): Lock.Event
    requires req in s.phases
  {
    Lock.Acquire(req, LockName(s.phases[req].key), token, LOCK_TTL_MS)
  }

  predicate Enabled(s: State, e: Event) {
    match e
    case Tick(_) => true
    case Read(r, _) => r !in s.phases && r !in s.lock.holders
    case TryLock(r, token) => r in s.phases && s.phases[r].Missed? && Lock.CanTry(s.lock, r, token, LOCK_TTL_MS)
    case Answer(r, _) => r in s.phases && s.phases[r].Handling?
    case NoJson(r) => r in s.phases && s.phases[r].Handling?
    case Stored(r) => r in s.phases && s.phases[r].Writing? && s.phases[r].run < |s.runs|
    case Finish(r) => r in s.phases && s.phases[r].Finishing?
    case Crash(r) => r in s.phases
  }

  /** What the enabled step does; the step counter is moved on by `Step`. */
  function Act(s: State, e: Event): State
    requires Enabled(s, e)
  {
    match e
    case Tick(ms) => s.(lock := Lock.Step(s.lock, Lock.Tick(ms)))
    case Read(r, key) =>
      if Hit(s, key) then
        s.(replays := s.replays + [Replay(key, s.cache[key].response, s.cache[key].writer, s.step, s.lock.now)])
      else
        s.(phases := s.phases[r := Missed(key, s.step, s.lock.now)])
    case TryLock(r, token) =>
      var le, ph := LockEvent(s, r, token), s.phases[r];
      if Lock.Granted(s.lock, le) then
        s.(lock := Lock.Step(s.lock, le), phases := s.phases[r := Handling(ph.key, |s.runs|)],
           runs := s.runs + [Run(ph.key, ph.readStep, ph.readAt, None)])
      else
        s.(lock := Lock.Step(s.lock, le), phases := s.phases - {r})
    case Answer(r, response) =>
      var ph := s.phases[r];
      s.(phases := s.phases[r := if response.statusCode < 400 then Writing(ph.key, ph.run, response)
                                 else Finishing(ph.key, ph.run)])
    case NoJson(r) => s.(phases := s.phases[r := Finishing(s.phases[r].key, s.phases[r].run)])
    case Stored(r) =>
      var ph := s.phases[r];
      s.(cache := s.cache[ph.key := Cached(ph.response, s.lock.now + IDEMPOTENCY_CACHE_TTL_MS, ph.run)],
         phases := s.phases[r := Finishing(ph.key, ph.run)],
         runs := s.runs[ph.run := s.runs[ph.run].(write := Some(Write(s.step, s.lock.now, ph.response)))])
    case Finish(r) => s.(lock := Lock.Step(s.lock, Lock.Release(r)), phases := s.phases - {r})
    case Crash(r) => s.(lock := Lock.Step(s.lock, Lock.Crash(r)), phases := s.phases - {r})
  }

  function Step(s: State, e: Event): State {
    (if Enabled(s, e) then Act(s, e) else s).(step := s.step + 1)
  }

  function Exec(s: State, es: seq<Event>): State {
    if es == [] then s else Step(Exec(s, es[..|es| - 1]), es[|es| - 1])
  }

  ghost predicate Init(s: State) {
    Lock.Init(s.lock) && s.cache == map[] && s.phases == map[] && s.runs == [] && s.replays == []
  }

  // ---- Requests and the lock ----

  /** The request is between taking the lock and giving it back. */
  predicate InRun(s: State, r: nat) {
    r in s.phases && !s.phases[r].Missed?
  }

  predicate HoldsOwnKey(s: State, r: nat) {
    r in s.lock.holders && InRun(s, r)
    && s.lock.holders[r].key == LockName(s.phases[r].key) && s.lock.holders[r].ttl == LOCK_TTL_MS
  }

  ghost predicate LockInv(s: State) {
    && Lock.Inv(s.lock)
    && (forall r :: r in s.lock.holders ==> HoldsOwnKey(s, r))
    && (forall r :: InRun(s, r) ==> HoldsOwnKey(s, r))
  }

  /** A step that leaves the lock alone, or takes or gives back the lock of `r` only. */
  lemma LockStepKeepsLockInv(s: State, s': State, le: Lock.Event, r: nat)
    requires LockInv(s) && s'.lock == Lock.Step(s.lock, le)
    requires forall q :: q != r ==> (q in s'.phases <==> q in s.phases)
    requires forall q :: q != r && q in s.phases ==> s'.phases[q] == s.phases[q]
    requires forall q :: q != r ==> (q in s'.lock.holders <==> q in s.lock.holders)
    requires forall q :: q != r && q in s.lock.holders ==> s'.lock.holders[q] == s.lock.holders[q]
    requires r in s'.lock.holders || InRun(s', r) ==> HoldsOwnKey(s', r)
    ensures LockInv(s')
  {
    Lock.StepKeepsInv(s.lock, le);
    forall q | q in s'.lock.holders || InRun(s', q)
      ensures HoldsOwnKey(s', q)
    {
      if q != r {
        assert q in s.lock.holders || InRun(s, q);
        assert HoldsOwnKey(s, q);
      }
    }
  }

  lemma LockingStepKeepsLockInv(s: State, e: Event)
    requires LockInv(s) && Enabled(s, e) && (e.TryLock? || e.Finish? || e.Crash? || e.Tick?)
    ensures LockInv(Step(s, e))
  {
    var s' := Step(s, e);
    var req := if e.Tick? then 0 else e.req;
    assert InRun(s, req) || req in s.lock.holders ==> HoldsOwnKey(s, req);
    match e
    case Tick(ms) => LockStepKeepsLockInv(s, s', Lock.Tick(ms), 0);
    case TryLock(r, token) => LockStepKeepsLockInv(s, s', LockEvent(s, r, token), r);
    case Finish(r) => LockStepKeepsLockInv(s, s', Lock.Release(r), r);
    case Crash(r) => LockStepKeepsLockInv(s, s', Lock.Crash(r), r);
  }

  lemma OtherStepKeepsLockInv(s: State, e: Event)
    requires LockInv(s) && (!Enabled(s, e) || e.Read? || e.Answer? || e.NoJson? || e.Stored?)
    ensures LockInv(Step(s, e))
  {
    var req := if e.Tick? then 0 else e.req;
    assert InRun(s, req) || req in s.lock.holders ==> HoldsOwnKey(s, req);
    LockStepKeepsLockInv(s, Step(s, e), Lock.Tick(0), req);
  }

  lemma StepKeepsLockInv(s: State, e: Event)
    requires LockInv(s)
    ensures LockInv(Step(s, e))
  {
    if Enabled(s, e) && (e.TryLock? || e.Finish? || e.Crash? || e.Tick?) {
      LockingStepKeepsLockInv(s, e);
    } else {
      OtherStepKeepsLockInv(s, e);
    }
  }

  lemma {:induction false} AlwaysLockInv(s: State, es: seq<Event>)
    requires LockInv(s)
    ensures LockInv(Exec(s, es))
  {
    if es != [] {
      AlwaysLockInv(s, es[..|es| - 1]);
      StepKeepsLockInv(Exec(s, es[..|es| - 1]), es[|es| - 1]);
    }
  }

  /** `a` had outlived the lock's time when `b` took the lock. */
  predicate ExpiredBefore(a: Lock.Holder, b: Lock.Holder) {
    a.since + 30_000 <= b.since
  }

  /** Two runs of one key are under way together only if one outlived its lock before the other took it. */
  lemma RunsDoNotOverlap(s: State, es: seq<Event>, r: nat, q: nat)
    requires Init(s) && r != q && InRun(Exec(s, es), r) && InRun(Exec(s, es), q)
    requires Exec(s, es).phases[r].key == Exec(s, es).phases[q].key
    ensures var holders := Exec(s, es).lock.holders;
            && r in holders && q in holders
            && (ExpiredBefore(holders[r], holders[q]) || ExpiredBefore(holders[q], holders[r]))
  {
    AlwaysLockInv(s, es);
    assert HoldsOwnKey(Exec(s, es), r) && HoldsOwnKey(Exec(s, es), q);
    assert Lock.Disjoint(Exec(s, es).lock.holders[r], Exec(s, es).lock.holders[q]);
  }

  ghost predicate NoneOlderThan(s: State, d: int) {
    forall r :: InRun(s, r) && r in s.lock.holders ==> s.lock.now <= s.lock.holders[r].since + d
  }

  /** At no time in the run has a handler been under way for longer than `d`. */
  ghost predicate NeverOlderThan(s: State, es: seq<Event>, d: int) {
    NoneOlderThan(Exec(s, es), d) && (es != [] ==> NeverOlderThan(s, es[..|es| - 1], d))
  }

  ghost predicate OneRunPerKey(s: State) {
    forall r, q :: InRun(s, r) && InRun(s, q) && s.phases[r].key == s.phases[q].key ==> r == q
  }

  ghost predicate OneRunPerKeyAfter(s: State, es: seq<Event>, d: int) {
    NeverOlderThan(s, es, d) ==> OneRunPerKey(Exec(s, es))
  }

  lemma ExecSnoc(s: State, es: seq<Event>, e: Event)
    ensures Exec(s, es + [e]) == Step(Exec(s, es), e)
  {
    assert (es + [e])[..|es|] == es;
  }

  lemma StepWithin(s: State, es: seq<Event>, e: Event, d: int)
    requires NeverOlderThan(s, es, d) && NoneOlderThan(Step(Exec(s, es), e), d)
    ensures NeverOlderThan(s, es + [e], d) && Exec(s, es + [e]) == Step(Exec(s, es), e)
  {
    ExecSnoc(s, es, e);
    assert (es + [e])[..|es|] == es;
  }

  /** Request 1 alone in its handler since it took the lock. */
  predicate Alone(s: State, key: string, since: int) {
    && 1 in s.phases && s.phases[1] == Handling(key, 0) && s.phases.Keys == {1}
    && s.cache == map[] && s.lock.used == {1}
    && s.lock.holders == map[1 := Lock.Holder(LockName(key), 1, since, LOCK_TTL_MS)]
    && s.lock.store == map[Lock.LockKey(LockName(key)) := Lock.Entry(1, since + LOCK_TTL_MS)]
  }

  lemma FirstIsAlone(s: State, key: string)
    requires Init(s)
    ensures Alone(Step(Step(s, Read(1, key)), TryLock(1, 1)), key, s.lock.now)
    ensures Step(s, Read(1, key)).phases == map[1 := Missed(key, s.step, s.lock.now)]
    ensures Step(Step(s, Read(1, key)), TryLock(1, 1)).lock.now == s.lock.now
  {}

  lemma SecondJoins(s: State, key: string)
    requires Alone(s, key, s.lock.now - LOCK_TTL_MS)
    ensures var read := Step(s, Read(2, key)); var both := Step(read, TryLock(2, 2));
            && read.lock == s.lock && both.lock.now == s.lock.now
            && InRun(both, 1) && InRun(both, 2) && both.phases[1].key == both.phases[2].key == key
            && (forall r :: InRun(read, r) ==> r == 1) && (forall r :: InRun(both, r) ==> r == 1 || r == 2)
            && 1 in both.lock.holders && both.lock.holders[1] == s.lock.holders[1]
            && 2 in both.lock.holders && both.lock.holders[2].since == s.lock.now
  {}

  /** A second request comes when the first has been in its handler for as long as the lock lasts. */
  function SlowHandler(key: string): seq<Event> {
    [Read(1, key)] + [TryLock(1, 1)] + [Tick(LOCK_TTL_MS)] + [Read(2, key)] + [TryLock(2, 2)]
  }

  lemma SlowHandlerAlone(s: State, key: string, d: int)
    requires Init(s) && d >= LOCK_TTL_MS
    ensures var es := [Read(1, key)] + [TryLock(1, 1)] + [Tick(LOCK_TTL_MS)];
            NeverOlderThan(s, es, d) && Alone(Exec(s, es), key, Exec(s, es).lock.now - LOCK_TTL_MS)
  {
    assert [Read(1, key)][..0] == [];
    FirstIsAlone(s, key);
    StepWithin(s, [], Read(1, key), d);
    assert [] + [Read(1, key)] == [Read(1, key)];
    StepWithin(s, [Read(1, key)], TryLock(1, 1), d);
    StepWithin(s, [Read(1, key)] + [TryLock(1, 1)], Tick(LOCK_TTL_MS), d);
  }

  lemma SlowHandlerIsJoined(s: State, es: seq<Event>, key: string, d: int)
    requires d >= LOCK_TTL_MS && NeverOlderThan(s, es, d) && Alone(Exec(s, es), key, Exec(s, es).lock.now - LOCK_TTL_MS)
    ensures var more := es + [Read(2, key)] + [TryLock(2, 2)];
            NeverOlderThan(s, more, d) && !OneRunPerKey(Exec(s, more))
  {
    SecondJoins(Exec(s, es), key);
    StepWithin(s, es, Read(2, key), d);
    StepWithin(s, es + [Read(2, key)], TryLock(2, 2), d);
  }

  lemma SlowHandlerIsDoubled(s: State, key: string, d: int)
    requires Init(s) && d >= LOCK_TTL_MS
    ensures NeverOlderThan(s, SlowHandler(key), d) && !OneRunPerKey(Exec(s, SlowHandler(key)))
  {
    SlowHandlerAlone(s, key, d);
    SlowHandlerIsJoined(s, [Read(1, key)] + [TryLock(1, 1)] + [Tick(LOCK_TTL_MS)], key, d);
  }

  /**
    The deduplication that is promised: over all runs in which no handler takes longer than
    `d`, no two handlers of one key are under way together, if and only if `d` is below the
    lock's 30 s.
   */
  lemma OneRunPerKeyIff(s: State, d: nat)
    requires Init(s)
    ensures (forall es :: OneRunPerKeyAfter(s, es, d)) <==> d < 30_000
  {
    if d < LOCK_TTL_MS {
      forall es
        ensures OneRunPerKeyAfter(s, es, d)
      {
        if NeverOlderThan(s, es, d) {
          PromptRunsDoNotOverlap(s, es, d);
        }
      }
    } else {
      SlowHandlerIsDoubled(s, "key", d);
      assert !OneRunPerKeyAfter(s, SlowHandler("key"), d);
    }
  }

  lemma PromptRunsDoNotOverlap(s: State, es: seq<Event>, d: nat)
    requires Init(s) && d < LOCK_TTL_MS && NoneOlderThan(Exec(s, es), d)
    ensures OneRunPerKey(Exec(s, es))
  {
    AlwaysLockInv(s, es);
    var end := Exec(s, es);
    forall r, q | InRun(end, r) && InRun(end, q) && end.phases[r].key == end.phases[q].key
      ensures r == q
    {
      assert HoldsOwnKey(end, r) && HoldsOwnKey(end, q);
      Lock.UnexpiredHolderIsUnique(end.lock, r, q);
    }
  }

  // ---- The cache and the runs ----

  /** Until its time is over, a write keeps the key's entry from expiring. */
  ghost predicate WriteInv(s: State, i: nat)
    requires i < |s.runs| && s.runs[i].write.Some?
  {
    var k, w := s.runs[i].key, s.runs[i].write.value;
    && w.step < s.step && w.at <= s.lock.now && w.response.statusCode < 400
    && k in s.cache && w.at + IDEMPOTENCY_CACHE_TTL_MS <= s.cache[k].expiresAt
  }

  /** Every entry is the last write of a run of that key. */
  ghost predicate CacheInv(s: State, k: string)
    requires k in s.cache
  {
    var c := s.cache[k];
    && c.writer < |s.runs| && s.runs[c.writer].key == k && s.runs[c.writer].write.Some?
    && s.runs[c.writer].write.value.response == c.response
    && c.expiresAt == s.runs[c.writer].write.value.at + IDEMPOTENCY_CACHE_TTL_MS
  }

  /** A read that found nothing at `step`, time `at`: no write before it was still current. */
  ghost predicate ReadSawNoWrite(s: State, k: string, step: nat, at: int) {
    forall i :: 0 <= i < |s.runs| && s.runs[i].key == k && s.runs[i].write.Some? ==>
      step < s.runs[i].write.value.step || s.runs[i].write.value.at + IDEMPOTENCY_CACHE_TTL_MS <= at
  }

  ghost predicate PhaseInv(s: State, r: nat)
    requires r in s.phases
  {
    match s.phases[r]
    case Missed(k, step, at) => step < s.step && ReadSawNoWrite(s, k, step, at)
    case Handling(k, run) => Owns(s, r, k, run)
    case Writing(k, run, response) => Owns(s, r, k, run) && response.statusCode < 400
    case Finishing(k, run) => true
  }

  /** The run is this request's own, and it has not written yet. */
  ghost predicate Owns(s: State, r: nat, k: string, run: nat) {
    && run < |s.runs| && s.runs[run].key == k && s.runs[run].write.None?
    && forall q :: q in s.phases && q != r ==> !Unwritten(s.phases[q], run)
  }

  predicate Unwritten(ph: Phase, run: nat) {
    (ph.Handling? || ph.Writing?) && ph.run == run
  }

  ghost predicate RunInv(s: State, i: nat)
    requires i < |s.runs|
  {
    s.runs[i].readStep < s.step && ReadSawNoWrite(s, s.runs[i].key, s.runs[i].readStep, s.runs[i].readAt)
  }

  ghost predicate ReplayInv(s: State, p: Replay) {
    && p.writer < |s.runs| && s.runs[p.writer].key == p.key && s.runs[p.writer].write.Some?
    && s.runs[p.writer].write.value.response == p.response && p.response.statusCode < 400
    && s.runs[p.writer].write.value.step < p.step
    && p.at < s.runs[p.writer].write.value.at + IDEMPOTENCY_CACHE_TTL_MS
  }

  ghost predicate Inv(s: State) {
    && (forall i :: 0 <= i < |s.runs| && s.runs[i].write.Some? ==> WriteInv(s, i))
    && (forall k :: k in s.cache ==> CacheInv(s, k))
    && (forall r :: r in s.phases ==> PhaseInv(s, r))
    && (forall i :: 0 <= i < |s.runs| ==> RunInv(s, i))
    && (forall p :: p in s.replays ==> ReplayInv(s, p))
  }

  /** Runs and cache are as before; time and the step counter may have moved on. */
  ghost predicate SameRecords(s: State, s': State) {
    s'.runs == s.runs && s'.cache == s.cache && s.step <= s'.step && s.lock.now <= s'.lock.now
  }

  lemma RecordsKept(s: State, s': State)
    requires Inv(s) && SameRecords(s, s')
    ensures forall i :: 0 <= i < |s'.runs| && s'.runs[i].write.Some? ==> WriteInv(s', i)
    ensures forall k :: k in s'.cache ==> CacheInv(s', k)
    ensures forall i :: 0 <= i < |s'.runs| ==> RunInv(s', i)
    ensures forall p :: p in s.replays ==> ReplayInv(s', p)
    ensures forall k, n, t :: ReadSawNoWrite(s, k, n, t) ==> ReadSawNoWrite(s', k, n, t)
  {
    forall i | 0 <= i < |s'.runs| && s'.runs[i].write.Some?
      ensures WriteInv(s', i)
    {
      assert WriteInv(s, i);
    }
    forall k | k in s'.cache
      ensures CacheInv(s', k)
    {
      assert CacheInv(s, k);
    }
    forall i | 0 <= i < |s'.runs|
      ensures RunInv(s', i)
    {
      assert RunInv(s, i);
    }
    forall p | p in s.replays
      ensures ReplayInv(s', p)
    {
      assert ReplayInv(s, p);
    }
  }

  /** Steps that at most end a request or move it on without touching runs and cache. */
  lemma PhaseStepKeepsInv(s: State, s': State, r: nat)
    requires Inv(s) && SameRecords(s, s') && s'.replays == s.replays
    requires forall q :: q in s'.phases && q != r ==> q in s.phases && s'.phases[q] == s.phases[q]
    requires r in s'.phases ==> r in s.phases && PhaseInv(s', r)
    requires r in s'.phases && !s'.phases[r].Finishing? ==>
               !s'.phases[r].Missed? && !s.phases[r].Missed? && Unwritten(s.phases[r], s'.phases[r].run)
    ensures Inv(s')
  {
    RecordsKept(s, s');
    forall q | q in s'.phases
      ensures PhaseInv(s', q)
    {
      if q != r {
        assert PhaseInv(s, q);
      }
    }
  }

  lemma ReadKeepsInv(s: State, r: nat, key: string)
    requires Inv(s) && Enabled(s, Read(r, key))
    ensures Inv(Step(s, Read(r, key)))
  {
    var s' := Step(s, Read(r, key));
    RecordsKept(s, s');
    if Hit(s, key) {
      assert CacheInv(s, key);
      assert WriteInv(s, s.cache[key].writer);
    } else {
      forall i | 0 <= i < |s.runs| && s.runs[i].key == key && s.runs[i].write.Some?
        ensures s.runs[i].write.value.at + IDEMPOTENCY_CACHE_TTL_MS <= s.lock.now
      {
        assert WriteInv(s, i);
      }
      assert ReadSawNoWrite(s', key, s.step, s.lock.now);
    }
    forall q | q in s'.phases
      ensures PhaseInv(s', q)
    {
      assert q in s.phases ==> PhaseInv(s, q);
    }
  }

  lemma GrantKeepsInv(s: State, e: Event)
    requires Inv(s) && e.TryLock? && Enabled(s, e) && Lock.Granted(s.lock, LockEvent(s, e.req, e.token))
    ensures Inv(Step(s, e))
  {
    var s' := Step(s, e);
    assert PhaseInv(s, e.req);
    forall k, n, t | ReadSawNoWrite(s, k, n, t)
      ensures ReadSawNoWrite(s', k, n, t)
    {}
    forall i | 0 <= i < |s'.runs| && s'.runs[i].write.Some?
      ensures WriteInv(s', i)
    {
      assert WriteInv(s, i);
    }
    forall k | k in s'.cache
      ensures CacheInv(s', k)
    {
      assert CacheInv(s, k);
    }
    forall i | 0 <= i < |s'.runs|
      ensures RunInv(s', i)
    {
      assert i < |s.runs| ==> RunInv(s, i);
    }
    forall p | p in s'.replays
      ensures ReplayInv(s', p)
    {
      assert ReplayInv(s, p);
    }
    forall q | q in s'.phases
      ensures PhaseInv(s', q)
    {
      assert PhaseInv(s, q);
    }
  }

  /** A write goes into a run that had none, and is newer than everything recorded so far. */
  lemma StoredKeepsRecords(s: State, r: nat)
    requires Inv(s) && Enabled(s, Stored(r))
    ensures var s' := Step(s, Stored(r));
            && (forall i :: 0 <= i < |s'.runs| && s'.runs[i].write.Some? ==> WriteInv(s', i))
            && (forall k :: k in s'.cache ==> CacheInv(s', k))
            && (forall p :: p in s'.replays ==> ReplayInv(s', p))
  {
    var s' := Step(s, Stored(r));
    var run := s.phases[r].run;
    assert PhaseInv(s, r);
    forall i | 0 <= i < |s'.runs| && s'.runs[i].write.Some?
      ensures WriteInv(s', i)
    {
      if i != run {
        assert WriteInv(s, i);
      }
    }
    forall k | k in s'.cache
      ensures CacheInv(s', k)
    {
      assert k in s.cache ==> CacheInv(s, k);
    }
    forall p | p in s'.replays
      ensures ReplayInv(s', p)
    {
      assert ReplayInv(s, p);
    }
  }

  lemma StoredKeepsInv(s: State, r: nat)
    requires Inv(s) && Enabled(s, Stored(r))
    ensures Inv(Step(s, Stored(r)))
  {
    var s' := Step(s, Stored(r));
    StoredKeepsRecords(s, r);
    assert PhaseInv(s, r);
    forall k, n: nat, t | ReadSawNoWrite(s, k, n, t) && n < s.step
      ensures ReadSawNoWrite(s', k, n, t)
    {}
    forall i | 0 <= i < |s'.runs|
      ensures RunInv(s', i)
    {
      assert RunInv(s, i);
    }
    forall q | q in s'.phases
      ensures PhaseInv(s', q)
    {
      assert PhaseInv(s, q);
    }
  }

  lemma StepKeepsInv(s: State, e: Event)
    requires Inv(s)
    ensures Inv(Step(s, e))
  {
    var s' := Step(s, e);
    if !Enabled(s, e) {
      IdleStepKeepsInv(s, s');
    } else {
      match e
      case Tick(_) => IdleStepKeepsInv(s, s');
      case Read(r, key) => ReadKeepsInv(s, r, key);
      case TryLock(r, token) =>
        if Lock.Granted(s.lock, LockEvent(s, r, token)) {
          GrantKeepsInv(s, e);
        } else {
          PhaseStepKeepsInv(s, s', r);
        }
      case Answer(r, _) => assert PhaseInv(s, r); PhaseStepKeepsInv(s, s', r);
      case NoJson(r) => PhaseStepKeepsInv(s, s', r);
      case Stored(r) => StoredKeepsInv(s, r);
      case Finish(r) => PhaseStepKeepsInv(s, s', r);
      case Crash(r) => PhaseStepKeepsInv(s, s', r);
    }
  }

  lemma IdleStepKeepsInv(s: State, s': State)
    requires Inv(s) && SameRecords(s, s') && s'.replays == s.replays && s'.phases == s.phases
    ensures Inv(s')
  {
    RecordsKept(s, s');
    forall q | q in s'.phases
      ensures PhaseInv(s', q)
    {
      assert PhaseInv(s, q);
    }
  }

  lemma {:induction false} AlwaysInv(s: State, es: seq<Event>)
    requires Inv(s)
    ensures Inv(Exec(s, es))
  {
    if es != [] {
      AlwaysInv(s, es[..|es| - 1]);
      StepKeepsInv(Exec(s, es[..|es| - 1]), es[|es| - 1]);
    }
  }

  /**
    When the handler runs a second time for a key: the request had read the cache before the
    first run's write took effect, or that write had expired, or there was no write.
   */
  lemma SecondRunReadTooEarlyOrTooLate(s: State, es: seq<Event>, i: nat, j: nat)
    requires Init(s) && i < |Exec(s, es).runs| && j < |Exec(s, es).runs|
    requires Exec(s, es).runs[i].key == Exec(s, es).runs[j].key && Exec(s, es).runs[i].write.Some?
    ensures var first, second := Exec(s, es).runs[i], Exec(s, es).runs[j];
            || second.readStep < first.write.value.step
            || first.write.value.at + 86_400_000 <= second.readAt
  {
    AlwaysInv(s, es);
    assert RunInv(Exec(s, es), j);
  }

  /** Every replay is the successful response an earlier run of the key wrote less than a day before. */
  lemma ReplaysAreEarlierResponses(s: State, es: seq<Event>, p: Replay)
    requires Init(s) && p in Exec(s, es).replays
    ensures exists i :: 0 <= i < |Exec(s, es).runs| && Exec(s, es).runs[i].key == p.key
              && Exec(s, es).runs[i].write.Some?
              && Exec(s, es).runs[i].write.value.response == p.response && p.response.statusCode < 400
              && Exec(s, es).runs[i].write.value.step < p.step
              && p.at < Exec(s, es).runs[i].write.value.at + 86_400_000
  {
    AlwaysInv(s, es);
    assert ReplayInv(Exec(s, es), p);
  }

  /** A request whose read comes after a write and within its day is answered by a replay, not run. */
  lemma LaterReadIsReplayed(s: State, es: seq<Event>, i: nat, r: nat)
    requires Init(s) && i < |Exec(s, es).runs| && Exec(s, es).runs[i].write.Some?
    requires Exec(s, es).lock.now < Exec(s, es).runs[i].write.value.at + 86_400_000
    requires r !in Exec(s, es).phases
    ensures var key := Exec(s, es).runs[i].key; var next := Step(Exec(s, es), Read(r, key));
            && r !in next.phases && |next.replays| == |Exec(s, es).replays| + 1
            && next.replays[|next.replays| - 1].key == key
  {
    AlwaysInv(s, es);
    AlwaysLockInv(s, es);
    assert WriteInv(Exec(s, es), i);
    assert r in Exec(s, es).lock.holders ==> HoldsOwnKey(Exec(s, es), r);
  }

  /** A new request is answered from the key's entry exactly if that is alive, and goes on to the lock if not. */
  lemma ReadIsReplayedIff(s: State, es: seq<Event>, r: nat, key: string)
    requires Init(s) && r !in Exec(s, es).phases
    ensures var st := Exec(s, es); var next := Step(st, Read(r, key));
            && (key in st.cache && st.lock.now < st.cache[key].expiresAt ==>
                  && r !in next.phases && |next.replays| == |st.replays| + 1
                  && next.replays[|st.replays|].key == key && next.replays[|st.replays|].response == st.cache[key].response)
            && (!(key in st.cache && st.lock.now < st.cache[key].expiresAt) ==>
                  next.replays == st.replays && Waits(next, r, key))
  {
    AlwaysLockInv(s, es);
    assert r in Exec(s, es).lock.holders ==> HoldsOwnKey(Exec(s, es), r);
  }

  /** The end of a response gives the key's lock back, unless it expired before. */
  lemma FinishFreesKey(s: State, es: seq<Event>, r: nat)
    requires Init(s) && r in Exec(s, es).phases && Exec(s, es).phases[r].Finishing?
    ensures r in Exec(s, es).lock.holders && r !in Step(Exec(s, es), Finish(r)).phases
    ensures Lock.Unexpired(Exec(s, es).lock.holders[r], Exec(s, es).lock.now) ==>
              "lock:idempotency:" + Exec(s, es).phases[r].key !in Step(Exec(s, es), Finish(r)).lock.store
  {
    AlwaysLockInv(s, es);
    var st := Exec(s, es);
    assert InRun(st, r) && HoldsOwnKey(st, r);
    assert Lock.HolderInv(st.lock, r);
    KeyNameUnique(st.phases[r].key, st.phases[r].key);
  }

  // ---- What is stored is what was answered ----

  /** Step `n` is the answer of this run of the key, and it is not an error. */
  predicate IsAnswer(s: State, es: seq<Event>, n: int, key: string, run: nat, response: Response) {
    && 0 <= n < |es| && es[n].Answer? && es[n].response == response && response.statusCode < 400
    && var phases := Exec(s, es[..n]).phases; es[n].req in phases && phases[es[n].req] == Handling(key, run)
  }

  ghost predicate HasAnswer(s: State, es: seq<Event>, key: string, run: nat, response: Response) {
    exists n :: IsAnswer(s, es, n, key, run, response)
  }

  lemma AnswerStays(s: State, es: seq<Event>, key: string, run: nat, response: Response)
    requires es != [] && HasAnswer(s, es[..|es| - 1], key, run, response)
    ensures HasAnswer(s, es, key, run, response)
  {
    var front := es[..|es| - 1];
    var n :| IsAnswer(s, front, n, key, run, response);
    assert front[..n] == es[..n];
    assert IsAnswer(s, es, n, key, run, response);
  }

  ghost predicate WritesAreAnswers(s: State, es: seq<Event>, end: State) {
    && (forall r :: r in end.phases && end.phases[r].Writing? ==>
          HasAnswer(s, es, end.phases[r].key, end.phases[r].run, end.phases[r].response))
    && (forall i :: 0 <= i < |end.runs| && end.runs[i].write.Some? ==>
          HasAnswer(s, es, end.runs[i].key, i, end.runs[i].write.value.response))
  }

  lemma WritingIsNew(s: State, e: Event, r: nat)
    requires r in Step(s, e).phases && Step(s, e).phases[r].Writing?
    requires r in s.phases ==> s.phases[r] != Step(s, e).phases[r]
    ensures var ph := Step(s, e).phases[r];
            e == Answer(r, ph.response) && ph.response.statusCode < 400 && r in s.phases && s.phases[r] == Handling(ph.key, ph.run)
  {}

  lemma WritingHasAnswer(s: State, es: seq<Event>, r: nat)
    requires es != [] && WritesAreAnswers(s, es[..|es| - 1], Exec(s, es[..|es| - 1]))
    requires r in Exec(s, es).phases && Exec(s, es).phases[r].Writing?
    ensures var ph := Exec(s, es).phases[r]; HasAnswer(s, es, ph.key, ph.run, ph.response)
  {
    var ph, before := Exec(s, es).phases[r], Exec(s, es[..|es| - 1]);
    if r in before.phases && before.phases[r] == ph {
      AnswerStays(s, es, ph.key, ph.run, ph.response);
    } else {
      WritingIsNew(before, es[|es| - 1], r);
      assert IsAnswer(s, es, |es| - 1, ph.key, ph.run, ph.response);
    }
  }

  lemma WriteHasAnswer(s: State, es: seq<Event>, i: nat)
    requires es != [] && WritesAreAnswers(s, es[..|es| - 1], Exec(s, es[..|es| - 1])) && Inv(Exec(s, es[..|es| - 1]))
    requires i < |Exec(s, es).runs| && Exec(s, es).runs[i].write.Some?
    ensures HasAnswer(s, es, Exec(s, es).runs[i].key, i, Exec(s, es).runs[i].write.value.response)
  {
    var before, e := Exec(s, es[..|es| - 1]), es[|es| - 1];
    if e.Stored? && Enabled(before, e) && before.phases[e.req].run == i {
      assert PhaseInv(before, e.req);
    }
    AnswerStays(s, es, Exec(s, es).runs[i].key, i, Exec(s, es).runs[i].write.value.response);
  }

  lemma {:induction false} AlwaysWritesAnswers(s: State, es: seq<Event>)
    requires Init(s)
    ensures WritesAreAnswers(s, es, Exec(s, es))
  {
    if es != [] {
      AlwaysWritesAnswers(s, es[..|es| - 1]);
      AlwaysInv(s, es[..|es| - 1]);
      var end := Exec(s, es);
      forall r | r in end.phases && end.phases[r].Writing?
        ensures HasAnswer(s, es, end.phases[r].key, end.phases[r].run, end.phases[r].response)
      {
        WritingHasAnswer(s, es, r);
      }
      forall i | 0 <= i < |end.runs| && end.runs[i].write.Some?
        ensures HasAnswer(s, es, end.runs[i].key, i, end.runs[i].write.value.response)
      {
        WriteHasAnswer(s, es, i);
      }
    }
  }

  /** Over whole runs: what is replayed is, status and body, what the handler of an earlier run of the key answered. */
  lemma ReplaysAreAnswers(s: State, es: seq<Event>, p: Replay)
    requires Init(s) && p in Exec(s, es).replays
    ensures HasAnswer(s, es, p.key, p.writer, p.response)
  {
    AlwaysInv(s, es);
    AlwaysWritesAnswers(s, es);
    assert ReplayInv(Exec(s, es), p);
  }

  lemma WritingWaits(s: State, e: Event, r: nat)
    requires r in s.phases && s.phases[r].Writing? && e != Stored(r) && e != Crash(r)
    ensures r in Step(s, e).phases && Step(s, e).phases[r] == s.phases[r]
  {}

  lemma {:induction false} WritingWaitsFor(s: State, es: seq<Event>, r: nat)
    requires r in s.phases && s.phases[r].Writing? && Stored(r) !in es && Crash(r) !in es
    ensures r in Exec(s, es).phases && Exec(s, es).phases[r] == s.phases[r]
    ensures |Exec(s, es).runs| >= |s.runs|
  {
    if es != [] {
      var front, e := es[..|es| - 1], es[|es| - 1];
      assert e in es && forall f :: f in front ==> f in es;
      WritingWaitsFor(s, front, r);
      WritingWaits(Exec(s, front), e, r);
      StepKeepsHistory(Exec(s, front), e);
    }
  }

  /**
    An answer below 400 is sent to the cache and, whatever other requests do before it gets
    there, is the key's entry from then on, for a day; one of 400 or more is not sent.
   */
  lemma AnswerIsStoredIff(s: State, es: seq<Event>, r: nat, response: Response, between: seq<Event>)
    requires Init(s) && r in Exec(s, es).phases && Exec(s, es).phases[r].Handling?
    requires Stored(r) !in between && Crash(r) !in between && Finish(r) !in between
    ensures var key := Exec(s, es).phases[r].key; var s1 := Exec(Step(Exec(s, es), Answer(r, response)), between);
            && (Enabled(s1, Stored(r)) <==> response.statusCode < 400)
            && (response.statusCode < 400 ==>
                  var next := Step(s1, Stored(r));
                  && key in next.cache && next.cache[key].response == response
                  && next.cache[key].expiresAt == s1.lock.now + 86_400_000)
  {
    AlwaysInv(s, es);
    assert PhaseInv(Exec(s, es), r);
    var answered := Step(Exec(s, es), Answer(r, response));
    if response.statusCode < 400 {
      WritingWaitsFor(answered, between, r);
    } else {
      FinishingWaitsFor(answered, between, r);
    }
  }

  lemma {:induction false} FinishingWaitsFor(s: State, es: seq<Event>, r: nat)
    requires r in s.phases && s.phases[r].Finishing? && Finish(r) !in es && Crash(r) !in es
    ensures r in Exec(s, es).phases && Exec(s, es).phases[r] == s.phases[r]
  {
    if es != [] {
      var front, e := es[..|es| - 1], es[|es| - 1];
      assert e in es && forall f :: f in front ==> f in es;
      FinishingWaitsFor(s, front, r);
    }
  }

  // ---- Who can be refused ----

  /** Step `n` took the lock of the key for a run of its handler. */
  predicate TookLock(s: State, es: seq<Event>, n: int, key: string) {
    0 <= n < |es| && es[n].TryLock? && StartsRun(Exec(s, es[..n]), es[n], key)
  }

  lemma {:induction false} EntryHasTaker(s: State, es: seq<Event>, key: string) returns (n: int)
    requires Init(s) && "lock:idempotency:" + key in Exec(s, es).lock.store
    ensures TookLock(s, es, n, key)
    ensures Exec(s, es).lock.store["lock:idempotency:" + key].expiresAt == Exec(s, es[..n]).lock.now + 30_000
  {
    var k := "lock:idempotency:" + key;
    var front, e := es[..|es| - 1], es[|es| - 1];
    var before, end := Exec(s, front), Exec(s, es);
    if k in before.lock.store && before.lock.store[k] == end.lock.store[k] {
      n := EntryHasTaker(s, front, key);
      assert front[..n] == es[..n];
    } else {
      n := |es| - 1;
      EntryIsNew(before, e, key);
    }
  }

  lemma EntryIsNew(s: State, e: Event, key: string)
    requires "lock:idempotency:" + key in Step(s, e).lock.store
    requires var k := "lock:idempotency:" + key; k in s.lock.store ==> s.lock.store[k] != Step(s, e).lock.store[k]
    ensures e.TryLock? && StartsRun(s, e, key)
    ensures Step(s, e).lock.store["lock:idempotency:" + key].expiresAt == s.lock.now + 30_000
  {
    assert e.TryLock? && Enabled(s, e);
    var key' := s.phases[e.req].key;
    KeyNameUnique(key, key');
  }

  lemma KeyNameUnique(key: string, key': string)
    ensures "lock:idempotency:" + key == Lock.LockKey(LockName(key'))  <==> key == key'
  {
    var k, k' := "lock:idempotency:" + key, Lock.LockKey(LockName(key'));
    assert k[|"lock:idempotency:"|..] == key && k'[|"lock:idempotency:"|..] == key';
    assert key == key' ==> k == k';
  }

  /**
    A request that asks for the lock is refused only because a request of the same key took
    it less than 30 s before: requests of other keys are never in its way.
   */
  lemma RefusedOnlyForOwnKey(s: State, es: seq<Event>, r: nat, token: nat)
    requires Init(s) && r in Exec(s, es).phases && Exec(s, es).phases[r].Missed? && token !in Exec(s, es).lock.used
    requires !StartsRun(Exec(s, es), TryLock(r, token), Exec(s, es).phases[r].key)
    ensures exists n :: TookLock(s, es, n, Exec(s, es).phases[r].key)
                        && Exec(s, es).lock.now < Exec(s, es[..n]).lock.now + 30_000
  {
    var key := Exec(s, es).phases[r].key;
    KeyNameUnique(key, key);
    AlwaysLockInv(s, es);
    assert r in Exec(s, es).lock.holders ==> HoldsOwnKey(Exec(s, es), r);
    var n := EntryHasTaker(s, es, key);
  }

  // ---- Exactly when the handler runs again ----

  /** No read is dated in the future. */
  ghost predicate ReadsInPast(s: State) {
    forall r :: r in s.phases && s.phases[r].Missed? ==> s.phases[r].readAt <= s.lock.now
  }

  lemma {:induction false} AlwaysReadsInPast(s: State, es: seq<Event>)
    requires Init(s)
    ensures ReadsInPast(Exec(s, es))
  {
    if es != [] {
      AlwaysReadsInPast(s, es[..|es| - 1]);
    }
  }

  /** The step starts a run of the handler for this key. */
  predicate StartsRun(s: State, e: Event, key: string) {
    var runs := Step(s, e).runs;
    |runs| > |s.runs| && runs[|runs| - 1].key == key
  }

  /** Run `i` has written its response, and the entry's day is not over. */
  predicate Answered(s: State, i: nat) {
    i < |s.runs| && s.runs[i].write.Some? && s.lock.now < s.runs[i].write.value.at + 86_400_000
  }

  /** The request found the cache empty before that write, and gets the key's lock now. */
  predicate EarlyReaderGetsLock(s: State, e: Event, i: nat)
    requires Answered(s, i)
  {
    && e.TryLock? && Enabled(s, e) && s.phases[e.req].key == s.runs[i].key
    && s.phases[e.req].readStep < s.runs[i].write.value.step
    && Lock.Granted(s.lock, LockEvent(s, e.req, e.token))
  }

  /**
    After an answered run, and for its whole day, a step starts another run of the key if and
    only if it grants the lock to a request that had read the cache before the write.
   */
  lemma SecondRunIff(s: State, es: seq<Event>, i: nat, e: Event)
    requires Init(s) && Answered(Exec(s, es), i)
    ensures StartsRun(Exec(s, es), e, Exec(s, es).runs[i].key) <==> EarlyReaderGetsLock(Exec(s, es), e, i)
  {
    AlwaysInv(s, es);
    AlwaysReadsInPast(s, es);
    var st := Exec(s, es);
    if e.TryLock? && Enabled(st, e) {
      assert PhaseInv(st, e.req);
    }
  }

  /** The request has found the cache empty and has not asked for the lock yet. */
  predicate Waits(s: State, r: nat, key: string) {
    r in s.phases && s.phases[r].Missed? && s.phases[r].key == key
  }

  ghost predicate NobodyWaits(s: State, key: string) {
    forall r :: !Waits(s, r, key)
  }

  /** In the continuation the handler runs again for the key of run `i`, within the entry's day. */
  ghost predicate RunsAgain(s: State, more: seq<Event>, i: nat)
    requires Answered(s, i)
  {
    var end := Exec(s, more);
    && end.lock.now < s.runs[i].write.value.at + 86_400_000
    && exists j :: |s.runs| <= j < |end.runs| && end.runs[j].key == s.runs[i].key
  }

  lemma StepKeepsHistory(s: State, e: Event)
    ensures s.lock.now <= Step(s, e).lock.now && |s.runs| <= |Step(s, e).runs|
    ensures forall j :: 0 <= j < |s.runs| ==> Step(s, e).runs[j].key == s.runs[j].key
  {}

  /** An entry in its day is a hit, so nobody joins those who wait. */
  lemma NobodyJoins(s: State, e: Event, key: string)
    requires NobodyWaits(s, key) && Hit(s, key)
    ensures NobodyWaits(Step(s, e), key) && !StartsRun(s, e, key)
  {
    forall r
      ensures !Waits(Step(s, e), r, key)
    {
      assert !Waits(s, r, key);
    }
    if e.TryLock? && Enabled(s, e) {
      assert !Waits(s, e.req, key);
    }
  }

  /** Some entry of the key stays alive until the day of a write is over. */
  ghost predicate HitUntil(s: State, key: string, end: int) {
    key in s.cache && end <= s.cache[key].expiresAt
  }

  lemma StepKeepsHit(s: State, e: Event, key: string, end: int)
    requires HitUntil(s, key, end) && end <= s.lock.now + IDEMPOTENCY_CACHE_TTL_MS
    ensures HitUntil(Step(s, e), key, end)
  {}

  lemma {:induction false} NoMoreRuns(s: State, more: seq<Event>, key: string, end: int)
    requires NobodyWaits(s, key) && HitUntil(s, key, end) && end <= s.lock.now + IDEMPOTENCY_CACHE_TTL_MS
    requires Exec(s, more).lock.now < end
    ensures NobodyWaits(Exec(s, more), key) && HitUntil(Exec(s, more), key, end) && s.lock.now <= Exec(s, more).lock.now
    ensures |s.runs| <= |Exec(s, more).runs|
    ensures forall j :: |s.runs| <= j < |Exec(s, more).runs| ==> Exec(s, more).runs[j].key != key
  {
    if more != [] {
      var s', e := Exec(s, more[..|more| - 1]), more[|more| - 1];
      StepKeepsHistory(s', e);
      NoMoreRuns(s, more[..|more| - 1], key, end);
      NobodyJoins(s', e, key);
      StepKeepsHit(s', e, key, end);
      OneRunAtMost(s', e);
    }
  }

  lemma OneRunAtMost(s: State, e: Event)
    ensures |Step(s, e).runs| <= |s.runs| + 1
  {}

  /** Wait until any lock has expired, then take it. */
  function TryLater(r: nat, token: nat): seq<Event> {
    [Tick(LOCK_TTL_MS)] + [TryLock(r, token)]
  }

  lemma WaiterRuns(s: State, r: nat, key: string, token: nat)
    requires LockInv(s) && Waits(s, r, key) && token !in s.lock.used
    requires forall k :: k in s.lock.store ==> s.lock.store[k].expiresAt <= s.lock.now + LOCK_TTL_MS
    ensures var end := Exec(s, TryLater(r, token));
            && |end.runs| == |s.runs| + 1 && end.runs[|s.runs|].key == key && end.lock.now == s.lock.now + LOCK_TTL_MS
  {
    var later := Step(s, Tick(LOCK_TTL_MS));
    assert [Tick(LOCK_TTL_MS)][..0] == [];
    assert Exec(s, [Tick(LOCK_TTL_MS)]) == later;
    ExecSnoc(s, [Tick(LOCK_TTL_MS)], TryLock(r, token));
    assert r in s.lock.holders ==> HoldsOwnKey(s, r);
    assert Lock.Granted(later.lock, LockEvent(later, r, token));
  }

  lemma {:induction false} LocksAreShort(s: State, es: seq<Event>)
    requires Init(s)
    ensures forall k :: k in Exec(s, es).lock.store ==>
              Exec(s, es).lock.store[k].expiresAt <= Exec(s, es).lock.now + LOCK_TTL_MS
  {
    if es != [] {
      LocksAreShort(s, es[..|es| - 1]);
    }
  }

  lemma {:induction false} FreshToken(used: set<nat>) returns (token: nat)
    ensures forall u :: u in used ==> u < token
  {
    token := 0;
    if used != {} {
      var u :| u in used;
      token := FreshToken(used - {u});
      token := if token <= u then u + 1 else token;
      assert forall v :: v in used ==> v == u || v in used - {u};
    }
  }

  /**
    Seen from the write of a response: the handler can run again for the key within the
    entry's day if and only if some request had read the cache before and has not asked for
    the lock yet. (The lock's 30 s have to fit into what is left of the day.)
   */
  lemma SecondRunPossibleIff(s: State, es: seq<Event>, i: nat)
    requires Init(s) && Answered(Exec(s, es), i)
    requires Exec(s, es).lock.now + 30_000 < Exec(s, es).runs[i].write.value.at + 86_400_000
    ensures (exists more :: RunsAgain(Exec(s, es), more, i))
       <==> exists r :: Waits(Exec(s, es), r, Exec(s, es).runs[i].key)
  {
    var st := Exec(s, es);
    var key, end := st.runs[i].key, st.runs[i].write.value.at + IDEMPOTENCY_CACHE_TTL_MS;
    AlwaysInv(s, es);
    assert WriteInv(st, i);
    if r :| Waits(st, r, key) {
      AlwaysLockInv(s, es);
      LocksAreShort(s, es);
      var token := FreshToken(st.lock.used);
      WaiterRuns(st, r, key, token);
      assert RunsAgain(st, TryLater(r, token), i);
    } else {
      forall more
        ensures !RunsAgain(st, more, i)
      {
        if Exec(st, more).lock.now < end {
          NoMoreRuns(st, more, key, end);
        }
      }
    }
  }

  // ---- A run of the handler too many ----

  /** Request 2 has read nothing and waits; request 1 is in phase `ph`, or gone. */
  function Racing(s: State, key: string, ph: map<nat, Phase>, steps: nat): State {
    s.(step := s.step + steps, phases := ph + map[2 := Missed(key, s.step + 1, s.lock.now)])
  }

  function Locked(s: State, key: string): Lock.State {
    Lock.State(s.lock.now, map[Lock.LockKey(LockName(key)) := Lock.Entry(1, s.lock.now + LOCK_TTL_MS)],
               map[1 := Lock.Holder(LockName(key), 1, s.lock.now, LOCK_TTL_MS)], {1})
  }

  function FirstRun(s: State, key: string, write: Option<Write>): Run {
    Run(key, s.step, s.lock.now, write)
  }

  lemma BothMiss(s: State, key: string)
    requires Init(s)
    ensures Step(Step(s, Read(1, key)), Read(2, key)) == Racing(s, key, map[1 := Missed(key, s.step, s.lock.now)], 2)
  {}

  lemma FirstTakesLock(s: State, key: string)
    requires Init(s)
    ensures Step(Racing(s, key, map[1 := Missed(key, s.step, s.lock.now)], 2), TryLock(1, 1))
         == Racing(s, key, map[1 := Handling(key, 0)], 3).(lock := Locked(s, key), runs := [FirstRun(s, key, None)])
  {}

  lemma FirstWrites(s: State, key: string, response: Response)
    requires Init(s) && response.statusCode < 400
    ensures var s1 := Racing(s, key, map[1 := Handling(key, 0)], 3).(lock := Locked(s, key), runs := [FirstRun(s, key, None)]);
            Step(Step(s1, Answer(1, response)), Stored(1))
              == Racing(s, key, map[1 := Finishing(key, 0)], 5).(
                   lock := Locked(s, key),
                   cache := map[key := Cached(response, s.lock.now + IDEMPOTENCY_CACHE_TTL_MS, 0)],
                   runs := [FirstRun(s, key, Some(Write(s.step + 4, s.lock.now, response)))])
  {}

  lemma ExecThree(s: State, a: Event, b: Event, c: Event)
    ensures Exec(s, [a] + [b] + [c]) == Step(Step(Step(s, a), b), c)
  {
    assert [a][..0] == [];
    assert Exec(s, [a]) == Step(s, a);
    ExecSnoc(s, [a], b);
    ExecSnoc(s, [a] + [b], c);
  }

  /** Both requests read the cache, then the first one does all its work. */
  function FirstIsServed(key: string, response: Response): seq<Event> {
    [Read(1, key)] + [Read(2, key)] + [TryLock(1, 1)] + [Answer(1, response)] + [Stored(1)]
  }

  lemma FirstServed(s: State, key: string, response: Response)
    requires Init(s) && response.statusCode < 400
    ensures Exec(s, FirstIsServed(key, response)) == Racing(s, key, map[1 := Finishing(key, 0)], 5).(
                   lock := Locked(s, key),
                   cache := map[key := Cached(response, s.lock.now + IDEMPOTENCY_CACHE_TTL_MS, 0)],
                   runs := [FirstRun(s, key, Some(Write(s.step + 4, s.lock.now, response)))])
  {
    var es := [Read(1, key)] + [Read(2, key)] + [TryLock(1, 1)];
    ExecThree(s, Read(1, key), Read(2, key), TryLock(1, 1));
    BothMiss(s, key);
    FirstTakesLock(s, key);
    ExecSnoc(s, es, Answer(1, response));
    ExecSnoc(s, es + [Answer(1, response)], Stored(1));
    FirstWrites(s, key, response);
  }

  /**
    At most one run per key is not what the code gives: a request that read before the first
    run's write, and takes the lock after the first run is over, runs the handler again.
   */
  lemma EarlyReadRunsAgain(s: State, key: string, response: Response)
    requires Init(s) && response.statusCode < 400
    ensures var end := Exec(s, FirstIsServed(key, response) + [Finish(1)] + [TryLock(2, 2)]);
            && |end.runs| == 2 && end.runs[0].key == end.runs[1].key == key
            && end.runs[0].write.Some? && end.lock.now < end.runs[0].write.value.at + 86_400_000
  {
    FirstServed(s, key, response);
    ExecSnoc(s, FirstIsServed(key, response), Finish(1));
    ExecSnoc(s, FirstIsServed(key, response) + [Finish(1)], TryLock(2, 2));
    SecondRuns(Exec(s, FirstIsServed(key, response)), key);
  }

  lemma SecondRuns(s: State, key: string)
    requires 1 in s.phases && s.phases[1] == Finishing(key, 0) && 2 in s.phases && s.phases[2].Missed? && s.phases[2].key == key
    requires |s.runs| == 1 && s.runs[0].key == key && s.lock.used == {1}
    requires s.lock.store == map[Lock.LockKey(LockName(key)) := Lock.Entry(1, s.lock.now + LOCK_TTL_MS)]
    requires s.lock.holders == map[1 := Lock.Holder(LockName(key), 1, s.lock.now, LOCK_TTL_MS)]
    ensures var end := Step(Step(s, Finish(1)), TryLock(2, 2));
            |end.runs| == 2 && end.runs[0] == s.runs[0] && end.runs[1].key == key && end.lock.now == s.lock.now
  {}

  // ---- The middleware, between two awaited calls at a time ----

  class IdempotencyMiddleware {
    const locks: Lock.RedisLocks
    var cache: map<string, Cached>
    var phases: map<nat, Phase>
    var step: nat              // these three are records, no decision reads them
    var runs: seq<Run>
    ghost var replays: seq<Replay>

    ghost function View(): State
      reads this, locks
    {
      State(locks.View(), cache, phases, step, runs, replays)
    }

    constructor (locks: Lock.RedisLocks)
      requires Lock.Init(locks.View())
      ensures this.locks == locks && Init(View())
    {
      this.locks := locks;
      cache, phases := map[], map[];
      step, runs, replays := 0, [], [];
    }

    /** The cache read: a hit is replayed to the client, a miss goes on to the lock. */
    method ReadCache(req: nat, key: string) returns (replayed: Option<Response>)
      requires req !in phases && req !in locks.holders
      modifies this
      ensures View() == Step(old(View()), Read(req, key))
      ensures replayed.Some? <==> key in old(cache) && locks.now < old(cache)[key].expiresAt
      ensures replayed.Some? ==> replayed.value == old(cache)[key].response && phases == old(phases)
      ensures replayed.None? ==> req in phases && phases[req].Missed? && phases[req].key == key
      ensures cache == old(cache) && runs == old(runs)
    {
      if key in cache && locks.now < cache[key].expiresAt {
        replayed := Some(cache[key].response);
        replays := replays + [Replay(key, cache[key].response, cache[key].writer, step, locks.now)];
      } else {
        replayed := None;
        phases := phases[req := Missed(key, step, locks.now)];
      }
      step := step + 1;
    }

    /** `withLock`: false is answered with status 409. */
    method TakeLock(req: nat, token: nat) returns (ran: bool)
      requires req in phases && phases[req].Missed? && req !in locks.holders && token !in locks.used
      modifies this, locks
      ensures View() == Step(old(View()), TryLock(req, token))
      ensures var key := old(phases)[req].key; var k := "lock:idempotency:" + key;
              && (ran <==> !(k in old(locks.store) && locks.now < old(locks.store)[k].expiresAt))
              && (ran ==> locks.store == old(locks.store)[k := Lock.Entry(token, locks.now + 30_000)])
              && (ran ==> |runs| == |old(runs)| + 1 && phases == old(phases)[req := Handling(key, |old(runs)|)])
              && (!ran ==> runs == old(runs) && locks.store == old(locks.store) && phases == old(phases) - {req})
    {
      var ph := phases[req];
      KeyNameUnique(ph.key, ph.key);
      ran := locks.AcquireLock(req, "idempotency:" + ph.key, token, LOCK_TTL_MS);
      if ran {
        phases := phases[req := Handling(ph.key, |runs|)];
        runs := runs + [Run(ph.key, ph.readStep, ph.readAt, None)];
      } else {
        phases := phases - {req};
      }
      step := step + 1;
    }

    /** The replaced `res.json`: a response below 400 is sent to the cache. */
    method Json(req: nat, response: Response)
      requires req in phases && phases[req].Handling?
      modifies this
      ensures View() == Step(old(View()), Answer(req, response))
      ensures var ph := old(phases)[req];
              phases == old(phases)[req := if response.statusCode < 400 then Writing(ph.key, ph.run, response) else Finishing(ph.key, ph.run)]
    {
      var ph := phases[req];
      if response.statusCode < 400 {
        phases := phases[req := Writing(ph.key, ph.run, response)];
      } else {
        phases := phases[req := Finishing(ph.key, ph.run)];
      }
      step := step + 1;
    }

    /** The cache write takes effect in Redis. */
    method StoreResponse(req: nat)
      requires req in phases && phases[req].Writing? && phases[req].run < |runs|
      modifies this
      ensures View() == Step(old(View()), Stored(req))
      ensures var ph := old(phases)[req]; cache == old(cache)[ph.key := Cached(ph.response, locks.now + 86_400_000, ph.run)]
    {
      var ph := phases[req];
      cache := cache[ph.key := Cached(ph.response, locks.now + IDEMPOTENCY_CACHE_TTL_MS, ph.run)];
      phases := phases[req := Finishing(ph.key, ph.run)];
      runs := runs[ph.run := runs[ph.run].(write := Some(Write(step, locks.now, ph.response)))];
      step := step + 1;
    }

    /** The response is finished: the `finally` of `withLock`. */
    method ReleaseOnFinish(req: nat, token: nat)
      requires req in phases && phases[req].Finishing? && HoldsOwnKey(View(), req) && locks.holders[req].token == token
      modifies this, locks
      ensures View() == Step(old(View()), Finish(req))
      ensures phases == old(phases) - {req} && cache == old(cache)
      ensures var k := "lock:idempotency:" + old(phases)[req].key;
              k in locks.store && locks.now < locks.store[k].expiresAt ==> locks.store[k].token != token
    {
      KeyNameUnique(phases[req].key, phases[req].key);
      locks.ReleaseLock(req, "idempotency:" + phases[req].key, token);
      phases := phases - {req};
      step := step + 1;
    }
  }
}
