/**
  Scheduled jobs on several instances: each run takes the job's lock, makes up to three
  attempts with a pause after each failed one, and gives the lock back. An attempt is assumed
  to take at most `d` milliseconds and a pause to last exactly as long as asked for.
 */
module JobRunner {
  import opened Common
  import Lock = DistributedLock

  const MAX_ATTEMPTS := 3
  const BASE_BACKOFF_MS := 2000
  const JOB_LOCK_TTL_MS := 10 * 60 * 1000

  /** The pause after failed attempt `k`. */
  function Backoff(k: nat): nat
    requires k >= 1
  {
    BASE_BACKOFF_MS * Pow2(k - 1)
  }

  /** The latest start of attempt `k`, counted from taking the lock. */
  function LatestStart(k: nat, d: nat): nat
    requires k >= 1
  {
    if k == 1 then 0 else LatestStart(k - 1, d) + d + Backoff(k - 1)
  }

  datatype Phase = Attempting(attempt: nat, since: int) | Pausing(attempt: nat, since: int)

  /** The lock machine, and for every run that holds a lock what it is doing. */
  datatype State = State(lock: Lock.State, runs: map<nat, Phase>)

  datatype Event =
    | Tick(ms: nat)
    | Start(proc: nat, job: string, token: nat)
    | AttemptSucceeds(proc: nat)
    | AttemptFails(proc: nat)
    | Wake(proc: nat)
    | Crash(proc: nat)

  function JobKey(job: string): string {
    "scheduler:" + job
  }

  /** When the present phase of a run is over at the latest. */
  function Deadline(ph: Phase, d: nat): int
    requires ph.attempt >= 1
  {
    match ph
    case Attempting(_, since) => since + d
    case Pausing(k, since) => since + Backoff(k)
  }

  ghost predicate MayPass(s: State, d: nat, ms: nat) {
    forall p :: p in s.runs ==> s.runs[p].attempt >= 1 && s.lock.now + ms <= Deadline(s.runs[p], d)
  }

  predicate Attempts(s: State, p: nat) {
    p in s.runs && s.runs[p].Attempting?
  }

  function Done(s: State, p: nat): State {
    State(Lock.Step(s.lock, Lock.Release(p)), s.runs - {p})
  }

  ghost function Step(d: nat, s: State, e: Event): State {
    match e
    case Tick(ms) =>
      if MayPass(s, d, ms) then s.(lock := Lock.Step(s.lock, Lock.Tick(ms))) else s
    case Start(p, job, token) =>
      var e' := Lock.Acquire(p, JobKey(job), token, JOB_LOCK_TTL_MS);
      State(Lock.Step(s.lock, e'), if Lock.Granted(s.lock, e') then s.runs[p := Attempting(1, s.lock.now)] else s.runs)
    case AttemptSucceeds(p) => if Attempts(s, p) then Done(s, p) else s
    case AttemptFails(p) =>
      if !Attempts(s, p) then s
      else if s.runs[p].attempt == MAX_ATTEMPTS then Done(s, p)
      else s.(runs := s.runs[p := Pausing(s.runs[p].attempt, s.lock.now)])
    case Wake(p) =>
      if p in s.runs && s.runs[p].Pausing? && s.runs[p].attempt >= 1 && s.lock.now >= Deadline(s.runs[p], d)
      then s.(runs := s.runs[p := Attempting(s.runs[p].attempt + 1, s.lock.now)])
      else s
    case Crash(p) => if p in s.runs then State(Lock.Step(s.lock, Lock.Crash(p)), s.runs - {p}) else s
  }

  ghost function Exec(d: nat, s: State, es: seq<Event>): State {
    if es == [] then s else Step(d, Exec(d, s, es[..|es| - 1]), es[|es| - 1])
  }

  ghost predicate Init(s: State) {
    Lock.Init(s.lock) && s.runs == map[]
  }

  /** Every run is on schedule, counted from the moment it took its lock. */
  ghost predicate RunInv(d: nat, s: State, p: nat)
    requires p in s.runs && p in s.lock.holders
  {
    var ph, t0 := s.runs[p], s.lock.holders[p].since;
    && s.lock.holders[p].ttl == JOB_LOCK_TTL_MS
    && 1 <= ph.attempt <= MAX_ATTEMPTS && s.lock.now <= Deadline(ph, d)
    && (ph.Attempting? ==> ph.since <= t0 + LatestStart(ph.attempt, d))
    && (ph.Pausing? ==> ph.attempt < MAX_ATTEMPTS && ph.since <= t0 + LatestStart(ph.attempt, d) + d)
  }

  ghost predicate Inv(d: nat, s: State) {
    && Lock.Inv(s.lock)
    && s.runs.Keys == s.lock.holders.Keys
    && (forall p :: p in s.runs ==> RunInv(d, s, p))
  }

  /** A run that the step does not touch stays on schedule. */
  lemma UntouchedRun(d: nat, s: State, s': State, p: nat)
    requires p in s.runs && p in s.lock.holders && RunInv(d, s, p)
    requires p in s'.runs && p in s'.lock.holders
    requires s'.runs[p] == s.runs[p] && s'.lock.holders[p] == s.lock.holders[p] && s'.lock.now == s.lock.now
    ensures RunInv(d, s', p)
  {}

  lemma TickKeepsInv(d: nat, s: State, ms: nat)
    requires Inv(d, s)
    ensures Inv(d, Step(d, s, Tick(ms)))
  {
    Lock.StepKeepsInv(s.lock, Lock.Tick(ms));
    var s' := Step(d, s, Tick(ms));
    forall p | p in s'.runs
      ensures RunInv(d, s', p)
    {
      assert RunInv(d, s, p);
    }
  }

  lemma StartKeepsInv(d: nat, s: State, e: Event)
    requires Inv(d, s) && e.Start?
    ensures Inv(d, Step(d, s, e))
  {
    Lock.StepKeepsInv(s.lock, Lock.Acquire(e.proc, JobKey(e.job), e.token, JOB_LOCK_TTL_MS));
    var s' := Step(d, s, e);
    forall p | p in s'.runs
      ensures RunInv(d, s', p)
    {
      if p in s.runs {
        UntouchedRun(d, s, s', p);
      }
    }
  }

  lemma EndKeepsInv(d: nat, s: State, proc: nat, e: Lock.Event)
    requires Inv(d, s) && proc in s.runs && (e == Lock.Release(proc) || e == Lock.Crash(proc))
    ensures Inv(d, State(Lock.Step(s.lock, e), s.runs - {proc}))
  {
    Lock.StepKeepsInv(s.lock, e);
    var s' := State(Lock.Step(s.lock, e), s.runs - {proc});
    forall p | p in s'.runs
      ensures RunInv(d, s', p)
    {
      UntouchedRun(d, s, s', p);
    }
  }

  /** The lock is not touched, and one run is in another phase, on schedule. */
  lemma PhaseChangeKeepsInv(d: nat, s: State, s': State, p: nat)
    requires Inv(d, s) && p in s.runs && s'.lock == s.lock
    requires s'.runs.Keys == s.runs.Keys && forall q :: q in s.runs && q != p ==> s'.runs[q] == s.runs[q]
    requires RunInv(d, s', p)
    ensures Inv(d, s')
  {
    forall q | q in s'.runs
      ensures RunInv(d, s', q)
    {
      if q != p {
        UntouchedRun(d, s, s', q);
      }
    }
  }

  lemma PauseKeepsInv(d: nat, s: State, p: nat)
    requires Inv(d, s) && Attempts(s, p) && s.runs[p].attempt != MAX_ATTEMPTS
    ensures Inv(d, Step(d, s, AttemptFails(p)))
  {
    assert RunInv(d, s, p);
    PhaseChangeKeepsInv(d, s, Step(d, s, AttemptFails(p)), p);
  }

  lemma WakeKeepsInv(d: nat, s: State, p: nat)
    requires Inv(d, s)
    ensures Inv(d, Step(d, s, Wake(p)))
  {
    if p in s.runs {
      assert RunInv(d, s, p);
      PhaseChangeKeepsInv(d, s, Step(d, s, Wake(p)), p);
    }
  }

  lemma FailureKeepsInv(d: nat, s: State, p: nat)
    requires Inv(d, s)
    ensures Inv(d, Step(d, s, AttemptFails(p)))
  {
    if Attempts(s, p) {
      if s.runs[p].attempt == MAX_ATTEMPTS {
        EndKeepsInv(d, s, p, Lock.Release(p));
      } else {
        PauseKeepsInv(d, s, p);
      }
    }
  }

  lemma CrashKeepsInv(d: nat, s: State, p: nat)
    requires Inv(d, s)
    ensures Inv(d, Step(d, s, Crash(p)))
  {
    if p in s.runs {
      EndKeepsInv(d, s, p, Lock.Crash(p));
    }
  }

  lemma SuccessKeepsInv(d: nat, s: State, p: nat)
    requires Inv(d, s)
    ensures Inv(d, Step(d, s, AttemptSucceeds(p)))
  {
    if Attempts(s, p) {
      EndKeepsInv(d, s, p, Lock.Release(p));
    }
  }

  lemma StepKeepsInv(d: nat, s: State, e: Event)
    requires Inv(d, s)
    ensures Inv(d, Step(d, s, e))
  {
    match e
    case Tick(ms) => TickKeepsInv(d, s, ms);
    case Start(_, _, _) => StartKeepsInv(d, s, e);
    case Wake(p) => WakeKeepsInv(d, s, p);
    case AttemptSucceeds(p) => SuccessKeepsInv(d, s, p);
    case AttemptFails(p) => FailureKeepsInv(d, s, p);
    case Crash(p) => CrashKeepsInv(d, s, p);
  }

  lemma {:induction false} AlwaysInv(d: nat, s: State, es: seq<Event>)
    requires Inv(d, s)
    ensures Inv(d, Exec(d, s, es))
  {
    if es != [] {
      AlwaysInv(d, s, es[..|es| - 1]);
      StepKeepsInv(d, Exec(d, s, es[..|es| - 1]), es[|es| - 1]);
    }
  }

  /** Three attempts and the two pauses between them. */
  lemma RunTakesAtMost(d: nat, s: State, p: nat)
    requires Inv(d, s) && p in s.runs
    ensures s.lock.now <= s.lock.holders[p].since + 3 * d + 6000
  {
    assert RunInv(d, s, p);
    Pauses();
    assert LatestStart(2, d) == d + 2000 && LatestStart(3, d) == 2 * d + 6000;
  }

  /** At no time are two runs of one job under way. */
  ghost predicate OneRunPerJob(s: State) {
    forall p, q :: p in s.runs && q in s.runs && SameJob(s, p, q) ==> p == q
  }

  ghost predicate SameJob(s: State, p: nat, q: nat) {
    p in s.lock.holders && q in s.lock.holders && s.lock.holders[p].key == s.lock.holders[q].key
  }

  lemma ShortAttemptsOneRun(d: nat, s: State)
    requires Inv(d, s) && 3 * d + 6000 < JOB_LOCK_TTL_MS
    ensures OneRunPerJob(s)
  {
    forall p, q | p in s.runs && q in s.runs && SameJob(s, p, q)
      ensures p == q
    {
      RunTakesAtMost(d, s, p);
      RunTakesAtMost(d, s, q);
      assert RunInv(d, s, p) && RunInv(d, s, q);
      Lock.UnexpiredHolderIsUnique(s.lock, p, q);
    }
  }

  lemma {:induction false} ExecAppend(d: nat, s: State, es: seq<Event>, fs: seq<Event>)
    ensures Exec(d, s, es + fs) == Exec(d, Exec(d, s, es), fs)
  {
    if fs == [] {
      assert es + fs == es;
    } else {
      var n := |fs| - 1;
      ExecAppend(d, s, es, fs[..n]);
      assert (es + fs)[..|es| + n] == es + fs[..n];
    }
  }

  lemma ExecFour(d: nat, s: State, a: Event, b: Event, c: Event, e: Event)
    ensures Exec(d, s, [a, b, c, e]) == Step(d, Step(d, Step(d, Step(d, s, a), b), c), e)
  {
    assert [a, b, c, e][..3] == [a, b, c] && [a, b, c][..2] == [a, b] && [a, b][..1] == [a] && [a][..0] == [];
    assert Exec(d, s, [a]) == Step(d, s, a);
    assert Exec(d, s, [a, b]) == Step(d, Exec(d, s, [a]), b);
    assert Exec(d, s, [a, b, c]) == Step(d, Exec(d, s, [a, b]), c);
  }

  /** Instance 0 took the job's lock `age` milliseconds ago and is now in attempt `k`. */
  function InAttempt(job: string, t0: int, age: nat, k: nat): State {
    State(Lock.State(t0 + age, map[Lock.LockKey(JobKey(job)) := Lock.Entry(0, t0 + JOB_LOCK_TTL_MS)],
                     map[0 := Lock.Holder(JobKey(job), 0, t0, JOB_LOCK_TTL_MS)], {0}),
          map[0 := Attempting(k, t0 + age)])
  }

  const ATTEMPT := 198_000

  function FailedAttempt(pause: nat): seq<Event> {
    [Tick(ATTEMPT), AttemptFails(0), Tick(pause), Wake(0)]
  }

  /** The same with instance 0 in the pause after its failed attempt `k`. */
  function InPause(job: string, t0: int, failedAt: nat, age: nat, k: nat): State {
    InAttempt(job, t0, age, k).(runs := map[0 := Pausing(k, t0 + failedAt)])
  }

  lemma AttemptFailsLate(d: nat, job: string, t0: int, age: nat, k: nat)
    requires d >= ATTEMPT && 1 <= k < MAX_ATTEMPTS
    ensures Step(d, Step(d, InAttempt(job, t0, age, k), Tick(ATTEMPT)), AttemptFails(0))
         == InPause(job, t0, age + ATTEMPT, age + ATTEMPT, k)
  {
    var s := InAttempt(job, t0, age, k);
    assert Step(d, s, Tick(ATTEMPT)) == s.(lock := s.lock.(now := t0 + age + ATTEMPT));
  }

  lemma PauseEnds(d: nat, job: string, t0: int, age: nat, k: nat)
    requires 1 <= k < MAX_ATTEMPTS
    ensures Step(d, Step(d, InPause(job, t0, age, age, k), Tick(Backoff(k))), Wake(0))
         == InAttempt(job, t0, age + Backoff(k), k + 1)
  {
    assert Step(d, InPause(job, t0, age, age, k), Tick(Backoff(k))) == InPause(job, t0, age, age + Backoff(k), k);
  }

  lemma FailedAttemptLeadsOn(d: nat, job: string, t0: int, age: nat, k: nat)
    requires d >= ATTEMPT && 1 <= k < MAX_ATTEMPTS
    ensures Exec(d, InAttempt(job, t0, age, k), FailedAttempt(Backoff(k)))
         == InAttempt(job, t0, age + ATTEMPT + Backoff(k), k + 1)
  {
    ExecFour(d, InAttempt(job, t0, age, k), Tick(ATTEMPT), AttemptFails(0), Tick(Backoff(k)), Wake(0));
    AttemptFailsLate(d, job, t0, age, k);
    PauseEnds(d, job, t0, age + ATTEMPT, k);
  }

  /** Three attempts of 198 seconds: the third is still running when the lock expires. */
  function TwoFailures(job: string): seq<Event> {
    [Start(0, job, 0)] + FailedAttempt(Backoff(1)) + FailedAttempt(Backoff(2))
  }

  function LongRun(job: string): seq<Event> {
    TwoFailures(job) + [Tick(ATTEMPT)] + [Start(1, job, 1)]
  }

  lemma JobStarts(d: nat, s: State, job: string)
    requires Init(s)
    ensures Exec(d, s, [Start(0, job, 0)]) == InAttempt(job, s.lock.now, 0, 1)
  {
    assert [Start(0, job, 0)][..0] == [];
  }

  lemma Continued(d: nat, s: State, es: seq<Event>, fs: seq<Event>, mid: State, end: State)
    requires Exec(d, s, es) == mid && Exec(d, mid, fs) == end
    ensures Exec(d, s, es + fs) == end
  {
    ExecAppend(d, s, es, fs);
  }

  lemma Pauses()
    ensures Backoff(1) == 2000 && Backoff(2) == 4000
  {
    assert Pow2(0) == 1 && Pow2(1) == 2;
  }

  lemma InThirdAttempt(d: nat, s: State, job: string)
    requires Init(s) && d >= ATTEMPT
    ensures Exec(d, s, TwoFailures(job)) == InAttempt(job, s.lock.now, 402_000, 3)
  {
    var t0, e0, e1, e2 := s.lock.now, [Start(0, job, 0)], FailedAttempt(Backoff(1)), FailedAttempt(Backoff(2));
    Pauses();
    JobStarts(d, s, job);
    FailedAttemptLeadsOn(d, job, t0, 0, 1);
    Continued(d, s, e0, e1, InAttempt(job, t0, 0, 1), InAttempt(job, t0, 200_000, 2));
    FailedAttemptLeadsOn(d, job, t0, 200_000, 2);
    Continued(d, s, e0 + e1, e2, InAttempt(job, t0, 200_000, 2), InAttempt(job, t0, 402_000, 3));
  }

  lemma ExecSnoc(d: nat, s: State, es: seq<Event>, e: Event)
    ensures Exec(d, s, es + [e]) == Step(d, Exec(d, s, es), e)
  {
    assert (es + [e])[..|es|] == es;
  }

  lemma LongRunIsDoubled(d: nat, s: State, job: string)
    requires Init(s) && d >= ATTEMPT
    ensures !OneRunPerJob(Exec(d, s, LongRun(job)))
  {
    InThirdAttempt(d, s, job);
    ExecSnoc(d, s, TwoFailures(job), Tick(ATTEMPT));
    ExecSnoc(d, s, TwoFailures(job) + [Tick(ATTEMPT)], Start(1, job, 1));
    LastAttemptIsJoined(d, job, s.lock.now);
  }

  lemma LastAttemptIsJoined(d: nat, job: string, t0: int)
    requires d >= ATTEMPT
    ensures !OneRunPerJob(Step(d, Step(d, InAttempt(job, t0, 402_000, 3), Tick(ATTEMPT)), Start(1, job, 1)))
  {
    var s := InAttempt(job, t0, 402_000, 3);
    var s' := Step(d, s, Tick(ATTEMPT));
    assert s' == s.(lock := s.lock.(now := t0 + 600_000));
    var end := Step(d, s', Start(1, job, 1));
    assert 0 in end.runs && 1 in end.runs && SameJob(end, 0, 1);
  }

  ghost predicate OneRunPerJobAfter(d: nat, s: State, es: seq<Event>) {
    OneRunPerJob(Exec(d, s, es))
  }

  /** Two instances never run one job at once, in any run, exactly if 3d + 6000 stays below the lock's time. */
  lemma NoDoubleRunIff(d: nat, s: State)
    requires Init(s)
    ensures (forall es :: OneRunPerJobAfter(d, s, es)) <==> 3 * d + 6000 < 600_000
  {
    if 3 * d + 6000 < JOB_LOCK_TTL_MS {
      forall es
        ensures OneRunPerJobAfter(d, s, es)
      {
        AlwaysInv(d, s, es);
        ShortAttemptsOneRun(d, Exec(d, s, es));
      }
    } else {
      LongRunIsDoubled(d, s, "job");
      assert !OneRunPerJobAfter(d, s, LongRun("job"));
    }
  }

  // ---- What a run does, step by step, and who is skipped ----

  lemma RunPhase(d: nat, s: State, es: seq<Event>, p: nat)
    requires Init(s) && p in Exec(d, s, es).runs
    ensures p in Exec(d, s, es).lock.holders && 1 <= Exec(d, s, es).runs[p].attempt <= 3
    ensures Exec(d, s, es).runs[p].Pausing? ==> Exec(d, s, es).runs[p].attempt < 3
  {
    AlwaysInv(d, s, es);
    assert RunInv(d, Exec(d, s, es), p);
  }

  /** A run ends with its first success, with its third failure, or with its process, and in no other way. */
  lemma RunEndsIff(d: nat, s: State, es: seq<Event>, p: nat, e: Event)
    requires Init(s) && p in Exec(d, s, es).runs
    ensures p !in Step(d, Exec(d, s, es), e).runs
       <==> e == Crash(p)
            || (Attempts(Exec(d, s, es), p)
                && (e == AttemptSucceeds(p) || (e == AttemptFails(p) && Exec(d, s, es).runs[p].attempt == 3)))
  {
    RunPhase(d, s, es, p);
  }

  /** After the first and the second failure there is a pause, then the next attempt, and no earlier. */
  lemma NextAttemptIff(d: nat, s: State, es: seq<Event>, p: nat)
    requires Init(s) && p in Exec(d, s, es).runs
    ensures var st := Exec(d, s, es); var ph := st.runs[p];
            && (ph.Attempting? && ph.attempt < 3 ==>
                  Step(d, st, AttemptFails(p)).runs == st.runs[p := Pausing(ph.attempt, st.lock.now)])
            && (ph.Pausing? ==>
                  Step(d, st, Wake(p)).runs
                    == if st.lock.now >= ph.since + (if ph.attempt == 1 then 2000 else 4000)
                       then st.runs[p := Attempting(ph.attempt + 1, st.lock.now)] else st.runs)
  {
    RunPhase(d, s, es, p);
    Pauses();
  }

  /** The end of a run, unless its process died, frees the job for the next instance. */
  lemma EndFreesJob(d: nat, s: State, es: seq<Event>, p: nat, e: Event)
    requires Init(s) && p in Exec(d, s, es).runs && e != Crash(p) && p !in Step(d, Exec(d, s, es), e).runs
    ensures p in Exec(d, s, es).lock.holders
    ensures var before, after := Exec(d, s, es).lock, Step(d, Exec(d, s, es), e).lock; var h := before.holders[p];
            Lock.Unexpired(h, before.now) ==> "lock:" + h.key !in after.store
  {
    RunEndsIff(d, s, es, p, e);
    RunPhase(d, s, es, p);
    AlwaysInv(d, s, es);
    assert Lock.HolderInv(Exec(d, s, es).lock, p);
  }

  /** The step starts a run of the job, under the job's own lock. */
  ghost predicate StartsRun(d: nat, s: State, e: Event, job: string) {
    && e.Start? && e.job == job && e.proc !in s.runs
    && e.proc in Step(d, s, e).runs && Step(d, s, e).runs[e.proc] == Attempting(1, s.lock.now)
    && e.proc in Step(d, s, e).lock.holders && Step(d, s, e).lock.holders[e.proc].key == "scheduler:" + job
  }

  ghost predicate Started(d: nat, s: State, es: seq<Event>, n: int, job: string) {
    0 <= n < |es| && StartsRun(d, Exec(d, s, es[..n]), es[n], job)
  }

  lemma JobKeyUnique(job: string, job': string)
    ensures "lock:scheduler:" + job == Lock.LockKey(JobKey(job')) <==> job == job'
  {
    var k, k' := "lock:scheduler:" + job, Lock.LockKey(JobKey(job'));
    assert k[|"lock:scheduler:"|..] == job && k'[|"lock:scheduler:"|..] == job';
    assert job == job' ==> k == k';
  }

  lemma OnlyStartsLock(d: nat, s: State, e: Event, k: string)
    requires k in Step(d, s, e).lock.store && (k in s.lock.store ==> s.lock.store[k] != Step(d, s, e).lock.store[k])
    ensures e.Start? && k == Lock.LockKey(JobKey(e.job))
    ensures Lock.Granted(s.lock, Lock.Acquire(e.proc, JobKey(e.job), e.token, 600_000))
    ensures Step(d, s, e).lock.store[k].expiresAt == s.lock.now + 600_000
  {}

  lemma EntryIsNew(d: nat, s: State, e: Event, job: string)
    requires Inv(d, s) && "lock:scheduler:" + job in Step(d, s, e).lock.store
    requires var k := "lock:scheduler:" + job; k in s.lock.store ==> s.lock.store[k] != Step(d, s, e).lock.store[k]
    ensures StartsRun(d, s, e, job)
    ensures Step(d, s, e).lock.store["lock:scheduler:" + job].expiresAt == s.lock.now + 600_000
  {
    OnlyStartsLock(d, s, e, "lock:scheduler:" + job);
    JobKeyUnique(job, e.job);
  }

  lemma {:induction false} EntryHasStarter(d: nat, s: State, es: seq<Event>, job: string) returns (n: int)
    requires Init(s) && "lock:scheduler:" + job in Exec(d, s, es).lock.store
    ensures Started(d, s, es, n, job)
    ensures Exec(d, s, es).lock.store["lock:scheduler:" + job].expiresAt == Exec(d, s, es[..n]).lock.now + 600_000
  {
    var k := "lock:scheduler:" + job;
    var front, e := es[..|es| - 1], es[|es| - 1];
    var before, end := Exec(d, s, front), Exec(d, s, es);
    if k in before.lock.store && before.lock.store[k] == end.lock.store[k] {
      n := EntryHasStarter(d, s, front, job);
      assert front[..n] == es[..n];
    } else {
      n := |es| - 1;
      AlwaysInv(d, s, front);
      EntryIsNew(d, before, e, job);
    }
  }

  /** An instance skips a job only because a run of the same job was started less than ten minutes before. */
  lemma SkippedOnlyForSameJob(d: nat, s: State, es: seq<Event>, p: nat, job: string, token: nat)
    requires Init(s) && p !in Exec(d, s, es).runs && token !in Exec(d, s, es).lock.used
    requires !StartsRun(d, Exec(d, s, es), Start(p, job, token), job)
    ensures exists n :: Started(d, s, es, n, job) && Exec(d, s, es).lock.now < Exec(d, s, es[..n]).lock.now + 600_000
  {
    AlwaysInv(d, s, es);
    JobKeyUnique(job, job);
    var n := EntryHasStarter(d, s, es, job);
  }

  // ---- The attempt loop of one run ----

  datatype Outcome = Outcome(ok: bool, took: nat)

  /** The time until the end of attempt `n`, the pauses before it included. */
  function RunTime(script: nat -> Outcome, n: nat): nat {
    if n == 0 then 0
    else RunTime(script, n - 1) + (if n == 1 then 0 else Backoff(n - 1)) + script(n).took
  }

  lemma RunTimes(script: nat -> Outcome)
    ensures RunTime(script, 1) == script(1).took
    ensures RunTime(script, 2) == script(1).took + 2000 + script(2).took
    ensures RunTime(script, 3) == script(1).took + 2000 + script(2).took + 4000 + script(3).took
  {
    Pauses();
    assert RunTime(script, 0) == 0;
  }

  /** The loop stops at the first success, and after three failures in silence. */
  method RunAttempts(script: nat -> Outcome) returns (made: nat, elapsed: nat)
    ensures 1 <= made <= MAX_ATTEMPTS && elapsed == RunTime(script, made)
    ensures forall k :: 1 <= k < made ==> !script(k).ok
    ensures script(made).ok || made == 3
    ensures elapsed == script(1).took + (if made >= 2 then 2000 + script(2).took else 0) + (if made == 3 then 4000 + script(3).took else 0)
  {
    RunTimes(script);
    made, elapsed := 0, 0;
    for attempt := 1 to MAX_ATTEMPTS + 1
      invariant made == attempt - 1 && attempt <= MAX_ATTEMPTS
      invariant forall k :: 1 <= k < attempt ==> !script(k).ok
      invariant elapsed == RunTime(script, made) + if attempt == 1 then 0 else Backoff(made)
    {
      made := attempt;
      elapsed := elapsed + script(attempt).took;
      if script(attempt).ok {
        return;
      }
      if attempt == MAX_ATTEMPTS {
        return;
      }
      elapsed := elapsed + BASE_BACKOFF_MS * Pow2(attempt - 1);
    }
  }

  /** The latest start of an attempt is what the loop makes of attempts of full length. */
  lemma {:induction false} RunTimeWithinSchedule(script: nat -> Outcome, d: nat, n: nat)
    requires forall k :: 1 <= k <= n ==> script(k).took <= d
    requires n >= 1
    ensures RunTime(script, n) <= LatestStart(n, d) + d
    ensures (forall k :: 1 <= k <= n ==> script(k).took == d) ==> RunTime(script, n) == LatestStart(n, d) + d
  {
    if n == 1 {
      assert RunTime(script, 0) == 0;
    } else {
      RunTimeWithinSchedule(script, d, n - 1);
    }
  }
}
