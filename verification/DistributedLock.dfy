/**
  The lock on one Redis: `SET key token PX ttl NX` to take it, compare-and-delete to give it
  back, expiry by the clock. Redis is up in every run considered here, and its clock does not
  run backwards.
 */
module DistributedLock {
  import opened Common

  datatype Entry = Entry(token: nat, expiresAt: int)

  type Store = map<string, Entry>

  const LOCK_KEY_PREFIX := "lock:"

  function LockKey(key: string): string {
    LOCK_KEY_PREFIX + key
  }

  // ---- The two Redis commands ----

  predicate Live(store: Store, k: string, now: int) {
    k in store && now < store[k].expiresAt
  }

  function SetNx(store: Store, k: string, token: nat, ttl: nat, now: int): Store {
    if Live(store, k, now) then store else store[k := Entry(token, now + ttl)]
  }

  function CompareAndDelete(store: Store, k: string, token: nat, now: int): Store {
    if Live(store, k, now) && store[k].token == token then store - {k} else store
  }

  // ---- Runs ----

  /** A process between taking a lock and giving it back. */
  datatype Holder = Holder(key: string, token: nat, since: int, ttl: nat)

  /** `used` are the tokens drawn so far: a fresh random token is none of them. */
  datatype State = State(now: int, store: Store, holders: map<nat, Holder>, used: set<nat>)

  datatype Event =
    | Tick(ms: nat)
    | Acquire(proc: nat, key: string, token: nat, ttl: nat)
    | Release(proc: nat)
    | Crash(proc: nat)

  predicate CanTry(s: State, proc: nat, token: nat, ttl: nat) {
    proc !in s.holders && token !in s.used && ttl > 0
  }

  predicate Granted(s: State, e: Event)
    requires e.Acquire?
  {
    CanTry(s, e.proc, e.token, e.ttl) && !Live(s.store, LockKey(e.key), s.now)
  }

  function Step(s: State, e: Event): State {
    match e
    case Tick(ms) => s.(now := s.now + ms)
    case Acquire(proc, key, token, ttl) =>
      if !CanTry(s, proc, token, ttl) then s
      else
        s.(store := SetNx(s.store, LockKey(key), token, ttl, s.now), used := s.used + {token},
           holders := if Live(s.store, LockKey(key), s.now) then s.holders
                      else s.holders[proc := Holder(key, token, s.now, ttl)])
    case Release(proc) =>
      if proc !in s.holders then s
      else
        var h := s.holders[proc];
        s.(store := CompareAndDelete(s.store, LockKey(h.key), h.token, s.now), holders := s.holders - {proc})
    case Crash(proc) => s.(holders := s.holders - {proc})
  }

  function Exec(s: State, es: seq<Event>): State {
    if es == [] then s else Step(Exec(s, es[..|es| - 1]), es[|es| - 1])
  }

  ghost predicate Init(s: State) {
    s.store == map[] && s.holders == map[] && s.used == {}
  }

  predicate Unexpired(h: Holder, now: int) {
    now < h.since + h.ttl
  }

  lemma LockKeyUnique(k: string, k': string)
    requires LockKey(k) == LockKey(k')
    ensures k == k'
  {
    assert k == LockKey(k)[|LOCK_KEY_PREFIX|..];
    assert k' == LockKey(k')[|LOCK_KEY_PREFIX|..];
  }

  /** Until its time is over, a holder's entry is the one in the store. */
  ghost predicate HolderInv(s: State, p: nat)
    requires p in s.holders
  {
    var h := s.holders[p];
    && h.token in s.used && h.since <= s.now
    && (Unexpired(h, s.now) ==> LockKey(h.key) in s.store
                                && s.store[LockKey(h.key)] == Entry(h.token, h.since + h.ttl))
  }

  /** Of two holders of one key, one took the lock when the other had outlived its time. */
  ghost predicate Disjoint(h: Holder, g: Holder) {
    h.token != g.token && (h.key == g.key ==> h.since + h.ttl <= g.since || g.since + g.ttl <= h.since)
  }

  ghost predicate Inv(s: State) {
    && (forall p :: p in s.holders ==> HolderInv(s, p))
    && (forall p, q :: p in s.holders && q in s.holders && p != q ==> Disjoint(s.holders[p], s.holders[q]))
    && (forall k :: k in s.store ==> s.store[k].token in s.used)
  }

  lemma AcquireKeepsInv(s: State, e: Event)
    requires Inv(s) && e.Acquire? && CanTry(s, e.proc, e.token, e.ttl)
    ensures Inv(Step(s, e))
  {
    var s' := Step(s, e);
    forall p | p in s'.holders
      ensures HolderInv(s', p)
    {
      assert p in s.holders ==> HolderInv(s, p);
    }
    forall p | p in s.holders && p != e.proc && Granted(s, e)
      ensures Disjoint(s.holders[p], Holder(e.key, e.token, s.now, e.ttl))
    {
      assert HolderInv(s, p);
    }
    forall p, q | p in s'.holders && q in s'.holders && p != q
      ensures Disjoint(s'.holders[p], s'.holders[q])
    {
      assert p in s.holders && q in s.holders ==> Disjoint(s.holders[p], s.holders[q]);
    }
  }

  lemma ReleaseKeepsInv(s: State, p: nat)
    requires Inv(s) && p in s.holders
    ensures Inv(Step(s, Release(p)))
  {
    var s' := Step(s, Release(p));
    forall q | q in s'.holders
      ensures HolderInv(s', q)
    {
      assert HolderInv(s, q) && Disjoint(s.holders[p], s.holders[q]);
    }
    forall q, r | q in s'.holders && r in s'.holders && q != r
      ensures Disjoint(s'.holders[q], s'.holders[r])
    {
      assert Disjoint(s.holders[q], s.holders[r]);
    }
  }

  lemma StepKeepsInv(s: State, e: Event)
    requires Inv(s)
    ensures Inv(Step(s, e))
  {
    match e
    case Acquire(proc, _, token, ttl) =>
      if CanTry(s, proc, token, ttl) { AcquireKeepsInv(s, e); }
    case Release(p) =>
      if p in s.holders { ReleaseKeepsInv(s, p); }
    case _ =>
      var s' := Step(s, e);
      forall p | p in s'.holders
        ensures HolderInv(s', p)
      {
        assert HolderInv(s, p);
      }
      forall p, q | p in s'.holders && q in s'.holders && p != q
        ensures Disjoint(s'.holders[p], s'.holders[q])
      {
        assert Disjoint(s.holders[p], s.holders[q]);
      }
  }

  lemma {:induction false} AlwaysInv(s: State, es: seq<Event>)
    requires Inv(s)
    ensures Inv(Exec(s, es))
  {
    if es != [] {
      AlwaysInv(s, es[..|es| - 1]);
      StepKeepsInv(Exec(s, es[..|es| - 1]), es[|es| - 1]);
    }
  }

  /** Two holders of one key overlap only if the one that came first outlived its time. */
  lemma OverlapNeedsExpiry(s: State, es: seq<Event>, p: nat, q: nat)
    requires Init(s)
    requires p in Exec(s, es).holders && q in Exec(s, es).holders && p != q
    requires Exec(s, es).holders[p].key == Exec(s, es).holders[q].key
    requires Exec(s, es).holders[p].since <= Exec(s, es).holders[q].since
    ensures Exec(s, es).holders[p].since + Exec(s, es).holders[p].ttl <= Exec(s, es).holders[q].since
  {
    AlwaysInv(s, es);
    assert HolderInv(Exec(s, es), p) && HolderInv(Exec(s, es), q);
    assert Disjoint(Exec(s, es).holders[p], Exec(s, es).holders[q]);
    TtlsPositive(s, es);
  }

  lemma {:induction false} TtlsPositive(s: State, es: seq<Event>)
    requires Init(s)
    ensures forall p :: p in Exec(s, es).holders ==> Exec(s, es).holders[p].ttl > 0
  {
    if es != [] {
      TtlsPositive(s, es[..|es| - 1]);
    }
  }

  /** Among holders whose time is not over there is one per key. */
  lemma UnexpiredHolderIsUnique(s: State, p: nat, q: nat)
    requires Inv(s) && p in s.holders && q in s.holders && s.holders[p].key == s.holders[q].key
    requires Unexpired(s.holders[p], s.now) && Unexpired(s.holders[q], s.now)
    ensures p == q
  {
    assert HolderInv(s, p) && HolderInv(s, q);
    assert p != q ==> Disjoint(s.holders[p], s.holders[q]);
  }

  /** A release removes the releaser's own entry and leaves every entry of another token alone. */
  lemma ReleaseRemovesOwnEntryOnly(s: State, es: seq<Event>, p: nat)
    requires Init(s) && p in Exec(s, es).holders
    ensures var before := Exec(s, es); var after := Step(before, Release(p)); var h := before.holders[p];
            && (forall k :: k in before.store && before.store[k].token != h.token ==>
                              k in after.store && after.store[k] == before.store[k])
            && (Unexpired(h, before.now) ==> LockKey(h.key) !in after.store)
            && (forall q :: q in after.holders && Unexpired(after.holders[q], after.now) ==>
                  LockKey(after.holders[q].key) in after.store
                  && after.store[LockKey(after.holders[q].key)].token == after.holders[q].token)
  {
    AlwaysInv(s, es);
    var before := Exec(s, es);
    assert HolderInv(before, p);
    ReleaseKeepsInv(before, p);
    var after := Step(before, Release(p));
    forall q | q in after.holders && Unexpired(after.holders[q], after.now)
      ensures LockKey(after.holders[q].key) in after.store
      ensures after.store[LockKey(after.holders[q].key)].token == after.holders[q].token
    {
      assert HolderInv(after, q);
    }
  }

  /** The lock key that a step is about, if it is about one. */
  function KeyOf(s: State, e: Event): Option<string> {
    match e
    case Acquire(_, key, _, _) => Some(key)
    case Release(p) => if p in s.holders then Some(s.holders[p].key) else None
    case _ => None
  }

  /** Locks of different keys do not meet: a step about one leaves the entry of every other as it was. */
  lemma KeysAreIndependent(s: State, e: Event, key: string)
    requires KeyOf(s, e) != Some(key)
    ensures var k := LockKey(key);
            && (k in Step(s, e).store <==> k in s.store)
            && (k in s.store ==> Step(s, e).store[k] == s.store[k])
  {
    var about := KeyOf(s, e);
    if about.Some? && LockKey(about.value) == LockKey(key) {
      LockKeyUnique(about.value, key);
    }
  }

  /** The Redis keys under the lock prefix, changed in place; who holds what is a record. */
  class RedisLocks {
    var now: int
    var store: Store
    ghost var holders: map<nat, Holder>
    ghost var used: set<nat>

    ghost function View(): State
      reads this
    {
      State(now, store, holders, used)
    }

    constructor (now: int)
      ensures this.now == now && Init(View())
    {
      this.now := now;
      store, holders, used := map[], map[], {};
    }

    /** `withLock` up to the call of the protected function; false is `{ ran: false }`. */
    method AcquireLock(ghost proc: nat, key: string, token: nat, ttlMs: nat) returns (acquired: bool)
      requires CanTry(View(), proc, token, ttlMs)
      modifies this
      ensures View() == Step(old(View()), Acquire(proc, key, token, ttlMs))
      ensures acquired <==> Granted(old(View()), Acquire(proc, key, token, ttlMs))
      ensures var k := "lock:" + key;
              && (acquired <==> !(k in old(store) && now < old(store)[k].expiresAt))
              && store == if acquired then old(store)[k := Entry(token, now + ttlMs)] else old(store)
    {
      var lockKey := LOCK_KEY_PREFIX + key;
      used := used + {token};
      if lockKey in store && now < store[lockKey].expiresAt {
        return false;
      }
      store := store[lockKey := Entry(token, now + ttlMs)];
      holders := holders[proc := Holder(key, token, now, ttlMs)];
      return true;
    }

    /** The `finally` of `withLock`: reached whether the protected function returned or threw. */
    method ReleaseLock(ghost proc: nat, key: string, token: nat)
      requires proc in holders && holders[proc].key == key && holders[proc].token == token
      modifies this
      ensures View() == Step(old(View()), Release(proc))
      ensures var k := "lock:" + key;
              store == if k in old(store) && now < old(store)[k].expiresAt && old(store)[k].token == token then old(store) - {k} else old(store)
    {
      var lockKey := LOCK_KEY_PREFIX + key;
      if lockKey in store && now < store[lockKey].expiresAt && store[lockKey].token == token {
        store := store - {lockKey};
      }
      holders := holders - {proc};
    }
  }
}
