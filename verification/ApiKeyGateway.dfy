/**
  The per-API-key quota: a counter in a fixed window of one minute. The window is opened and
  the request counted in one atomic Redis transaction, so the counter always carries an
  expiry. The clock does not run backwards.
 */
module ApiKeyGateway {
  import opened Common

  const WINDOW_MS := 60 * 1000

  datatype Plan = FREE | PRO | ENTERPRISE

  /** An unknown plan falls back to PRO, whose figure is configured. */
  function RateLimitTier(plan: Option<Plan>, proLimit: int): int {
    match plan.GetOr(PRO)
    case FREE => 60
    case PRO => proLimit
    case ENTERPRISE => 1200
  }

  /** An override of 0 counts as none. */
  function EffectiveLimit(override_: Option<int>, plan: Option<Plan>, proLimit: int): int {
    if override_.Some? && override_.value != 0 then override_.value else RateLimitTier(plan, proLimit)
  }

  datatype Counter = Counter(count: nat, expiresAt: int)

  predicate Live(c: Option<Counter>, now: int) {
    c.Some? && now < c.value.expiresAt
  }

  /** `SET key 0 EX 60 NX` and `INCR key` in one transaction. */
  function Count(c: Option<Counter>, now: int): Counter {
    if Live(c, now) then c.value.(count := c.value.count + 1) else Counter(1, now + WINDOW_MS)
  }

  // ---- All requests of one key under one limit ----

  ghost predicate Sorted(times: seq<int>) {
    forall i, j :: 0 <= i < j < |times| ==> times[i] <= times[j]
  }

  function Last<T>(s: seq<T>): T
    requires s != []
  {
    s[|s| - 1]
  }

  function Init<T>(s: seq<T>): seq<T>
    requires s != []
  {
    s[..|s| - 1]
  }

  /** The counter after the requests at the given times. */
  function After(times: seq<int>): Option<Counter> {
    if times == [] then None else Some(Count(After(Init(times)), Last(times)))
  }

  /** Whether the last of these requests is admitted. */
  predicate LastAdmitted(limit: int, times: seq<int>)
    requires times != []
  {
    After(times).value.count <= limit
  }

  /** How many of the requests at times in [from, to) are admitted. */
  function AdmittedBetween(limit: int, times: seq<int>, from: int, to: int): nat {
    if times == [] then 0
    else AdmittedBetween(limit, Init(times), from, to)
         + if from <= Last(times) < to && LastAdmitted(limit, times) then 1 else 0
  }

  /** How many of the requests fall into the window that ends at `w`, and how many of them are admitted. */
  function RequestsIn(times: seq<int>, w: int): nat {
    if times == [] then 0
    else RequestsIn(Init(times), w) + if After(times).value.expiresAt == w then 1 else 0
  }

  function AdmittedIn(limit: int, times: seq<int>, w: int): nat {
    if times == [] then 0
    else AdmittedIn(limit, Init(times), w)
         + if After(times).value.expiresAt == w && LastAdmitted(limit, times) then 1 else 0
  }

  function Min(a: int, b: int): int {
    if a < b then a else b
  }

  function Max(a: int, b: int): int {
    if a < b then b else a
  }

  lemma SortedInit(times: seq<int>)
    requires Sorted(times) && times != []
    ensures Sorted(Init(times))
    ensures Init(times) != [] ==> Last(Init(times)) <= Last(times)
  {
    assert Init(times) != [] ==> Last(Init(times)) == times[|times| - 2];
  }

  /** The counter counts its own window, the newest one, and is gone a minute after it was opened. */
  lemma {:induction false} CounterIsNewestWindow(times: seq<int>)
    requires Sorted(times) && times != []
    ensures var c := After(times).value;
            && c.count == RequestsIn(times, c.expiresAt)
            && Last(times) < c.expiresAt <= Last(times) + 60_000
            && forall w :: w > c.expiresAt ==> RequestsIn(times, w) == 0
  {
    SortedInit(times);
    if Init(times) != [] {
      CounterIsNewestWindow(Init(times));
    }
  }

  /** Each window admits exactly its first `limit` requests. */
  lemma {:induction false} WindowAdmitsLimit(limit: int, times: seq<int>, w: int)
    requires Sorted(times)
    ensures AdmittedIn(limit, times, w) == Min(RequestsIn(times, w), Max(limit, 0))
  {
    if times != [] {
      SortedInit(times);
      WindowAdmitsLimit(limit, Init(times), w);
      CounterIsNewestWindow(times);
    }
  }

  /** Requests inside an open window leave its end where its first request put it. */
  lemma {:induction false} WindowEndIsFixed(times: seq<int>, more: seq<int>)
    requires times != [] && forall t :: t in more ==> t < After(times).value.expiresAt
    ensures After(times + more).value.expiresAt == After(times).value.expiresAt
    ensures After(times + more).value.count == After(times).value.count + |more|
  {
    if more == [] {
      assert times + more == times;
    } else {
      assert Last(more) in more && forall t :: t in Init(more) ==> t in more;
      assert Init(times + more) == times + Init(more);
      WindowEndIsFixed(times, Init(more));
    }
  }

  lemma Snoc(times: seq<int>, t: int)
    ensures times + [t] != [] && Init(times + [t]) == times && Last(times + [t]) == t
  {}

  /** The first request at or after the end of a window is admitted, and opens a window of its own. */
  lemma NextWindowAdmits(limit: int, times: seq<int>, now: int)
    requires limit >= 1 && (After(times).Some? ==> After(times).value.expiresAt <= now)
    ensures LastAdmitted(limit, times + [now])
    ensures After(times + [now]) == Some(Counter(1, now + WINDOW_MS))
  {
    Snoc(times, now);
    assert After(times + [now]) == Some(Count(After(times), now));
  }

  /**
    Whatever the state of the key after `times`, and however many requests keep coming: the
    first of them that comes once the open window is over is admitted, and that window is
    over a minute after the last of `times` at the latest.
   */
  lemma FirstBehindWindowIsAdmitted(limit: int, times: seq<int>, more: seq<int>, next: int)
    requires limit >= 1 && Sorted(times) && times != []
    requires (forall t :: t in more ==> t < After(times).value.expiresAt) && After(times).value.expiresAt <= next
    ensures LastAdmitted(limit, times + more + [next])
    ensures After(times).value.expiresAt <= Last(times) + 60_000
  {
    CounterIsNewestWindow(times);
    WindowEndIsFixed(times, more);
    NextWindowAdmits(limit, times + more, next);
  }

  /** The first place in `more` at or after `end`. */
  lemma {:induction false} FirstFrom(more: seq<int>, end: int) returns (k: nat)
    requires more != [] && end <= Last(more)
    ensures k < |more| && end <= more[k] && forall i :: 0 <= i < k ==> more[i] < end
  {
    if end <= more[0] {
      k := 0;
    } else {
      assert Last(more[1..]) == Last(more);
      var j := FirstFrom(more[1..], end);
      k := j + 1;
      assert forall i :: 0 < i < k ==> more[i] == more[1..][i - 1];
    }
  }

  /**
    No key stays rejected while requests keep coming: if one comes a minute or more after any
    request, admitted or not, some request on the way is admitted.
   */
  lemma NoKeyStaysRejected(limit: int, times: seq<int>, more: seq<int>)
    requires limit >= 1 && Sorted(times) && times != []
    requires more != [] && Last(times) + 60_000 <= Last(more)
    ensures exists k :: 0 < k <= |more| && LastAdmitted(limit, times + more[..k])
  {
    CounterIsNewestWindow(times);
    var k := FirstFrom(more, After(times).value.expiresAt);
    FirstBehindWindowIsAdmitted(limit, times, more[..k], more[k]);
    assert times + more[..k + 1] == times + more[..k] + [more[k]];
  }

  /**
    How much the windows that meet [from, from + 60 s) can have admitted so far: the window
    open at `from` was opened by a request before `from`, which is not counted.
   */
  lemma {:induction false} AdmissionsSoFar(limit: int, times: seq<int>, from: int)
    requires limit >= 1 && Sorted(times) && times != []
    ensures var c := After(times).value; var start := c.expiresAt - WINDOW_MS;
            var n := AdmittedBetween(limit, times, from, from + WINDOW_MS);
            && (Last(times) < from ==> n == 0)
            && (start < from ==> n <= Min(c.count, limit) - 1)
            && (from <= start < from + WINDOW_MS ==> n <= limit - 1 + Min(c.count, limit))
            && n <= 2 * limit - 1
            && c.count >= 1 && start <= Last(times) < c.expiresAt
  {
    SortedInit(times);
    if Init(times) == [] {
      assert AdmittedBetween(limit, Init(times), from, from + WINDOW_MS) == 0;
    } else {
      AdmissionsSoFar(limit, Init(times), from);
    }
  }

  /** Any minute admits at most twice the limit less one, and nothing at all without a positive limit. */
  lemma AnyMinuteAdmitsLessThanTwice(limit: int, times: seq<int>, from: int)
    requires Sorted(times)
    ensures AdmittedBetween(limit, times, from, from + 60_000) <= Max(2 * limit - 1, 0)
  {
    if limit < 1 {
      NothingAdmitted(limit, times, from, from + WINDOW_MS);
    } else if times != [] {
      AdmissionsSoFar(limit, times, from);
    }
  }

  lemma {:induction false} NothingAdmitted(limit: int, times: seq<int>, from: int, to: int)
    requires limit < 1
    ensures AdmittedBetween(limit, times, from, to) == 0
  {
    if times != [] {
      NothingAdmitted(limit, Init(times), from, to);
    }
  }

  function Repeat(t: int, n: nat): seq<int> {
    seq(n, _ => t)
  }

  /** Further requests at one moment inside an open window. */
  lemma {:induction false} RepeatInWindow(limit: int, times: seq<int>, t: int, n: nat, from: int)
    requires Live(After(times), t) && from <= t < from + WINDOW_MS
    requires After(times).value.count + n <= limit
    ensures After(times + Repeat(t, n)) == Some(After(times).value.(count := After(times).value.count + n))
    ensures AdmittedBetween(limit, times + Repeat(t, n), from, from + WINDOW_MS)
         == AdmittedBetween(limit, times, from, from + WINDOW_MS) + n
  {
    if n == 0 {
      assert times + Repeat(t, n) == times;
    } else {
      RepeatInWindow(limit, times, t, n - 1, from);
      assert Init(times + Repeat(t, n)) == times + Repeat(t, n - 1);
    }
  }

  /** After a first request, the others that the window admits come at its end. */
  lemma LateBurst(limit: int, first: seq<int>)
    requires limit >= 1 && After(first) == Some(Counter(1, WINDOW_MS)) && AdmittedBetween(limit, first, 1, 1 + WINDOW_MS) == 0
    ensures var times := first + Repeat(WINDOW_MS - 1, limit - 1);
            && After(times) == Some(Counter(limit, WINDOW_MS))
            && AdmittedBetween(limit, times, 1, 1 + WINDOW_MS) == limit - 1
  {
    RepeatInWindow(limit, first, WINDOW_MS - 1, limit - 1, 1);
  }

  lemma FirstRequest(limit: int)
    ensures After([0]) == Some(Counter(1, WINDOW_MS)) && AdmittedBetween(limit, [0], 1, 1 + WINDOW_MS) == 0
  {
    assert Init([0]) == [] && Last([0]) == 0;
  }

  lemma NextWindowOpens(limit: int, times: seq<int>)
    requires limit >= 1 && After(times) == Some(Counter(limit, WINDOW_MS))
    ensures After(times + [WINDOW_MS]) == Some(Counter(1, 2 * WINDOW_MS))
    ensures AdmittedBetween(limit, times + [WINDOW_MS], 1, 1 + WINDOW_MS) == AdmittedBetween(limit, times, 1, 1 + WINDOW_MS) + 1
  {
    NextWindowAdmits(limit, times, WINDOW_MS);
    assert Init(times + [WINDOW_MS]) == times;
  }

  /** The bound is met: a burst at the end of one window and another at the start of the next. */
  lemma TwiceLessOneIsReached(limit: int)
    requires limit >= 1
    ensures exists times :: Sorted(times) && AdmittedBetween(limit, times, 1, 60_001) == 2 * limit - 1
  {
    FirstRequest(limit);
    LateBurst(limit, [0]);
    var full := [0] + Repeat(WINDOW_MS - 1, limit - 1);
    NextWindowOpens(limit, full);
    var next := full + [WINDOW_MS];
    RepeatInWindow(limit, next, WINDOW_MS, limit - 1, 1);
    assert Sorted(next + Repeat(WINDOW_MS, limit - 1));
  }

  // ---- The counters of all keys ----

  class Gateway {
    var counters: map<string, Counter>

    constructor ()
      ensures counters == map[]
    {
      counters := map[];
    }

    ghost function Of(apiKeyId: string): Option<Counter>
      reads this
    {
      if apiKeyId in counters then Some(counters[apiKeyId]) else None
    }

    /** False is the `TooManyRequestsError`. Only the counter of this key changes. */
    method EnforceLimit(apiKeyId: string, now: int, plan: Option<Plan>, override_: Option<int>, proLimit: int)
      returns (allowed: bool)
      modifies this
      ensures Of(apiKeyId) == Some(Count(old(Of(apiKeyId)), now))
      ensures counters.Keys == old(counters).Keys + {apiKeyId}
      ensures forall k :: k in old(counters) && k != apiKeyId ==> counters[k] == old(counters)[k]
      ensures allowed <==> counters[apiKeyId].count <= EffectiveLimit(override_, plan, proLimit)
      ensures var fresh_ := apiKeyId !in old(counters) || old(counters)[apiKeyId].expiresAt <= now;
              && (fresh_ ==> counters[apiKeyId] == Counter(1, now + 60_000))
              && (!fresh_ ==> counters[apiKeyId] == Counter(old(counters)[apiKeyId].count + 1, old(counters)[apiKeyId].expiresAt))
      ensures override_.Some? && override_.value != 0 ==> (allowed <==> counters[apiKeyId].count <= override_.value)
      ensures override_ == None || override_ == Some(0) ==>
                && (plan == Some(FREE) ==> (allowed <==> counters[apiKeyId].count <= 60))
                && (plan == Some(ENTERPRISE) ==> (allowed <==> counters[apiKeyId].count <= 1200))
                && (plan == Some(PRO) || plan == None ==> (allowed <==> counters[apiKeyId].count <= proLimit))
    {
      if !(apiKeyId in counters && now < counters[apiKeyId].expiresAt) {
        counters := counters[apiKeyId := Counter(0, now + WINDOW_MS)];
      }
      counters := counters[apiKeyId := counters[apiKeyId].(count := counters[apiKeyId].count + 1)];
      var count := counters[apiKeyId].count;
      var limit := RateLimitTier(plan, proLimit);
      if override_.Some? && override_.value != 0 {
        limit := override_.value;
      }
      allowed := count <= limit;
    }
  }
}
