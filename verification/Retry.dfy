/**
  The retry loop: up to `attempts` invocations with capped exponential pauses between them,
  stopped by the first success or by an error that is not worth repeating.
 */
module Retry {
  import opened Common
  import opened Policies

  /** What the k-th invocation would do, and how long it would take. */
  datatype Attempt = Success(took: nat) | Failure(retryable: bool, took: nat)

  type Script = nat -> Attempt

  /** `Threw` without an invocation is the `throw undefined` after a loop that never ran. */
  datatype Result = Returned(invoked: nat, elapsed: nat) | Threw(invoked: nat, elapsed: nat)

  function Capped(p: Policy, d: nat): nat {
    match p.maxDelayMs
    case None => d
    case Some(m) => if m < d then m else d
  }

  /** The pause after failed invocation `k`. */
  function Delay(p: Policy, k: nat): nat
    requires k >= 1
  {
    Capped(p, p.baseDelayMs * Pow2(k - 1))
  }

  function DelaysUpTo(p: Policy, n: nat): nat {
    if n == 0 then 0 else DelaysUpTo(p, n - 1) + Delay(p, n)
  }

  function TookUpTo(script: Script, n: nat): nat {
    if n == 0 then 0 else TookUpTo(script, n - 1) + script(n).took
  }

  /** The number of invocations allowed. */
  function Allowed(p: Policy): nat {
    if p.attempts < 0 then 0 else p.attempts
  }

  predicate GoesOn(a: Attempt) {
    a.Failure? && a.retryable
  }

  /** The invocation that ends the loop, if the attempts do not run out before. */
  predicate EndsAt(script: Script, p: Policy, n: nat) {
    n <= Allowed(p) && (n < Allowed(p) ==> n >= 1 && !GoesOn(script(n))) && forall k :: 1 <= k < n ==> GoesOn(script(k))
  }

  method WithRetry(script: Script, p: Policy) returns (r: Result)
    ensures EndsAt(script, p, r.invoked)
    ensures r.Returned? <==> r.invoked >= 1 && script(r.invoked).Success?
    ensures r.elapsed == TookUpTo(script, r.invoked) + if r.invoked == 0 then 0 else DelaysUpTo(p, r.invoked - 1)
  {
    var elapsed := 0;
    var attempt := 1;
    while attempt <= p.attempts
      invariant 1 <= attempt && (attempt <= Allowed(p) || (attempt == 1 && Allowed(p) == 0))
      invariant forall k :: 1 <= k < attempt ==> GoesOn(script(k))
      invariant elapsed == TookUpTo(script, attempt - 1) + DelaysUpTo(p, attempt - 1)
      decreases p.attempts - attempt
    {
      var outcome := script(attempt);
      elapsed := elapsed + outcome.took;
      if outcome.Success? {
        return Returned(attempt, elapsed);
      }
      var isLastAttempt := attempt == p.attempts;
      if !outcome.retryable || isLastAttempt {
        return Threw(attempt, elapsed);
      }
      elapsed := elapsed + Delay(p, attempt);
      attempt := attempt + 1;
    }
    return Threw(0, 0);
  }

  lemma EndIsUnique(script: Script, p: Policy, m: nat, n: nat)
    requires EndsAt(script, p, m) && EndsAt(script, p, n)
    ensures m == n
  {}

  /** A pause is the base delay doubled once for each failure before, and never above the cap. */
  lemma DelayWithinCap(p: Policy, k: nat)
    requires k >= 1
    ensures p.maxDelayMs.None? ==> Delay(p, k) == p.baseDelayMs * Pow2(k - 1)
    ensures p.maxDelayMs.Some? ==> Delay(p, k) <= p.maxDelayMs.value && Delay(p, k) <= p.baseDelayMs * Pow2(k - 1)
    ensures p.maxDelayMs.Some? ==> Delay(p, k) == p.maxDelayMs.value || Delay(p, k) == p.baseDelayMs * Pow2(k - 1)
  {}

  /** The pauses double from one to the next until they reach the cap, and stay there. */
  lemma DelayDoublesToCap(p: Policy, k: nat)
    requires k >= 1
    ensures Delay(p, 1) == Capped(p, p.baseDelayMs)
    ensures Delay(p, k + 1) == Capped(p, 2 * Delay(p, k))
  {
    assert Pow2(0) == 1 && Pow2(k) == 2 * Pow2(k - 1);
    Doubled(p.baseDelayMs, Pow2(k - 1));
  }

  lemma Doubled(b: nat, n: nat)
    ensures b * (2 * n) == 2 * (b * n)
  {}

  lemma {:induction false} DelaysGrow(p: Policy, m: nat, n: nat)
    requires m <= n
    ensures DelaysUpTo(p, m) <= DelaysUpTo(p, n)
  {
    if m < n {
      DelaysGrow(p, m, n - 1);
    }
  }

  lemma {:induction false} TookAtMost(script: Script, n: nat, t: nat)
    requires forall k :: 1 <= k <= n ==> script(k).took <= t
    ensures TookUpTo(script, n) <= n * t
    ensures (forall k :: 1 <= k <= n ==> script(k).took == t) ==> TookUpTo(script, n) == n * t
  {
    if n > 0 {
      TookAtMost(script, n - 1, t);
      assert n * t == (n - 1) * t + t;
    }
  }

  lemma {:induction false} TimesMonotone(m: nat, n: nat, t: nat)
    requires m <= n
    ensures m * t <= n * t
  {
    if m < n {
      TimesMonotone(m, n - 1, t);
      assert n * t == (n - 1) * t + t;
    }
  }

  /** All attempts allowed, each of length `t`, with the pauses between them. */
  function LoopBound(p: Policy, t: nat): nat {
    if Allowed(p) == 0 then 0 else Allowed(p) * t + DelaysUpTo(p, Allowed(p) - 1)
  }

  /** The loop takes no longer, however it ends, if no invocation takes longer than `t`. */
  lemma LoopTakesAtMost(script: Script, p: Policy, n: nat, t: nat)
    requires EndsAt(script, p, n) && forall k :: 1 <= k <= n ==> script(k).took <= t
    ensures TookUpTo(script, n) + (if n == 0 then 0 else DelaysUpTo(p, n - 1)) <= LoopBound(p, t)
  {
    if n > 0 {
      TookAtMost(script, n, t);
      DelaysGrow(p, n - 1, Allowed(p) - 1);
      TimesMonotone(n, Allowed(p), t);
    }
  }
}
