/** The options of one resilient call and the three presets used for external providers. */
module Policies {
  import opened Common

  datatype Policy = Policy(
    timeoutMs: nat,
    attempts: int,
    baseDelayMs: nat,
    maxDelayMs: Option<nat>,
    failureThreshold: int,
    resetTimeoutMs: int,
    maxConcurrent: int,
    maxQueue: int)

  const NOTIFICATION_PROVIDER_POLICY := Policy(5_000, 3, 300, Some(2_000), 5, 30_000, 20, 50)
  const PAYMENT_PROVIDER_POLICY := Policy(10_000, 2, 500, Some(2_000), 3, 60_000, 5, 20)
  const WEBHOOK_DELIVERY_POLICY := Policy(10_000, 1, 0, None, 5, 60_000, 10, 100)

  predicate Preset(p: Policy) {
    p == NOTIFICATION_PROVIDER_POLICY || p == PAYMENT_PROVIDER_POLICY || p == WEBHOOK_DELIVERY_POLICY
  }
}
