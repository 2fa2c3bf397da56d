/**
 * Subscription-state derivation: from the stored subscription row (if
 * any) and this month's count of AI analyses, whether the user is Pro and
 * whether the free AI limit is reached. The two database queries are
 * inputs; the month boundary they use is not modelled.
 */
module Subscription {
  import opened Wrappers

  /** Free users get this many AI analyses per month. */
  const FreeAiLimit: nat := 5

  /** The stored `subscriptions` row: status, current_period_end, cancel_at_period_end (the last two nullable). */
  datatype SubscriptionRow = SubscriptionRow(
    status: string,
    currentPeriodEnd: Option<string>,
    cancelAtPeriodEnd: Option<bool>)

  datatype SubscriptionStatus = SubscriptionStatus(
    isPro: bool,
    aiUsageThisMonth: nat,
    aiLimitReached: bool,
    currentPeriodEnd: Option<string>,
    cancelAtPeriodEnd: bool)

  /** The stored statuses that grant Pro. */
  predicate IsProStatus(status: string)
    ensures IsProStatus(status) ==> |status| >= 6
    ensures status == "canceled" || status == "past_due" || status == "incomplete" ==> !IsProStatus(status)
  {
    status == "active" || status == "trialing"
  }

  /**
   * `getSubscriptionStatus` after its two queries: `sub` is the row
   * (`None` when there is none) and `usageCount` the exact count (`None`
   * when the query gave null). `x || fallback` treats an empty period end
   * like null.
   */
  function DeriveStatus(sub: Option<SubscriptionRow>, usageCount: Option<nat>): (s: SubscriptionStatus)
    ensures s.isPro <==> sub.Some? && IsProStatus(sub.value.status)
    ensures s.aiUsageThisMonth == usageCount.GetOr(0)
    ensures s.aiLimitReached <==> !s.isPro && s.aiUsageThisMonth >= FreeAiLimit
    ensures s.currentPeriodEnd.Some? <==>
      sub.Some? && sub.value.currentPeriodEnd.Some? && sub.value.currentPeriodEnd.value != ""
    ensures s.currentPeriodEnd.Some? ==> s.currentPeriodEnd == sub.value.currentPeriodEnd
    ensures s.cancelAtPeriodEnd <==> sub.Some? && sub.value.cancelAtPeriodEnd == Some(true)
  {
    var isPro := sub.Some? && IsProStatus(sub.value.status);
    var usage := match usageCount case Some(n) => n case None => 0;
    var periodEnd :=
      if sub.Some? && sub.value.currentPeriodEnd.Some? && sub.value.currentPeriodEnd.value != ""
      then sub.value.currentPeriodEnd else None;
    var cancel := sub.Some? && sub.value.cancelAtPeriodEnd.Some? && sub.value.cancelAtPeriodEnd.value;
    SubscriptionStatus(isPro, usage, !isPro && usage >= FreeAiLimit, periodEnd, cancel)
  }

  /** A Pro user is never limited, whatever the usage. */
  lemma ProNeverLimited(sub: Option<SubscriptionRow>, usageCount: Option<nat>)
    requires DeriveStatus(sub, usageCount).isPro
    ensures !DeriveStatus(sub, usageCount).aiLimitReached
  {
  }

  /** Without a row the user is free; with the free limit the threshold is exactly 5: 4 passes, 5 is limited. */
  lemma FreeLimitThreshold(sub: Option<SubscriptionRow>)
    requires sub.None? || !IsProStatus(sub.value.status)
    ensures !DeriveStatus(sub, Some(4)).aiLimitReached
    ensures DeriveStatus(sub, Some(5)).aiLimitReached
    ensures !DeriveStatus(sub, None).aiLimitReached
    ensures !DeriveStatus(None, Some(5)).isPro
  {
  }

  /** More usage never lifts the limit. */
  lemma LimitMonotoneInUsage(sub: Option<SubscriptionRow>, used: nat, more: nat)
    requires used <= more && DeriveStatus(sub, Some(used)).aiLimitReached
    ensures DeriveStatus(sub, Some(more)).aiLimitReached
  {
  }
}
