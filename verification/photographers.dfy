/**
 * The photographer account record shared by the access gate, registration,
 * login and the subscription handlers. Dates are milliseconds since the epoch.
 */
module Photographers {
  import opened Base

  datatype SubscriptionStatus = Trial | Active | Expired | Cancelled | PastDue | OtherStatus(name: string)

  datatype Photographer = Photographer(
    authUserId: string,
    email: string,
    businessName: string,
    displayName: string,
    slug: string,
    phone: Option<string>,
    planType: string,
    subscriptionStatus: SubscriptionStatus,
    trialEndsAt: Option<int>,
    subscriptionExpiresAt: Option<int>,
    lastLoginAt: Option<int>)

  const TRIAL_MS: int := 14 * DAY_MS
}
