/**
 * `requireAuth` and `optionalAuth`: bearer-token extraction and the
 * subscription access decision. The identity provider's token check and the
 * photographer lookup are foreign calls, passed in as functions.
 */
module AuthMiddleware {
  import opened Base
  import opened Photographers

  const BEARER: string := "Bearer "

  /** The token of an `Authorization` header: present, starting with
      `Bearer `, with those seven characters removed. */
  function BearerToken(header: Option<string>): (r: Option<string>)
    ensures r.Some? <==> header.Some? && |header.value| >= 7 && header.value[..7] == BEARER
    ensures r.Some? ==> header.value == BEARER + r.value
  {
    if header.Some? && |header.value| >= 7 && header.value[..7] == BEARER then Some(header.value[7..]) else None
  }

  /** Any token is recovered from the header built around it. */
  lemma {:induction false} BearerRoundTrip(token: string)
    ensures BearerToken(Some(BEARER + token)) == Some(token)
  {
    assert (BEARER + token)[..7] == BEARER;
    assert (BEARER + token)[7..] == token;
  }

  /** The subscription decision: a trial whose end is still ahead, or an
      active subscription with no expiry or an expiry still ahead. */
  predicate HasAccess(p: Photographer, now: int) {
    || (p.subscriptionStatus == Trial && p.trialEndsAt.Some? && p.trialEndsAt.value > now)
    || (p.subscriptionStatus == Active && (p.subscriptionExpiresAt.None? || p.subscriptionExpiresAt.value > now))
  }

  /** Every other combination is refused: any status but trial or active, a
      trial without an end or ended, an active subscription already expired. */
  lemma {:induction false} AccessDenials(p: Photographer, now: int)
    ensures p.subscriptionStatus != Trial && p.subscriptionStatus != Active ==> !HasAccess(p, now)
    ensures p.subscriptionStatus == Trial && (p.trialEndsAt.None? || p.trialEndsAt.value <= now) ==> !HasAccess(p, now)
    ensures p.subscriptionStatus == Active && p.subscriptionExpiresAt.Some? && p.subscriptionExpiresAt.value <= now
            ==> !HasAccess(p, now)
  {
  }

  /** Access is only ever lost by waiting: allowed at a later time means
      allowed now. */
  lemma {:induction false} AccessAntitone(p: Photographer, now: int, later: int)
    requires now <= later && HasAccess(p, later)
    ensures HasAccess(p, now)
  {
  }

  datatype User = User(id: string)

  datatype AuthOutcome =
    | MissingToken                        // 401
    | InvalidToken                        // 401
    | PhotographerNotFound                // 403
    | InactiveSubscription(status: SubscriptionStatus)   // 403
    | Next(user: User, photographer: Photographer)       // request continues with both attached

  /** `requireAuth`. `getUser` is the identity provider's token check;
      `photographerOf` the single-row lookup by auth user id. */
  function RequireAuth(header: Option<string>, getUser: string -> Option<User>,
                       photographerOf: string -> Option<Photographer>, now: int): AuthOutcome
  {
    match BearerToken(header)
    case None => MissingToken
    case Some(token) =>
      match getUser(token)
      case None => InvalidToken
      case Some(user) =>
        match photographerOf(user.id)
        case None => PhotographerNotFound
        case Some(p) => if HasAccess(p, now) then Next(user, p) else InactiveSubscription(p.subscriptionStatus)
  }

  /** The request goes on exactly when the header holds a bearer token the
      provider accepts, the user has a photographer profile, and that profile
      has access now; what is attached is that user and that profile. */
  lemma {:induction false} RequireAuthNext(header: Option<string>, getUser: string -> Option<User>,
                        photographerOf: string -> Option<Photographer>, now: int)
    ensures var r := RequireAuth(header, getUser, photographerOf, now);
      (r.Next? <==>
        BearerToken(header).Some?
        && getUser(BearerToken(header).value).Some?
        && photographerOf(getUser(BearerToken(header).value).value.id).Some?
        && HasAccess(photographerOf(getUser(BearerToken(header).value).value.id).value, now))
      && (r.Next? ==> Some(r.user) == getUser(BearerToken(header).value) && Some(r.photographer) == photographerOf(r.user.id))
      && (r == MissingToken <==> BearerToken(header).None?)
      && (r == InvalidToken <==> BearerToken(header).Some? && getUser(BearerToken(header).value).None?)
      && (r == PhotographerNotFound <==>
            BearerToken(header).Some? && getUser(BearerToken(header).value).Some?
            && photographerOf(getUser(BearerToken(header).value).value.id).None?)
      && (r.InactiveSubscription? <==>
            BearerToken(header).Some? && getUser(BearerToken(header).value).Some?
            && photographerOf(getUser(BearerToken(header).value).value.id).Some?
            && !HasAccess(photographerOf(getUser(BearerToken(header).value).value.id).value, now))
      && (r.InactiveSubscription? ==>
            r.status == photographerOf(getUser(BearerToken(header).value).value.id).value.subscriptionStatus)
  {
  }

  /** `optionalAuth`: never refuses; attaches user and profile when both are
      found, whatever the subscription state. */
  function OptionalAuth(header: Option<string>, getUser: string -> Option<User>,
                        photographerOf: string -> Option<Photographer>): Option<(User, Photographer)>
  {
    match BearerToken(header)
    case None => None
    case Some(token) =>
      match getUser(token)
      case None => None
      case Some(user) =>
        match photographerOf(user.id)
        case None => None
        case Some(p) => Some((user, p))
  }

  /** Whenever `requireAuth` lets a request through, `optionalAuth` attaches
      the same user and profile; it also attaches profiles `requireAuth`
      would refuse for an inactive subscription. */
  lemma {:induction false} OptionalAuthCovers(header: Option<string>, getUser: string -> Option<User>,
                           photographerOf: string -> Option<Photographer>, now: int)
    ensures var r := RequireAuth(header, getUser, photographerOf, now);
      var o := OptionalAuth(header, getUser, photographerOf);
      (r.Next? ==> o == Some((r.user, r.photographer)))
      && (r.InactiveSubscription? ==> o.Some? && o.value.1.subscriptionStatus == r.status)
      && (o.None? <==> r == MissingToken || r == InvalidToken || r == PhotographerNotFound)
  {
  }
}
