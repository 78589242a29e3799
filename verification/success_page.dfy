/**
 * The page the payment processor sends the buyer back to. It reads the
 * order id and the buyer's address from the query string, polls the order
 * until it is paid (a bounded number of times), shows the photos unless the
 * download link has expired, and mails the buyer a link back to the page,
 * once per order.
 */
module SuccessPage {
  import opened Base
  import opened JsText
  import opened UriCodec
  import Checkout

  /** `fetchOrderDetailsWithRetry`'s defaults: 12 attempts, 5 s apart. */
  const MAX_RETRIES: nat := 12
  const RETRY_DELAY_MS: nat := 5000
  /** The validity announced in the notification mail. */
  const EXPIRES_DAYS: nat := 7
  const SENT_KEY_PREFIX: string := "email_sent_"

  // ------------------------------------------------------------ getUrlParameter

  predicate IsDelimiter(c: char) { c == '?' || c == '&' }

  /** Characters that end a parameter value: `[^&#]*`. */
  predicate StopsValue(c: char) { c == '&' || c == '#' }

  /** The pattern `[?&]name=` matches at index `i` of the search string. */
  predicate MatchAt(search: string, name: string, i: nat) {
    i < |search| && IsDelimiter(search[i]) && OccursAt(search, name + "=", i + 1)
  }

  /** The leftmost match at or after `from`, as `RegExp.prototype.exec` finds it. */
  function FirstMatch(search: string, name: string, from: nat): (r: Option<nat>)
    ensures r.Some? ==> from <= r.value && MatchAt(search, name, r.value)
    ensures forall j: nat :: from <= j && (r.None? || j < r.value) ==> !MatchAt(search, name, j)
    decreases |search| - from
  {
    if from >= |search| then None
    else if MatchAt(search, name, from) then Some(from)
    else FirstMatch(search, name, from + 1)
  }

  /** The captured group `([^&#]*)`: the longest run from `start` free of `&` and `#`. */
  function ValueFrom(s: string, start: nat): (r: string)
    requires start <= |s|
    ensures start + |r| <= |s| && r == s[start..start + |r|]
    ensures forall k :: 0 <= k < |r| ==> !StopsValue(r[k])
    ensures start + |r| == |s| || StopsValue(s[start + |r|])
    decreases |s| - start
  {
    if start == |s| || StopsValue(s[start]) then ""
    else [s[start]] + ValueFrom(s, start + 1)
  }

  /** `.replace(/\+/g, " ")`. */
  function PlusToSpace(s: string): (r: string)
    ensures |r| == |s|
    ensures forall k :: 0 <= k < |s| ==> r[k] == if s[k] == '+' then ' ' else s[k]
  {
    seq(|s|, k requires 0 <= k < |s| => if s[k] == '+' then ' ' else s[k])
  }

  /** The raw captured group of `[?&]name=([^&#]*)`, or None when the
      pattern does not match. The name is matched literally. */
  function RawParameter(search: string, name: string): Option<string> {
    match FirstMatch(search, name, 0)
    case None => None
    case Some(i) => Some(ValueFrom(search, i + 1 + |name| + 1))
  }

  /** `getUrlParameter(name)` over `location.search`: an absent parameter
      reads as the empty string; None is the URIError a malformed escape
      makes `decodeURIComponent` throw. */
  function GetUrlParameter(search: string, name: string): Option<string> {
    match RawParameter(search, name)
    case None => Some("")
    case Some(raw) => DecodeURIComponent(PlusToSpace(raw))
  }

  /** A run with the captured group's three properties is the captured group. */
  lemma {:induction false} ValueFromUnique(s: string, start: nat, v: string)
    requires start + |v| <= |s| && s[start..start + |v|] == v
    requires forall k :: 0 <= k < |v| ==> !StopsValue(v[k])
    requires start + |v| == |s| || StopsValue(s[start + |v|])
    ensures ValueFrom(s, start) == v
  {
  }

  lemma {:induction false} PlusFree(s: string)
    requires forall k :: 0 <= k < |s| ==> s[k] != '+'
    ensures PlusToSpace(s) == s
  {
  }

  /** The query string of the links back to this page, as the server's
      checkout and the notification mail write it. */
  function Query(orderId: string, customerEmail: string): string {
    "?orderId=" + orderId + "&customerEmail=" + EncodeURIComponent(customerEmail)
  }

  /** The checkout's back-link is this page with that query string. */
  lemma {:induction false} BackUrlCarriesQuery(frontendUrl: string, orderId: string, customerEmail: string)
    ensures Checkout.BackUrl(frontendUrl, orderId, customerEmail) == frontendUrl + "/success.html" + Query(orderId, customerEmail)
  {
  }

  /** Order ids are written into the link without escaping; ids made of
      characters `encodeURIComponent` leaves alone (as UUIDs are) survive. */
  predicate AllUnreserved(s: string) {
    forall k :: 0 <= k < |s| ==> IsUnreserved(s[k])
  }

  /** Where the parts of a back-link's query string lie. */
  lemma {:induction false} QueryParts(orderId: string, customerEmail: string)
    ensures var s, at := Query(orderId, customerEmail), 9 + |orderId|;
      && |s| == at + 15 + |EncodeURIComponent(customerEmail)|
      && s[..9] == "?orderId="
      && s[9..at] == orderId
      && s[at..at + 15] == "&customerEmail="
      && s[at + 15..] == EncodeURIComponent(customerEmail)
  {
    var a := "?orderId=" + orderId;
    var b := a + "&customerEmail=";
    var s := Query(orderId, customerEmail);
    assert s == b + EncodeURIComponent(customerEmail);
    assert s[..|b|] == b && s[|b|..] == EncodeURIComponent(customerEmail);
    assert b[..|a|] == a && b[|a|..] == "&customerEmail=";
    assert a[..9] == "?orderId=" && a[9..] == orderId;
  }

  /** The first characters of a back-link: `?orderId=`, with no delimiter
      after the leading `?`. */
  lemma {:induction false} QueryHead(orderId: string, customerEmail: string)
    ensures var s := Query(orderId, customerEmail);
      && |s| >= 9 && s[0] == '?' && s[1] == 'o' && OccursAt(s, "orderId=", 1)
      && forall k :: 1 <= k < 9 ==> !IsDelimiter(s[k])
  {
    var s := Query(orderId, customerEmail);
    QueryParts(orderId, customerEmail);
    assert forall k :: 0 <= k < 9 ==> s[k] == s[..9][k];
    assert s[1..9] == s[..9][1..];
  }

  /** The raw `orderId` of a back-link is the id, when it has nothing to escape. */
  lemma {:induction false} OrderIdRaw(orderId: string, customerEmail: string)
    requires AllUnreserved(orderId)
    ensures RawParameter(Query(orderId, customerEmail), "orderId") == Some(orderId)
  {
    var s := Query(orderId, customerEmail);
    var at := 9 + |orderId|;
    QueryParts(orderId, customerEmail);
    QueryHead(orderId, customerEmail);
    assert MatchAt(s, "orderId", 0);
    assert s[at] == s[at..at + 15][0];
    forall k | 0 <= k < |orderId| ensures !StopsValue(orderId[k]) {
      assert IsUnreserved(orderId[k]);
    }
    ValueFromUnique(s, 9, orderId);
  }

  /** The order id written into a back-link is read back unchanged. */
  lemma {:induction false} ReadBackOrderId(orderId: string, customerEmail: string)
    requires AllUnreserved(orderId)
    ensures GetUrlParameter(Query(orderId, customerEmail), "orderId") == Some(orderId)
  {
    OrderIdRaw(orderId, customerEmail);
    forall k | 0 <= k < |orderId| ensures orderId[k] != '+' && orderId[k] != '%' {
      assert IsUnreserved(orderId[k]);
    }
    PlusFree(orderId);
    DecodePlain(orderId);
  }

  /** In a back-link, the leftmost `[?&]customerEmail=` is the one after the order id. */
  lemma {:induction false} EmailParameterFound(orderId: string, customerEmail: string)
    requires AllUnreserved(orderId)
    ensures FirstMatch(Query(orderId, customerEmail), "customerEmail", 0) == Some(9 + |orderId|)
  {
    var s := Query(orderId, customerEmail);
    var at := 9 + |orderId|;
    QueryParts(orderId, customerEmail);
    QueryHead(orderId, customerEmail);
    assert s[at] == s[at..at + 15][0];
    assert s[at + 1..at + 15] == s[at..at + 15][1..];
    assert MatchAt(s, "customerEmail", at);
    forall j: nat | j < at ensures !MatchAt(s, "customerEmail", j) {
      if j == 0 {
        assert s[1] != 'c';
      } else if 9 <= j {
        assert s[j] == s[9..at][j - 9];
        assert IsUnreserved(orderId[j - 9]);
      }
    }
  }

  /** The raw `customerEmail` of a back-link is the encoded address: the
      encoding holds no `&` or `#`, and it runs to the end. */
  lemma {:induction false} EmailRaw(orderId: string, customerEmail: string)
    requires AllUnreserved(orderId)
    ensures RawParameter(Query(orderId, customerEmail), "customerEmail") == Some(EncodeURIComponent(customerEmail))
  {
    var enc := EncodeURIComponent(customerEmail);
    var s := Query(orderId, customerEmail);
    var at := 9 + |orderId|;
    EmailParameterFound(orderId, customerEmail);
    QueryParts(orderId, customerEmail);
    assert s[at + 15..at + 15 + |enc|] == enc;
    ValueFromUnique(s, at + 15, enc);
  }

  /** The address written into a back-link, percent-encoded, is read back
      and decoded to the address itself. */
  lemma {:induction false} ReadBackEmail(orderId: string, customerEmail: string)
    requires AllUnreserved(orderId)
    ensures GetUrlParameter(Query(orderId, customerEmail), "customerEmail") == Some(customerEmail)
  {
    var enc := EncodeURIComponent(customerEmail);
    EmailRaw(orderId, customerEmail);
    assert forall k :: 0 <= k < |enc| ==> enc[k] != '+';
    PlusFree(enc);
    DecodeEncode(customerEmail);
  }

  /** What the page makes of its query string on load. */
  datatype Params =
    | UrlError                                  // decodeURIComponent threw
    | MissingOrderInfo                          // an empty or absent parameter
    | OrderParams(orderId: string, customerEmail: string)

  function ReadParams(search: string): Params {
    match GetUrlParameter(search, "orderId")
    case None => UrlError
    case Some(orderId) =>
      match GetUrlParameter(search, "customerEmail")
      case None => UrlError
      case Some(customerEmail) =>
        if orderId == "" || customerEmail == "" then MissingOrderInfo
        else OrderParams(orderId, customerEmail)
  }

  /** A back-link with a non-empty order id and address starts the polling
      for that very order and address; an empty one is refused. */
  lemma {:induction false} BackLinkStartsPolling(orderId: string, customerEmail: string)
    requires AllUnreserved(orderId)
    ensures ReadParams(Query(orderId, customerEmail)) ==
      if orderId == "" || customerEmail == "" then MissingOrderInfo else OrderParams(orderId, customerEmail)
  {
    ReadBackOrderId(orderId, customerEmail);
    ReadBackEmail(orderId, customerEmail);
  }

  // ------------------------------------------------------------ polling

  /** One answer of `GET /order-details/{orderId}/{email}`: a network or JSON
      error, a non-OK status, or the order's status, photo count and the
      download expiry (absent, or an instant in ms). */
  datatype Reply = Threw | NotOk | Ok(status: Option<string>, photoCount: nat, expiresAt: Option<int>)

  /** Paid, with photos to show. */
  predicate Ready(r: Reply) {
    r.Ok? && r.status == Some("paid") && r.photoCount > 0
  }

  /** Still waiting for the payment to be confirmed. */
  predicate Waiting(r: Reply) {
    r.Ok? && !Ready(r)
  }

  predicate LinkExpired(r: Reply, now: int) {
    r.Ok? && r.expiresAt.Some? && now > r.expiresAt.value
  }

  datatype PollOutcome = ServerError | ConnectionError | ExpiredLink | Rendered(photoCount: nat) | TimedOut

  /** The polling loop from attempt `attempt` on; the answer to attempt k is
      `respond(k)` and the clock then reads `nowAt(k)`. The second component is
      the number of requests made in all. */
  function Poll(respond: nat -> Reply, nowAt: nat -> int, maxRetries: nat, attempt: nat): (PollOutcome, nat)
    requires 1 <= attempt
    decreases maxRetries + 1 - attempt
  {
    if attempt > maxRetries then (TimedOut, attempt - 1)
    else
      var reply := respond(attempt);
      match reply
      case Threw => (ConnectionError, attempt)
      case NotOk => (ServerError, attempt)
      case Ok(_, _, _) =>
        if !Ready(reply) then Poll(respond, nowAt, maxRetries, attempt + 1)
        else if LinkExpired(reply, nowAt(attempt)) then (ExpiredLink, attempt)
        else (Rendered(reply.photoCount), attempt)
  }

  /** The polling makes at most `maxRetries` requests; every answer before the
      last was "still waiting"; it times out exactly when all of them were;
      the photos are shown exactly when the last answer was paid with photos
      and its link not expired, and the expiry message when it had expired. */
  lemma {:induction false} PollMeaning(respond: nat -> Reply, nowAt: nat -> int, maxRetries: nat, attempt: nat)
    requires 1 <= attempt <= maxRetries + 1
    ensures var (outcome, fetches) := Poll(respond, nowAt, maxRetries, attempt);
      && attempt - 1 <= fetches <= maxRetries
      && (forall k :: attempt <= k < fetches ==> Waiting(respond(k)))
      && (outcome == TimedOut <==> fetches == maxRetries && forall k :: attempt <= k <= maxRetries ==> Waiting(respond(k)))
      && (outcome.Rendered? <==> fetches >= attempt && Ready(respond(fetches)) && !LinkExpired(respond(fetches), nowAt(fetches)))
      && (outcome.Rendered? ==> outcome.photoCount == respond(fetches).photoCount)
      && (outcome == ExpiredLink <==> fetches >= attempt && Ready(respond(fetches)) && LinkExpired(respond(fetches), nowAt(fetches)))
      && (outcome == ServerError <==> fetches >= attempt && respond(fetches).NotOk?)
      && (outcome == ConnectionError <==> fetches >= attempt && respond(fetches).Threw?)
    decreases maxRetries + 1 - attempt
  {
    if attempt <= maxRetries && Waiting(respond(attempt)) {
      PollMeaning(respond, nowAt, maxRetries, attempt + 1);
    }
  }

  // ------------------------------------------------------------ the notification mail

  datatype EmailMessage = EmailMessage(toEmail: string, orderId: string, photosCount: nat, expiresDays: nat, downloadLink: string)

  /** The local-storage key remembering that an order's mail went out. */
  function SentKey(orderId: string): (k: string)
    ensures |k| == |SENT_KEY_PREFIX| + |orderId| && k[|SENT_KEY_PREFIX|..] == orderId
  {
    SENT_KEY_PREFIX + orderId
  }

  lemma {:induction false} SentKeyInjective(a: string, b: string)
    requires SentKey(a) == SentKey(b)
    ensures a == b
  {
    assert a == SentKey(a)[|SENT_KEY_PREFIX|..];
  }

  /** `localStorage.getItem(key)` is truthy. */
  predicate AlreadySent(storage: map<string, string>, orderId: string) {
    SentKey(orderId) in storage && storage[SentKey(orderId)] != ""
  }

  /** The link in the mail: this page with the order's query string. */
  function DownloadLink(pageUrl: string, orderId: string, toEmail: string): string {
    pageUrl + Query(orderId, toEmail)
  }

  /** The browser's local storage and the mails the mail service accepted. */
  datatype Mailbox = Mailbox(storage: map<string, string>, delivered: seq<EmailMessage>)

  /** `sendEmailNotification`: nothing if the order's key is set; otherwise a
      send that succeeds (`sendOk`) delivers the mail and then sets the key,
      and one that fails is only logged. */
  function Notify(m: Mailbox, pageUrl: string, toEmail: string, orderId: string, photosCount: nat, sendOk: bool): Mailbox {
    if AlreadySent(m.storage, orderId) || !sendOk then m
    else
      Mailbox(m.storage[SentKey(orderId) := "1"],
              m.delivered + [EmailMessage(toEmail, orderId, photosCount, EXPIRES_DAYS, DownloadLink(pageUrl, orderId, toEmail))])
  }

  /** Every delivered mail has its order's key set, and no order got two. */
  predicate OnePerOrder(m: Mailbox) {
    && (forall i :: 0 <= i < |m.delivered| ==> AlreadySent(m.storage, m.delivered[i].orderId))
    && (forall i, j :: 0 <= i < j < |m.delivered| ==> m.delivered[i].orderId != m.delivered[j].orderId)
  }

  /** Sending keeps at most one mail per order. */
  lemma {:induction false} NotifyKeepsOnePerOrder(m: Mailbox, pageUrl: string, toEmail: string, orderId: string, photosCount: nat, sendOk: bool)
    requires OnePerOrder(m)
    ensures OnePerOrder(Notify(m, pageUrl, toEmail, orderId, photosCount, sendOk))
  {
    var m' := Notify(m, pageUrl, toEmail, orderId, photosCount, sendOk);
    if m' != m {
      forall i | 0 <= i < |m'.delivered| ensures AlreadySent(m'.storage, m'.delivered[i].orderId) {
        if i < |m.delivered| {
          assert m'.delivered[i] == m.delivered[i];
          assert AlreadySent(m.storage, m.delivered[i].orderId);
        }
      }
      forall i, j | 0 <= i < j < |m'.delivered| ensures m'.delivered[i].orderId != m'.delivered[j].orderId {
        assert m'.delivered[i] == m.delivered[i];
        if j == |m.delivered| {
          assert AlreadySent(m.storage, m.delivered[i].orderId);
        } else {
          assert m'.delivered[j] == m.delivered[j];
        }
      }
    }
  }

  /** A successful send marks the order, and from then on sending for that
      order again changes nothing, whatever the outcome of the attempt. */
  lemma {:induction false} NotifyOnce(m: Mailbox, pageUrl: string, toEmail: string, orderId: string, photosCount: nat,
                   pageUrl2: string, toEmail2: string, photosCount2: nat, sendOk2: bool)
    ensures AlreadySent(Notify(m, pageUrl, toEmail, orderId, photosCount, true).storage, orderId)
    ensures var m' := Notify(m, pageUrl, toEmail, orderId, photosCount, true);
      Notify(m', pageUrl2, toEmail2, orderId, photosCount2, sendOk2) == m'
  {
  }

  /** A failed send leaves the key unset, so the next visit tries again. */
  lemma {:induction false} FailedSendRetried(m: Mailbox, pageUrl: string, toEmail: string, orderId: string, photosCount: nat)
    requires !AlreadySent(m.storage, orderId)
    ensures !AlreadySent(Notify(m, pageUrl, toEmail, orderId, photosCount, false).storage, orderId)
    ensures Notify(m, pageUrl, toEmail, orderId, photosCount, false).delivered == m.delivered
  {
  }

  /** The link in a delivered mail brings the buyer back to the same order
      and address. */
  lemma {:induction false} MailLinkLeadsBack(pageUrl: string, orderId: string, toEmail: string)
    requires AllUnreserved(orderId)
    ensures DownloadLink(pageUrl, orderId, toEmail) == pageUrl + Query(orderId, toEmail)
    ensures orderId != "" && toEmail != "" ==> ReadParams(Query(orderId, toEmail)) == OrderParams(orderId, toEmail)
  {
    BackLinkStartsPolling(orderId, toEmail);
  }

  // ------------------------------------------------------------ the page

  class Page {
    /** `window.location.origin + window.location.pathname`. */
    const pageUrl: string
    var storage: map<string, string>
    var delivered: seq<EmailMessage>

    function Snapshot(): Mailbox
      reads this
    {
      Mailbox(storage, delivered)
    }

    constructor (pageUrl: string, storage: map<string, string>)
      ensures this.pageUrl == pageUrl && this.storage == storage && delivered == []
    {
      this.pageUrl := pageUrl;
      this.storage := storage;
      delivered := [];
    }

    method SendEmailNotification(toEmail: string, orderId: string, photosCount: nat, sendOk: bool)
      modifies this
      ensures Snapshot() == Notify(old(Snapshot()), pageUrl, toEmail, orderId, photosCount, sendOk)
    {
      var sentKey := SentKey(orderId);
      if sentKey in storage && storage[sentKey] != "" {
        return;
      }
      var link := DownloadLink(pageUrl, orderId, toEmail);
      if !sendOk {
        return;
      }
      delivered := delivered + [EmailMessage(toEmail, orderId, photosCount, EXPIRES_DAYS, link)];
      storage := storage[sentKey := "1"];
    }

    /** `fetchOrderDetailsWithRetry`: one request per attempt, waiting
        between them; the mail is sent once the photos are shown. */
    method FetchOrderDetailsWithRetry(orderId: string, customerEmail: string, maxRetries: nat,
                                      respond: nat -> Reply, nowAt: nat -> int, sendOk: bool)
      returns (outcome: PollOutcome, fetches: nat)
      modifies this
      ensures (outcome, fetches) == Poll(respond, nowAt, maxRetries, 1)
      ensures Snapshot() == if outcome.Rendered?
        then Notify(old(Snapshot()), pageUrl, customerEmail, orderId, outcome.photoCount, sendOk)
        else old(Snapshot())
    {
      var attempt := 1;
      while attempt <= maxRetries
        invariant 1 <= attempt <= maxRetries + 1
        invariant Poll(respond, nowAt, maxRetries, attempt) == Poll(respond, nowAt, maxRetries, 1)
        invariant Snapshot() == old(Snapshot())
        decreases maxRetries + 1 - attempt
      {
        var reply := respond(attempt);
        match reply {
          case Threw =>
            return ConnectionError, attempt;
          case NotOk =>
            return ServerError, attempt;
          case Ok(_, _, _) =>
            if Ready(reply) {
              if LinkExpired(reply, nowAt(attempt)) {
                return ExpiredLink, attempt;
              }
              SendEmailNotification(customerEmail, orderId, reply.photoCount, sendOk);
              return Rendered(reply.photoCount), attempt;
            }
        }
        attempt := attempt + 1;
      }
      outcome, fetches := TimedOut, maxRetries;
    }

    /** The `DOMContentLoaded` handler. */
    method OnLoad(search: string, respond: nat -> Reply, nowAt: nat -> int, sendOk: bool)
      returns (params: Params, outcome: Option<PollOutcome>)
      modifies this
      ensures params == ReadParams(search)
      ensures outcome.Some? <==> params.OrderParams?
      ensures outcome.Some? ==> outcome.value == Poll(respond, nowAt, MAX_RETRIES, 1).0
      ensures !outcome.Some? ==> Snapshot() == old(Snapshot())
      ensures outcome.Some? ==> Snapshot() == if outcome.value.Rendered?
        then Notify(old(Snapshot()), pageUrl, params.customerEmail, params.orderId, outcome.value.photoCount, sendOk)
        else old(Snapshot())
    {
      params := ReadParams(search);
      if !params.OrderParams? {
        return params, None;
      }
      var o, _ := FetchOrderDetailsWithRetry(params.orderId, params.customerEmail, MAX_RETRIES, respond, nowAt, sendOk);
      outcome := Some(o);
    }
  }
}
