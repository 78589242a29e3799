/**
 * The signed payment-notification endpoint: `x-signature` parsing, the HMAC
 * check over the manifest, the in-memory replay cache, and dispatch by topic
 * to the order reconciler. HMAC-SHA256 (RFC 2104) is an uninterpreted
 * function; the processor's payment and merchant-order APIs are functions from
 * id to fetch outcome.
 */
module Webhook {
  import opened Base
  import opened JsText
  import opened Orders
  import Reconcile
  import Store

  // ----- x-signature -----

  /** The `[key, value]` of one comma-separated part, trimmed, or None when the
      part is skipped: no key, or no (or an empty) value after the first `=`.
      A part with more than one `=` keeps only the text between the first two. */
  function PartField(part: string): Option<(string, string)>
  {
    var pieces := Split(part, '=');
    if pieces[0] == "" || |pieces| < 2 || pieces[1] == "" then None
    else Some((Trim(pieces[0]), Trim(pieces[1])))
  }

  predicate Names(part: string, name: string) {
    PartField(part).Some? && PartField(part).value.0 == name
  }

  /** The value the parser ends with for `name`: the last part naming it wins;
      "" when no part names it. */
  function LastField(parts: seq<string>, name: string): string
  {
    if parts == [] then ""
    else if Names(parts[|parts| - 1], name) then PartField(parts[|parts| - 1]).value.1
    else LastField(parts[..|parts| - 1], name)
  }

  /** The parser's loop over the comma-separated parts. */
  method ParseSignature(header: string) returns (ts: string, hash: string)
    ensures ts == LastField(Split(header, ','), "ts")
    ensures hash == LastField(Split(header, ','), "v1")
  {
    var parts := Split(header, ',');
    ts := "";
    hash := "";
    for i := 0 to |parts|
      invariant ts == LastField(parts[..i], "ts")
      invariant hash == LastField(parts[..i], "v1")
    {
      assert parts[..i + 1][..i] == parts[..i];
      var pieces := Split(parts[i], '=');
      if pieces[0] == "" || |pieces| < 2 || pieces[1] == "" {
        continue;
      }
      var k := Trim(pieces[0]);
      var v := Trim(pieces[1]);
      if k == "ts" {
        ts := v;
      }
      if k == "v1" {
        hash := v;
      }
    }
    assert parts[..|parts|] == parts;
  }

  /** Index of the last of the first `n` parts satisfying `p`, or -1 when
      none does. */
  function LastIndexWhere(p: string -> bool, parts: seq<string>, n: nat): (r: int)
    requires n <= |parts|
    ensures -1 <= r < n
    ensures r >= 0 ==> p(parts[r])
    ensures forall j :: r < j < n ==> !p(parts[j])
  {
    if n == 0 then -1
    else if p(parts[n - 1]) then n - 1
    else LastIndexWhere(p, parts, n - 1)
  }

  /** Index of the last of the first `n` parts naming the field, or -1 when
      none does. */
  function LastNamedIndex(parts: seq<string>, name: string, n: nat): (r: int)
    requires n <= |parts|
    ensures -1 <= r < n
    ensures r >= 0 ==> Names(parts[r], name)
    ensures forall j :: r < j < n ==> !Names(parts[j], name)
  {
    LastIndexWhere(part => Names(part, name), parts, n)
  }

  lemma {:induction false} LastNamedStep(parts: seq<string>, name: string, n: nat)
    requires 0 < n <= |parts|
    ensures LastNamedIndex(parts, name, n)
      == if Names(parts[n - 1], name) then n - 1 else LastNamedIndex(parts, name, n - 1)
  {
  }

  lemma {:induction false} LastFieldStep(prefix: seq<string>, name: string)
    requires prefix != []
    ensures LastField(prefix, name) == if Names(prefix[|prefix| - 1], name)
      then PartField(prefix[|prefix| - 1]).value.1 else LastField(prefix[..|prefix| - 1], name)
  {
  }

  /** The parser's value for a field is the value of the last part naming it,
      and "" when no part does: a later `ts` or `v1` overrides an earlier one. */
  lemma {:induction false} LastFieldIsLastNamed(parts: seq<string>, name: string, n: nat)
    requires n <= |parts|
    ensures var i := LastNamedIndex(parts, name, n);
      LastField(parts[..n], name) == if i < 0 then "" else PartField(parts[i]).value.1
  {
    if n > 0 {
      var prefix := parts[..n];
      assert prefix[n - 1] == parts[n - 1];
      assert prefix[..n - 1] == parts[..n - 1];
      LastNamedStep(parts, name, n);
      LastFieldStep(prefix, name);
      if !Names(parts[n - 1], name) {
        LastFieldIsLastNamed(parts, name, n - 1);
      }
    }
  }

  /** Characters the canonical header's fields never contain. */
  predicate PlainField(s: string) {
    s != [] && NoSpace(s) && ',' !in s && '=' !in s
  }

  lemma {:induction false} PartFieldOf(key: string, value: string)
    requires PlainField(key) && PlainField(value)
    ensures PartField(key + "=" + value) == Some((key, value))
  {
    SplitPrefix(key, value, '=');
    SplitNoSep(value, '=');
    assert key + "=" + value == key + ['='] + value;
  }

  lemma {:induction false} CanonicalParts(ts: string, hash: string)
    requires PlainField(ts) && PlainField(hash)
    ensures Split("ts=" + ts + ",v1=" + hash, ',') == ["ts=" + ts, "v1=" + hash]
  {
    var first := "ts=" + ts;
    var second := "v1=" + hash;
    assert "ts=" + ts + ",v1=" + hash == first + [','] + second;
    assert ',' !in first && ',' !in second;
    SplitPrefix(first, second, ',');
    SplitNoSep(second, ',');
  }

  lemma {:induction false} ParsePair(parts: seq<string>, ka: string, va: string, kb: string, vb: string)
    requires PlainField(ka) && PlainField(va) && PlainField(kb) && PlainField(vb) && ka != kb
    requires parts == [ka + "=" + va, kb + "=" + vb]
    ensures LastField(parts, ka) == va && LastField(parts, kb) == vb
  {
    PartFieldOf(ka, va);
    PartFieldOf(kb, vb);
    assert parts[..1] == [ka + "=" + va];
    assert parts[..1][..0] == [];
  }

  /** The processor's header `ts=<ts>,v1=<hash>` parses to exactly its two fields. */
  lemma {:induction false} ParseCanonical(ts: string, hash: string)
    requires PlainField(ts) && PlainField(hash)
    ensures var parts := Split("ts=" + ts + ",v1=" + hash, ',');
      LastField(parts, "ts") == ts && LastField(parts, "v1") == hash
  {
    CanonicalParts(ts, hash);
    assert "ts=" + ts == "ts" + "=" + ts;
    assert "v1=" + hash == "v1" + "=" + hash;
    ParsePair(Split("ts=" + ts + ",v1=" + hash, ','), "ts", ts, "v1", hash);
  }

  // ----- manifest -----

  /** The signed text: `id:<dataId>;request-id:<requestId>;ts:<ts>;`. */
  function Manifest(dataId: string, requestId: string, ts: string): string
  {
    "id:" + dataId + ";request-id:" + requestId + ";ts:" + ts + ";"
  }

  /** Three `;`-free fields, each closed by `;`, split into the fields and
      the empty remainder after the last `;`. */
  lemma {:induction false} SplitThreeClosed(a: string, b: string, c: string)
    requires ';' !in a && ';' !in b && ';' !in c
    ensures Split(a + [';'] + (b + [';'] + (c + [';'] + [])), ';') == [a, b, c, ""]
  {
    var t1 := c + [';'] + [];
    var t2 := b + [';'] + t1;
    SplitNoSep([], ';');
    SplitPrefix(c, [], ';');
    SplitPrefix(b, t1, ';');
    SplitPrefix(a, t2, ';');
  }

  lemma {:induction false} ManifestPieces(dataId: string, requestId: string, ts: string)
    requires ';' !in dataId && ';' !in requestId && ';' !in ts
    ensures Split(Manifest(dataId, requestId, ts), ';') == ["id:" + dataId, "request-id:" + requestId, "ts:" + ts, ""]
  {
    var a, b, c := "id:" + dataId, "request-id:" + requestId, "ts:" + ts;
    assert Manifest(dataId, requestId, ts) == a + [';'] + (b + [';'] + (c + [';'] + []));
    assert ';' !in a && ';' !in b && ';' !in c;
    SplitThreeClosed(a, b, c);
  }

  /** The manifest determines its three fields, as long as none holds `;`: a
      signature over it binds the data id, the request id and the timestamp. */
  lemma {:induction false} ManifestInjective(d1: string, r1: string, t1: string, d2: string, r2: string, t2: string)
    requires ';' !in d1 && ';' !in r1 && ';' !in t1
    requires ';' !in d2 && ';' !in r2 && ';' !in t2
    requires Manifest(d1, r1, t1) == Manifest(d2, r2, t2)
    ensures d1 == d2 && r1 == r2 && t1 == t2
  {
    ManifestPieces(d1, r1, t1);
    ManifestPieces(d2, r2, t2);
    assert "id:" + d1 == "id:" + d2;
    assert d1 == ("id:" + d1)[3..] && d2 == ("id:" + d2)[3..];
    assert r1 == ("request-id:" + r1)[11..] && r2 == ("request-id:" + r2)[11..];
    assert t1 == ("ts:" + t1)[3..] && t2 == ("ts:" + t2)[3..];
  }

  // ----- request -----

  /** The parts of a notification the handler reads. Header and query values
      are optional; JavaScript falsiness treats an empty value as absent. */
  datatype WebhookRequest = WebhookRequest(
    xSignature: Option<string>,
    xRequestId: Option<string>,
    queryDataId: Option<string>,
    queryId: Option<string>,
    bodyDataId: Option<string>,
    queryType: Option<string>,
    queryTopic: Option<string>,
    bodyType: Option<string>)

  predicate Truthy(o: Option<string>) {
    o.Some? && o.value != ""
  }

  /** `a || b || c` over optional strings. */
  function FirstTruthy(a: Option<string>, b: Option<string>, c: Option<string>): (r: Option<string>)
    ensures r.Some? <==> Truthy(a) || Truthy(b) || Truthy(c)
    ensures r.Some? ==> r.value != "" && (r == a || r == b || r == c)
  {
    if Truthy(a) then a else if Truthy(b) then b else if Truthy(c) then c else None
  }

  /** The data id as interpolated into the manifest; a missing one prints as `undefined`. */
  function DataId(req: WebhookRequest): string {
    var d := FirstTruthy(req.queryDataId, req.queryId, req.bodyDataId);
    if d.Some? then d.value else "undefined"
  }

  function Topic(req: WebhookRequest): Option<string> {
    FirstTruthy(req.queryType, req.queryTopic, req.bodyType)
  }

  /** `x-request-id`, defaulting to `no-request-id`. */
  function RequestId(req: WebhookRequest): string {
    if Truthy(req.xRequestId) then req.xRequestId.value else "no-request-id"
  }

  function TopicText(req: WebhookRequest): string {
    var t := Topic(req);
    if t.Some? then t.value else "undefined"
  }

  /** `xRequestId || \`${topic}-${dataId}\``. */
  function IdempotencyKey(req: WebhookRequest): string {
    if RequestId(req) != "" then RequestId(req) else TopicText(req) + "-" + DataId(req)
  }

  /** Because the request id always has a value, the topic/data-id fallback of
      the idempotency key is never used: the key is the request id. */
  lemma {:induction false} IdempotencyKeyIsRequestId(req: WebhookRequest)
    ensures IdempotencyKey(req) == RequestId(req) && IdempotencyKey(req) != ""
    ensures Truthy(req.xRequestId) ==> IdempotencyKey(req) == req.xRequestId.value
    ensures !Truthy(req.xRequestId) ==> IdempotencyKey(req) == "no-request-id"
  {
  }

  // ----- verification -----

  datatype SignatureCheck = Missing | BadFormat | BadSignature | Verified

  /** The three signature checks in order. `hmac(secret, text)` is the hex
      digest of HMAC-SHA256. */
  function CheckSignature(req: WebhookRequest, secret: string, hmac: (string, string) -> string): SignatureCheck
  {
    if !Truthy(req.xSignature) then Missing
    else
      var parts := Split(req.xSignature.value, ',');
      var ts := LastField(parts, "ts");
      var hash := LastField(parts, "v1");
      if ts == "" || hash == "" then BadFormat
      else if hmac(secret, Manifest(DataId(req), RequestId(req), ts)) != hash then BadSignature
      else Verified
  }

  /** A request carrying the processor's canonical header passes exactly when
      the hash is the HMAC of the manifest built from its own fields. */
  lemma {:induction false} CanonicalVerifies(req: WebhookRequest, secret: string, hmac: (string, string) -> string, ts: string, hash: string)
    requires PlainField(ts) && PlainField(hash)
    requires req.xSignature == Some("ts=" + ts + ",v1=" + hash)
    ensures CheckSignature(req, secret, hmac) == Verified
        <==> hmac(secret, Manifest(DataId(req), RequestId(req), ts)) == hash
  {
    ParseCanonical(ts, hash);
  }

  // ----- dispatch -----

  datatype Fetch<T> = Threw | NotOk(code: int) | Ok(value: T)

  /** The fields of a processor payment the handler reads; a missing merchant
      order id is the empty string. */
  datatype Payment = Payment(status: string, merchantOrderId: string)

  datatype WebhookStatus =
    | MissingSignatureIgnored
    | InvalidSignatureFormatIgnored
    | InvalidSignatureIgnored
    | AlreadyProcessed
    | PaymentNotReadyYet
    | NotApproved
    | NoMerchantOrder
    | FailedToFetchMerchantOrder      // 500
    | Processed
    | IgnoredTopic
    | InternalError                   // 500

  /** The merchant order a dispatch hands to the reconciler, if it gets that far. */
  function FetchedOrder(topic: Option<string>, dataId: string,
                        payments: string -> Fetch<Payment>,
                        merchantOrders: string -> Fetch<Reconcile.MerchantOrder>): Option<Reconcile.MerchantOrder>
  {
    var moId :=
      if topic == Some("payment") then
        (match payments(dataId)
         case Ok(p) => if p.status == "approved" && p.merchantOrderId != "" then Some(p.merchantOrderId) else None
         case _ => None)
      else if topic == Some("merchant_order") then Some(dataId)
      else None;
    if moId.None? then None
    else match merchantOrders(moId.value)
      case Ok(mo) => Some(mo)
      case _ => None
  }

  /** Dispatch of a verified, first-seen notification. */
  function Dispatch(t: Tables, topic: Option<string>, dataId: string,
                    payments: string -> Fetch<Payment>,
                    merchantOrders: string -> Fetch<Reconcile.MerchantOrder>, now: int, db: Reconcile.SettleCalls): (Tables, WebhookStatus)
  {
    if topic == Some("payment") then
      match payments(dataId)
      case Threw => (t, InternalError)
      case NotOk(_) => (t, PaymentNotReadyYet)
      case Ok(p) =>
        if p.status != "approved" then (t, NotApproved)
        else if p.merchantOrderId == "" then (t, NoMerchantOrder)
        else SettleFetched(t, merchantOrders(p.merchantOrderId), now, db)
    else if topic == Some("merchant_order") then
      SettleFetched(t, merchantOrders(dataId), now, db)
    else (t, IgnoredTopic)
  }

  function SettleFetched(t: Tables, fetched: Fetch<Reconcile.MerchantOrder>, now: int, db: Reconcile.SettleCalls): (Tables, WebhookStatus)
  {
    match fetched
    case Threw => (t, InternalError)
    case NotOk(_) => (t, FailedToFetchMerchantOrder)
    case Ok(mo) => (Reconcile.Reconcile(t, mo, now, db), Processed)
  }

  /** The whole handler over the replay-cache keys and the tables. `payments`
      and `merchantOrders` are the processor's answers, `db` the outcomes of
      the settlement's database calls. */
  function WebhookSpec(keys: set<string>, t: Tables, req: WebhookRequest, secret: string,
                       hmac: (string, string) -> string,
                       payments: string -> Fetch<Payment>,
                       merchantOrders: string -> Fetch<Reconcile.MerchantOrder>, now: int, db: Reconcile.SettleCalls): (set<string>, Tables, WebhookStatus)
  {
    match CheckSignature(req, secret, hmac)
    case Missing => (keys, t, MissingSignatureIgnored)
    case BadFormat => (keys, t, InvalidSignatureFormatIgnored)
    case BadSignature => (keys, t, InvalidSignatureIgnored)
    case Verified =>
      var key := IdempotencyKey(req);
      if key in keys then (keys, t, AlreadyProcessed)
      else
        var d := Dispatch(t, Topic(req), DataId(req), payments, merchantOrders, now, db);
        (keys + {key}, d.0, d.1)
  }

  /** Each failed signature check answers with its own soft status and changes
      neither the cache nor any table. */
  lemma {:induction false} WebhookRejectsUnverified(keys: set<string>, t: Tables, req: WebhookRequest, secret: string,
                                 hmac: (string, string) -> string,
                                 payments: string -> Fetch<Payment>,
                                 merchantOrders: string -> Fetch<Reconcile.MerchantOrder>, now: int, db: Reconcile.SettleCalls)
    ensures var r := WebhookSpec(keys, t, req, secret, hmac, payments, merchantOrders, now, db);
      && (r.2 == MissingSignatureIgnored <==> !Truthy(req.xSignature))
      && (r.2 == InvalidSignatureFormatIgnored <==> CheckSignature(req, secret, hmac) == BadFormat)
      && (r.2 == InvalidSignatureIgnored <==> CheckSignature(req, secret, hmac) == BadSignature)
      && (CheckSignature(req, secret, hmac) != Verified ==> r.0 == keys && r.1 == t)
  {
    if CheckSignature(req, secret, hmac) == Verified && IdempotencyKey(req) !in keys {
      DispatchAnswersNoSignatureStatus(t, Topic(req), DataId(req), payments, merchantOrders, now, db);
    }
  }

  /** Dispatch never answers with one of the signature statuses. */
  lemma {:induction false} DispatchAnswersNoSignatureStatus(t: Tables, topic: Option<string>, dataId: string,
                                        payments: string -> Fetch<Payment>,
                                        merchantOrders: string -> Fetch<Reconcile.MerchantOrder>, now: int, db: Reconcile.SettleCalls)
    ensures var status := Dispatch(t, topic, dataId, payments, merchantOrders, now, db).1;
      status != MissingSignatureIgnored && status != InvalidSignatureFormatIgnored && status != InvalidSignatureIgnored
  {
    if topic == Some("payment") && payments(dataId).Ok? {
      var p := payments(dataId).value;
      if p.status == "approved" && p.merchantOrderId != "" {
        assert Dispatch(t, topic, dataId, payments, merchantOrders, now, db).1 == SettleFetched(t, merchantOrders(p.merchantOrderId), now, db).1;
      }
    }
  }

  /** A key already in the cache answers `already_processed` and changes nothing. */
  lemma {:induction false} WebhookReplayIgnored(keys: set<string>, t: Tables, req: WebhookRequest, secret: string,
                             hmac: (string, string) -> string,
                             payments: string -> Fetch<Payment>,
                             merchantOrders: string -> Fetch<Reconcile.MerchantOrder>, now: int, db: Reconcile.SettleCalls)
    requires CheckSignature(req, secret, hmac) == Verified && RequestId(req) in keys
    ensures WebhookSpec(keys, t, req, secret, hmac, payments, merchantOrders, now, db) == (keys, t, AlreadyProcessed)
  {
  }

  /** Only a verified, first-seen request adds to the cache, and it adds its
      request id before any processor call, so the key stays taken whatever the
      dispatch outcome (a payment not ready yet included). */
  lemma {:induction false} WebhookCacheDiscipline(keys: set<string>, t: Tables, req: WebhookRequest, secret: string,
                               hmac: (string, string) -> string,
                               payments: string -> Fetch<Payment>,
                               merchantOrders: string -> Fetch<Reconcile.MerchantOrder>, now: int, db: Reconcile.SettleCalls)
    ensures var r := WebhookSpec(keys, t, req, secret, hmac, payments, merchantOrders, now, db);
      && keys <= r.0
      && (r.0 != keys <==> CheckSignature(req, secret, hmac) == Verified && RequestId(req) !in keys)
      && (r.0 != keys ==> r.0 == keys + {RequestId(req)})
  {
  }

  /** The tables change only through the reconciler, on a `processed` answer,
      with the merchant order the processor returned. */
  lemma {:induction false} WebhookWritesOnlyByReconcile(keys: set<string>, t: Tables, req: WebhookRequest, secret: string,
                                     hmac: (string, string) -> string,
                                     payments: string -> Fetch<Payment>,
                                     merchantOrders: string -> Fetch<Reconcile.MerchantOrder>, now: int, db: Reconcile.SettleCalls)
    ensures var r := WebhookSpec(keys, t, req, secret, hmac, payments, merchantOrders, now, db);
      var mo := FetchedOrder(Topic(req), DataId(req), payments, merchantOrders);
      && (r.2 == Processed <==> CheckSignature(req, secret, hmac) == Verified && RequestId(req) !in keys && mo.Some?)
      && (r.2 == Processed ==> r.1 == Reconcile.Reconcile(t, mo.value, now, db))
      && (r.2 != Processed ==> r.1 == t)
  {
  }

  /** Delivering the same notification twice: the second delivery is answered
      `already_processed` and leaves everything as the first left it. */
  lemma {:induction false} WebhookRedelivery(keys: set<string>, t: Tables, req: WebhookRequest, secret: string,
                          hmac: (string, string) -> string,
                          payments: string -> Fetch<Payment>,
                          merchantOrders: string -> Fetch<Reconcile.MerchantOrder>, now: int, later: int, db: Reconcile.SettleCalls, db2: Reconcile.SettleCalls)
    requires CheckSignature(req, secret, hmac) == Verified
    ensures var first := WebhookSpec(keys, t, req, secret, hmac, payments, merchantOrders, now, db);
      WebhookSpec(first.0, first.1, req, secret, hmac, payments, merchantOrders, later, db2) == (first.0, first.1, AlreadyProcessed)
  {
  }

  // ----- the endpoint -----

  /** `replayProtectionCache`: the request ids seen in the last five minutes. */
  class ReplayCache {
    var keys: set<string>

    constructor ()
      ensures keys == {}
    {
      keys := {};
    }

    predicate Has(key: string)
      reads this
    {
      key in keys
    }

    method Mark(key: string)
      modifies this
      ensures keys == old(keys) + {key}
    {
      keys := keys + {key};
    }

    /** The timer that drops a key once its time to live has passed. */
    method Expire(key: string)
      modifies this
      ensures keys == old(keys) - {key}
    {
      keys := keys - {key};
    }
  }

  const REPLAY_CACHE_TTL_MS: int := 5 * MINUTE_MS

  /** The handler, step by step over the cache and the store. */
  method HandleWebhook(cache: ReplayCache, store: Store.OrderStore, req: WebhookRequest, secret: string,
                       hmac: (string, string) -> string,
                       payments: string -> Fetch<Payment>,
                       merchantOrders: string -> Fetch<Reconcile.MerchantOrder>, now: int, db: Reconcile.SettleCalls)
    returns (status: WebhookStatus)
    modifies cache, store
    ensures (cache.keys, store.Snapshot(), status)
         == WebhookSpec(old(cache.keys), old(store.Snapshot()), req, secret, hmac, payments, merchantOrders, now, db)
  {
    var xSignature := req.xSignature;
    var xRequestId := RequestId(req);
    var dataId := DataId(req);
    var topic := Topic(req);
    if !Truthy(xSignature) {
      return MissingSignatureIgnored;
    }
    var ts, hash := ParseSignature(xSignature.value);
    if ts == "" || hash == "" {
      return InvalidSignatureFormatIgnored;
    }
    var manifest := Manifest(dataId, xRequestId, ts);
    if hmac(secret, manifest) != hash {
      return InvalidSignatureIgnored;
    }
    var idempotencyKey := IdempotencyKey(req);
    if cache.Has(idempotencyKey) {
      return AlreadyProcessed;
    }
    cache.Mark(idempotencyKey);
    if topic == Some("payment") {
      match payments(dataId)
      case Threw =>
        return InternalError;
      case NotOk(_) =>
        return PaymentNotReadyYet;
      case Ok(paymentData) =>
        if paymentData.status != "approved" {
          return NotApproved;
        }
        if paymentData.merchantOrderId == "" {
          return NoMerchantOrder;
        }
        status := SettleWith(store, merchantOrders(paymentData.merchantOrderId), now, db);
        return;
    }
    if topic == Some("merchant_order") {
      status := SettleWith(store, merchantOrders(dataId), now, db);
      return;
    }
    return IgnoredTopic;
  }

  /** The tail shared by both topics: a failed fetch answers 500, a fetched
      merchant order goes to `procesarOrden`. */
  method SettleWith(store: Store.OrderStore, fetched: Fetch<Reconcile.MerchantOrder>, now: int, db: Reconcile.SettleCalls)
    returns (status: WebhookStatus)
    modifies store
    ensures (store.Snapshot(), status) == SettleFetched(old(store.Snapshot()), fetched, now, db)
  {
    match fetched
    case Threw =>
      return InternalError;
    case NotOk(_) =>
      return FailedToFetchMerchantOrder;
    case Ok(orderData) =>
      store.ProcesarOrden(orderData, now, db);
      return Processed;
  }
}
