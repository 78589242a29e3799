/**
 * The earlier server's unsigned payment-notification handler. It trusts the
 * notification, has no replay cache and no already-paid guard, and only a
 * `merchant_order` notification can update an order.
 */
module LegacyWebhook {
  import opened Base
  import opened JsText
  import opened Orders
  import Reconcile

  /** The query and body fields the handler reads. */
  datatype LegacyRequest = LegacyRequest(
    queryTopic: Option<string>,
    queryId: Option<string>,
    queryResource: Option<string>,
    bodyType: Option<string>,
    bodyTopic: Option<string>,
    bodyDataId: Option<string>,
    bodyResource: Option<string>)

  /** What a processor call produced: the call threw, or a JSON body was read
      (the handler does not look at the HTTP status). */
  datatype Response<T> = Threw | Body(value: T)

  datatype LegacyPayment = LegacyPayment(status: string, orderId: Option<string>, orderIdField: Option<string>)

  predicate Truthy(o: Option<string>) {
    o.Some? && o.value != ""
  }

  /** `resource.split("/").pop()`: the text after the last `/`. */
  function LastSegment(resource: string): (r: string)
    ensures '/' !in r
  {
    var parts := Split(resource, '/');
    parts[|parts| - 1]
  }

  /** A resource URL whose segments hold no `/` yields its last segment. */
  lemma {:induction false} LastSegmentOfPath(segments: seq<string>)
    requires |segments| >= 1
    requires forall i :: 0 <= i < |segments| ==> '/' !in segments[i]
    ensures LastSegment(Join(segments, '/')) == segments[|segments| - 1]
  {
    SplitJoin(segments, '/');
    var parts := Split(Join(segments, '/'), '/');
    assert parts == segments;
    assert LastSegment(Join(segments, '/')) == parts[|parts| - 1];
  }

  /** `id || resource?.split("/").pop()`; None stands for `undefined`. */
  function MerchantOrderId(req: LegacyRequest): Option<string>
  {
    if Truthy(req.queryId) then req.queryId
    else if req.queryResource.Some? then Some(LastSegment(req.queryResource.value))
    else None
  }

  /** `id || body.data?.id || body.resource`, the id the payment branch looks up. */
  function PaymentId(req: LegacyRequest): Option<string>
  {
    if Truthy(req.queryId) then req.queryId
    else if Truthy(req.bodyDataId) then req.bodyDataId
    else req.bodyResource
  }

  predicate IsPaymentTopic(req: LegacyRequest) {
    req.queryTopic == Some("payment") || req.bodyType == Some("payment")
  }

  predicate IsMerchantOrderTopic(req: LegacyRequest) {
    req.queryTopic == Some("merchant_order") || req.bodyTopic == Some("merchant_order")
  }

  /** The paid condition of this handler: reported paid, or paid amount at least the total. */
  predicate LegacyPaid(mo: Reconcile.MerchantOrder) {
    mo.orderStatus == "paid" || mo.paidAmount >= mo.totalAmount
  }

  /** The update by external reference: status and payment id only; no
      download window and no download counter. `updateOk` is whether the
      update succeeded; a failure is only logged. */
  function LegacySettle(t: Tables, mo: Reconcile.MerchantOrder, updateOk: bool): Tables
  {
    var id := mo.externalReference;
    if LegacyPaid(mo) && id in t.orders && updateOk then
      t.(orders := t.orders[id := t.orders[id].(status := Paid, paymentId := Reconcile.FirstPaymentId(mo.paymentIds))])
    else t
  }

  /** The whole handler: the tables after it, and its HTTP status (200, or 500
      when a processor call throws). `payments` and `merchantOrders` are the
      processor's API, keyed by the id text (`undefined` when absent);
      `updateOk` is whether the order update succeeds. */
  function LegacyHandle(t: Tables, req: LegacyRequest,
                        payments: Option<string> -> Response<LegacyPayment>,
                        merchantOrders: Option<string> -> Response<Reconcile.MerchantOrder>, updateOk: bool): (Tables, int)
  {
    var paymentFailed := IsPaymentTopic(req) && payments(PaymentId(req)).Threw?;
    if paymentFailed then (t, 500)
    else if IsMerchantOrderTopic(req) then
      match merchantOrders(MerchantOrderId(req))
      case Threw => (t, 500)
      case Body(mo) => (LegacySettle(t, mo, updateOk), 200)
    else (t, 200)
  }

  /** A notification without the `merchant_order` topic never touches the
      tables: the payment branch computes a merchant order id and drops it. */
  lemma {:induction false} PaymentTopicNeverUpdates(t: Tables, req: LegacyRequest,
                                 payments: Option<string> -> Response<LegacyPayment>,
                                 merchantOrders: Option<string> -> Response<Reconcile.MerchantOrder>, updateOk: bool)
    requires !IsMerchantOrderTopic(req)
    ensures LegacyHandle(t, req, payments, merchantOrders, updateOk).0 == t
  {
  }

  /** An existing order is set paid exactly when the merchant order is paid
      by this handler's condition and the update succeeds; the update touches
      no other order and no other field than status and payment id. */
  lemma {:induction false} LegacySettleIff(t: Tables, mo: Reconcile.MerchantOrder, updateOk: bool)
    requires mo.externalReference in t.orders
    ensures var r := LegacySettle(t, mo, updateOk);
      var id := mo.externalReference;
      && r.orders.Keys == t.orders.Keys
      && (r.orders[id] != t.orders[id] || t.orders[id].status == Paid ==> r.orders[id].status == Paid)
      && (LegacyPaid(mo) && updateOk ==> r.orders[id].status == Paid && r.orders[id].paymentId == Reconcile.FirstPaymentId(mo.paymentIds))
      && (!LegacyPaid(mo) || !updateOk ==> r == t)
      && r.orders[id].downloadExpiresAt == t.orders[id].downloadExpiresAt
      && (forall k :: k in t.orders && k != id ==> r.orders[k] == t.orders[k])
      && r.items == t.items && r.descargas == t.descargas
  {
  }

  /** Without an already-paid guard a repeat delivery rewrites the payment id
      of a settled order, where the current reconciler keeps the first one. */
  lemma {:induction false} LegacyRepeatRewritesPaymentId(t: Tables, first: Reconcile.MerchantOrder, second: Reconcile.MerchantOrder,
                                                         now: int, later: int, db: Reconcile.SettleCalls, db2: Reconcile.SettleCalls)
    requires first.externalReference == second.externalReference
    requires Reconcile.Settles(t, first) && Reconcile.FirstPaymentId(first.paymentIds).Some?
    requires LegacyPaid(second)
    requires db.readsOk && db.updateOk
    ensures var id := first.externalReference;
      LegacySettle(LegacySettle(t, first, true), second, true).orders[id].paymentId == Reconcile.FirstPaymentId(second.paymentIds)
      && Reconcile.Reconcile(Reconcile.Reconcile(t, first, now, db), second, later, db2).orders[id].paymentId
         == Reconcile.FirstPaymentId(first.paymentIds)
  {
    Reconcile.ReconcileSettles(t, first, now, db);
  }
}
