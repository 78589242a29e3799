/**
 * `procesarOrden`: settling a local order once the payment processor reports
 * its merchant order as fully paid. The merchant order is an input record (the
 * processor's API is not modelled); the tables are values.
 */
module Reconcile {
  import opened Base
  import opened Orders

  /** The fields of a processor merchant order that settlement reads.
      An absent `external_reference` is the empty string. */
  datatype MerchantOrder = MerchantOrder(
    orderStatus: string,
    paidAmount: int,
    totalAmount: int,
    externalReference: string,
    paymentIds: seq<nat>)

  /** The outcomes of the database calls of a settlement. `readsOk`: the
      order lookup and the item lookup both answered (a failed read returns
      early, as a missing row does); `updateOk`: the `paid` update succeeded
      (on failure the call returns before touching `descargas`); `lookupOk`:
      the single-row counter lookup answered (on failure it reads as no row);
      `insertOk`: the counter insert succeeded (its failure is only logged). */
  datatype SettleCalls = SettleCalls(readsOk: bool, updateOk: bool, lookupOk: bool, insertOk: bool)

  /** Downloads stay open for seven days after settlement. */
  const DOWNLOAD_WINDOW_MS: int := 7 * DAY_MS

  /** `payments?.[0]?.id || null`: the first payment's id, unless there is no
      payment or that id is falsy. */
  function FirstPaymentId(ids: seq<nat>): (r: Option<nat>)
    ensures r.Some? <==> |ids| > 0 && ids[0] != 0
    ensures r.Some? ==> r.value == ids[0]
  {
    if |ids| > 0 && ids[0] != 0 then Some(ids[0]) else None
  }

  /** The negation of the first guard: the merchant order is reported paid, or
      its paid amount has reached its total. */
  predicate FullyPaid(mo: MerchantOrder) {
    mo.orderStatus == "paid" || mo.paidAmount >= mo.totalAmount
  }

  /** Settled before, with a truthy payment id: the guard that makes a repeat harmless. */
  predicate AlreadySettled(o: Order) {
    o.status == Paid && HasPaymentId(o)
  }

  /** All the guards pass: the call writes. */
  predicate Settles(t: Tables, mo: MerchantOrder) {
    && FullyPaid(mo)
    && mo.externalReference != ""
    && mo.externalReference in t.orders
    && !AlreadySettled(t.orders[mo.externalReference])
    && |ItemsOf(t.items, mo.externalReference)| > 0
  }

  /** The writes of a settlement: the order becomes paid with the first payment
      id and a fresh download window; then a zero download counter is inserted
      unless the single-row lookup finds one. A failed update writes nothing,
      a failed insert leaves the counters as they were. */
  function Settle(t: Tables, orderId: string, mo: MerchantOrder, now: int, db: SettleCalls): Tables
    requires orderId in t.orders
  {
    if !db.updateOk then t
    else
      var o := t.orders[orderId];
      var o' := o.(status := Paid, paymentId := FirstPaymentId(mo.paymentIds),
                   downloadExpiresAt := Some(now + DOWNLOAD_WINDOW_MS));
      var found := db.lookupOk && |RecordsOf(t.descargas, orderId)| == 1;
      var d := if found || !db.insertOk then t.descargas
               else t.descargas + [DownloadRecord(orderId, Some(o.customerEmail), None, 0)];
      t.(orders := t.orders[orderId := o'], descargas := d)
  }

  /** `procesarOrden(mo)` at time `now`, with the database answering as `db` says. */
  function Reconcile(t: Tables, mo: MerchantOrder, now: int, db: SettleCalls): Tables
  {
    if db.readsOk && Settles(t, mo) then Settle(t, mo.externalReference, mo, now, db) else t
  }

  /** No write in any of the five early returns, nor when a read fails or the
      `paid` update fails: in particular a failed update never creates a
      download counter. */
  lemma {:induction false} ReconcileSkips(t: Tables, mo: MerchantOrder, now: int, db: SettleCalls)
    ensures mo.orderStatus != "paid" && mo.paidAmount < mo.totalAmount ==> Reconcile(t, mo, now, db) == t
    ensures mo.externalReference == "" ==> Reconcile(t, mo, now, db) == t
    ensures mo.externalReference !in t.orders ==> Reconcile(t, mo, now, db) == t
    ensures mo.externalReference in t.orders && AlreadySettled(t.orders[mo.externalReference]) ==> Reconcile(t, mo, now, db) == t
    ensures |ItemsOf(t.items, mo.externalReference)| == 0 ==> Reconcile(t, mo, now, db) == t
    ensures !db.readsOk || !db.updateOk ==> Reconcile(t, mo, now, db) == t
  {
  }

  /** What a settlement writes once the update succeeds, and that it writes
      nothing else. The counter table changes only by the insert: a failed
      insert leaves it as it was, a successful one leaves a counter for the order. */
  lemma {:induction false} ReconcileSettles(t: Tables, mo: MerchantOrder, now: int, db: SettleCalls)
    requires Settles(t, mo) && db.readsOk && db.updateOk
    ensures var id := mo.externalReference;
      var r := Reconcile(t, mo, now, db);
      && id in r.orders
      && r.orders[id].status == Paid
      && r.orders[id].paymentId == FirstPaymentId(mo.paymentIds)
      && r.orders[id].downloadExpiresAt == Some(now + 7 * 24 * 60 * 60 * 1000)
      && r.orders[id].customerEmail == t.orders[id].customerEmail
      && r.orders[id].totalAmount == t.orders[id].totalAmount
      && r.orders.Keys == t.orders.Keys
      && (forall k :: k in t.orders && k != id ==> r.orders[k] == t.orders[k])
      && r.items == t.items && r.photos == t.photos
      && (!db.insertOk ==> r.descargas == t.descargas)
      && (db.insertOk ==> |RecordsOf(r.descargas, id)| >= 1)
  {
    var id := mo.externalReference;
    if db.insertOk && !(db.lookupOk && |RecordsOf(t.descargas, id)| == 1) {
      RecordsOfAppend(t.descargas, DownloadRecord(id, Some(t.orders[id].customerEmail), None, 0), id);
    }
  }

  /** A failed counter insert is ignored: the order is paid, with its download
      window open, and still has no counter row. */
  lemma {:induction false} ReconcileInsertFailurePaidWithoutCounter(t: Tables, mo: MerchantOrder, now: int, db: SettleCalls)
    requires Settles(t, mo) && db.readsOk && db.updateOk && !db.insertOk
    requires |RecordsOf(t.descargas, mo.externalReference)| == 0
    ensures var r := Reconcile(t, mo, now, db);
      r.orders[mo.externalReference].status == Paid
      && r.orders[mo.externalReference].downloadExpiresAt == Some(now + DOWNLOAD_WINDOW_MS)
      && RecordsOf(r.descargas, mo.externalReference) == []
  {
  }

  /** Every order has at most one download counter. */
  ghost predicate SingleRecords(t: Tables) {
    forall id :: |RecordsOf(t.descargas, id)| <= 1
  }

  /** Settling never creates a second download counter while the counter
      lookup answers: with at most one per order before, there is at most one
      after, and exactly one for the settled order once the insert succeeds,
      holding zero if it is new. */
  lemma {:induction false} ReconcileKeepsSingleRecords(t: Tables, mo: MerchantOrder, now: int, db: SettleCalls)
    requires SingleRecords(t)
    ensures db.lookupOk ==> SingleRecords(Reconcile(t, mo, now, db))
    ensures db.lookupOk && db.readsOk && db.updateOk && db.insertOk && Settles(t, mo) ==>
      |RecordsOf(Reconcile(t, mo, now, db).descargas, mo.externalReference)| == 1
    ensures db.readsOk && db.updateOk && db.insertOk && Settles(t, mo) && |RecordsOf(t.descargas, mo.externalReference)| == 0 ==>
      RecordsOf(Reconcile(t, mo, now, db).descargas, mo.externalReference)[0].contador == 0
  {
    var id := mo.externalReference;
    if db.readsOk && db.updateOk && db.insertOk && Settles(t, mo) && !(db.lookupOk && |RecordsOf(t.descargas, id)| == 1) {
      var d := DownloadRecord(id, Some(t.orders[id].customerEmail), None, 0);
      RecordsOfAppend(t.descargas, d, id);
      if db.lookupOk {
        assert |RecordsOf(t.descargas, id)| == 0;
        forall k
          ensures |RecordsOf(t.descargas + [d], k)| <= 1
        {
          RecordsOfAppend(t.descargas, d, k);
        }
      }
    }
  }

  /** A failed counter lookup reads as no row, so an order that already has
      its counter gets a second one. */
  lemma {:induction false} ReconcileFailedLookupDuplicates(t: Tables, mo: MerchantOrder, now: int, db: SettleCalls)
    requires Settles(t, mo) && db.readsOk && db.updateOk && !db.lookupOk && db.insertOk
    requires |RecordsOf(t.descargas, mo.externalReference)| == 1
    ensures |RecordsOf(Reconcile(t, mo, now, db).descargas, mo.externalReference)| == 2
  {
    var id := mo.externalReference;
    RecordsOfAppend(t.descargas, DownloadRecord(id, Some(t.orders[id].customerEmail), None, 0), id);
  }

  /** A settlement whose update went through and recorded a payment id is
      final: delivering the same merchant order again, at any later time and
      whatever the database then answers, changes nothing. */
  lemma {:induction false} ReconcileIdempotent(t: Tables, mo: MerchantOrder, now: int, later: int, db: SettleCalls, db2: SettleCalls)
    requires FirstPaymentId(mo.paymentIds).Some? && db.readsOk && db.updateOk
    ensures Reconcile(Reconcile(t, mo, now, db), mo, later, db2) == Reconcile(t, mo, now, db)
  {
  }

  /** A settlement whose update failed is not final: the order is still
      pending settlement, so a redelivery settles it. */
  lemma {:induction false} ReconcileUpdateFailureRetried(t: Tables, mo: MerchantOrder, now: int, db: SettleCalls)
    requires Settles(t, mo) && !db.updateOk
    ensures Reconcile(t, mo, now, db) == t && Settles(Reconcile(t, mo, now, db), mo)
  {
  }

  /** Without a payment id the already-settled guard never fires: a redelivery
      settles again and moves the download window to the new time. */
  lemma {:induction false} ReconcileNoPaymentResettles(t: Tables, mo: MerchantOrder, now: int, later: int, db: SettleCalls, db2: SettleCalls)
    requires Settles(t, mo) && FirstPaymentId(mo.paymentIds).None?
    requires db2.readsOk && db2.updateOk
    ensures var once := Reconcile(t, mo, now, db);
      Settles(once, mo)
      && Reconcile(once, mo, later, db2).orders[mo.externalReference].downloadExpiresAt == Some(later + DOWNLOAD_WINDOW_MS)
  {
    var once := Reconcile(t, mo, now, db);
    assert once.items == t.items;
  }

  /** Settlement only moves orders towards paid: a paid order stays paid, and
      the only order whose row changes is the merchant order's external reference. */
  lemma {:induction false} ReconcileMonotone(t: Tables, mo: MerchantOrder, now: int, db: SettleCalls)
    ensures var r := Reconcile(t, mo, now, db);
      r.orders.Keys == t.orders.Keys
      && (forall k :: k in t.orders && t.orders[k].status == Paid ==> r.orders[k].status == Paid)
      && (forall k :: k in t.orders && r.orders[k] != t.orders[k] ==> k == mo.externalReference && r.orders[k].status == Paid)
  {
  }
}
