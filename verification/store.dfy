/**
 * The order tables as the handlers see them: a store whose tables the
 * handlers update in place, one guarded write after another. Each handler is
 * proved to leave the store exactly as its specification function says.
 */
module Store {
  import opened Base
  import opened Orders
  import Checkout
  import Reconcile
  import Downloads

  class OrderStore {
    var orders: map<string, Order>
    var items: seq<OrderItem>
    var descargas: seq<DownloadRecord>
    var photos: map<string, Photo>

    function Snapshot(): Tables
      reads this
    {
      Tables(orders, items, descargas, photos)
    }

    constructor (t: Tables)
      ensures Snapshot() == t
    {
      orders := t.orders;
      items := t.items;
      descargas := t.descargas;
      photos := t.photos;
    }

    /** `procesarOrden`: the guards in source order, then the order update and
        the conditional counter insert; `db` says which database calls fail. */
    method ProcesarOrden(mo: Reconcile.MerchantOrder, now: int, db: Reconcile.SettleCalls)
      modifies this
      ensures Snapshot() == Reconcile.Reconcile(old(Snapshot()), mo, now, db)
    {
      if mo.orderStatus != "paid" && mo.paidAmount < mo.totalAmount {
        return;
      }
      var orderId := mo.externalReference;
      if orderId == "" {
        return;
      }
      if !db.readsOk || orderId !in orders {
        return;
      }
      var existing := orders[orderId];
      if existing.status == Paid && HasPaymentId(existing) {
        return;
      }
      var orderItems := ItemsOf(items, orderId);
      if |orderItems| == 0 {
        return;
      }
      var expiresAt := now + Reconcile.DOWNLOAD_WINDOW_MS;
      var paymentId := Reconcile.FirstPaymentId(mo.paymentIds);
      if !db.updateOk {
        return;
      }
      orders := orders[orderId := existing.(status := Paid, paymentId := paymentId, downloadExpiresAt := Some(expiresAt))];
      var existingDownload := RecordsOf(descargas, orderId);
      if !(db.lookupOk && |existingDownload| == 1) && db.insertOk {
        descargas := descargas + [DownloadRecord(orderId, Some(existing.customerEmail), None, 0)];
      }
    }

    /** The checkout handler: validation, the running total, the photographer
        lookup (current handler only), the order insert, the item inserts, and
        the preference request, each call succeeding as `calls` says. */
    method CreatePaymentPreference(v: Checkout.Variant, cart: seq<CartLine>, customerEmail: string,
                                   newId: string, frontendUrl: string, calls: Checkout.CheckoutCalls)
      returns (res: Checkout.CheckoutResult)
      modifies this
      ensures (Snapshot(), res) == Checkout.CheckoutSpec(old(Snapshot()), v, cart, customerEmail, newId, frontendUrl, calls)
    {
      if |cart| == 0 || customerEmail == "" {
        return Checkout.EmptyCartOrMissingEmail;
      }
      var totalAmount := Checkout.ComputeTotal(cart);
      var photographerId: Option<string> := None;
      if v == Checkout.Current {
        var firstPhotoId := cart[0].photoId;
        if !calls.photoLookupOk || firstPhotoId !in photos || photos[firstPhotoId].photographerId.None? {
          return Checkout.PhotoNotFound;
        }
        photographerId := photos[firstPhotoId].photographerId;
      }
      if !calls.orderOk {
        return Checkout.OrderInsertFailed;
      }
      orders := orders[newId := Order(customerEmail, totalAmount, Pending, None, None, photographerId)];
      if !calls.itemsOk {
        return Checkout.ItemsInsertFailed(newId);
      }
      items := items + SnapshotItems(newId, cart);
      if calls.preferenceOk {
        res := Checkout.PreferenceCreated(newId, Checkout.BackUrl(frontendUrl, newId, customerEmail));
      } else {
        res := Checkout.PreferenceFailed(newId);
      }
    }

    /** The quota download handler. */
    method DownloadWithQuota(photoId: string, orderId: string, customerEmail: string, signed: Option<string>)
      returns (res: Downloads.QuotaResult)
      modifies this
      ensures (Snapshot(), res) == Downloads.QuotaDownload(old(Snapshot()), photoId, orderId, customerEmail, signed)
    {
      var registro := Downloads.QuotaRows(descargas, orderId, customerEmail);
      if |registro| == 1 {
        if registro[0].contador >= Downloads.MAX_DESCARGAS {
          return Downloads.LimitReached;
        }
      } else {
        descargas := descargas + [DownloadRecord(orderId, None, Some(customerEmail), 0)];
      }
      if photoId !in photos {
        return Downloads.PhotoNotFound;
      }
      if signed.None? {
        return Downloads.QuotaServerError;
      }
      var previous := if |registro| == 1 then registro[0].contador else 0;
      descargas := Downloads.SetCounter(descargas, orderId, customerEmail, previous + 1);
      res := Downloads.QuotaRedirect(signed.value);
    }
  }
}
