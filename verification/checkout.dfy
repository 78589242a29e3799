/**
 * Checkout: turning a client cart into a pending order, its item rows and a
 * payment preference whose back-links lead to the success page. Two handlers
 * share this logic: the current one, which also looks up the photographer of
 * the cart's first photo, and the earlier one, which does not.
 */
module Checkout {
  import opened Base
  import opened Orders
  import opened UriCodec
  import Reconcile

  datatype Variant = Current | Legacy

  /** The outcomes of the handler's external calls, in call order: the
      photo lookup (current handler only; a failed lookup reads as no photo),
      the order insert, the item insert, and the processor's preference request. */
  datatype CheckoutCalls = CheckoutCalls(photoLookupOk: bool, orderOk: bool, itemsOk: bool, preferenceOk: bool)

  datatype CheckoutResult =
    | EmptyCartOrMissingEmail                      // 400
    | PhotoNotFound                                // 404, current handler only
    | OrderInsertFailed                            // 500, nothing written
    | ItemsInsertFailed(orderId: string)           // 500, the order row is already written
    | PreferenceFailed(orderId: string)            // 500, after the rows are written
    | PreferenceCreated(orderId: string, backUrl: string)

  /** Every item row points at an existing order. */
  predicate Consistent(t: Tables) {
    forall x :: x in t.items ==> x.orderId in t.orders
  }

  /** The success, failure and pending back-link of a preference. */
  function BackUrl(frontendUrl: string, orderId: string, customerEmail: string): string
  {
    frontendUrl + "/success.html?orderId=" + orderId + "&customerEmail=" + EncodeURIComponent(customerEmail)
  }

  /** The photographer the current handler attributes the order to: the one of
      the album holding the cart's first photo, if that photo and album exist. */
  function FirstPhotoOwner(t: Tables, cart: seq<CartLine>): Option<string>
    requires cart != []
  {
    if cart[0].photoId in t.photos then t.photos[cart[0].photoId].photographerId else None
  }

  /** The two inserts of a checkout: the pending order and its item rows. */
  function InsertOrder(t: Tables, newId: string, customerEmail: string, cart: seq<CartLine>, owner: Option<string>): Tables
  {
    t.(orders := t.orders[newId := Order(customerEmail, CartTotal(cart), Pending, None, None, owner)],
       items := t.items + SnapshotItems(newId, cart))
  }

  lemma {:induction false} InsertOrderItems(t: Tables, newId: string, customerEmail: string, cart: seq<CartLine>, owner: Option<string>)
    requires Consistent(t) && newId !in t.orders
    ensures ItemsOf(InsertOrder(t, newId, customerEmail, cart, owner).items, newId) == SnapshotItems(newId, cart)
    ensures ItemsTotal(SnapshotItems(newId, cart)) == CartTotal(cart)
  {
    var snap := SnapshotItems(newId, cart);
    ItemsOfAbsent(t.items, newId);
    ItemsOfConcat(t.items, snap, newId);
    SnapshotItemsOf(newId, cart);
    SnapshotPreservesTotal(newId, cart);
  }

  lemma {:induction false} InsertOrderConsistent(t: Tables, newId: string, customerEmail: string, cart: seq<CartLine>, owner: Option<string>)
    requires Consistent(t)
    ensures Consistent(InsertOrder(t, newId, customerEmail, cart, owner))
  {
    var t' := InsertOrder(t, newId, customerEmail, cart, owner);
    var snap := SnapshotItems(newId, cart);
    forall x | x in t'.items
      ensures x.orderId in t'.orders
    {
      if x !in t.items {
        assert x in snap;
        var i :| 0 <= i < |snap| && snap[i] == x;
      }
    }
  }

  /** The checkout handler on tables `t`. `newId` is the id the database assigns
      to the inserted order; `calls` says which external calls succeed. */
  function CheckoutSpec(t: Tables, v: Variant, cart: seq<CartLine>, customerEmail: string,
                        newId: string, frontendUrl: string, calls: CheckoutCalls): (r: (Tables, CheckoutResult))
  {
    if cart == [] || customerEmail == "" then (t, EmptyCartOrMissingEmail)
    else if v == Current && (!calls.photoLookupOk || FirstPhotoOwner(t, cart).None?) then (t, PhotoNotFound)
    else if !calls.orderOk then (t, OrderInsertFailed)
    else
      var owner := if v == Current then FirstPhotoOwner(t, cart) else None;
      var t' := InsertOrder(t, newId, customerEmail, cart, owner);
      if !calls.itemsOk then (t'.(items := t.items), ItemsInsertFailed(newId))
      else if calls.preferenceOk then (t', PreferenceCreated(newId, BackUrl(frontendUrl, newId, customerEmail)))
      else (t', PreferenceFailed(newId))
  }

  /** The running total of the handler's loop. */
  method ComputeTotal(cart: seq<CartLine>) returns (total: int)
    ensures total == CartTotal(cart)
  {
    total := 0;
    for i := 0 to |cart|
      invariant total == CartTotal(cart[..i])
    {
      assert cart[..i + 1][..i] == cart[..i];
      total := total + LineAmount(cart[i]);
    }
    assert cart[..|cart|] == cart;
  }

  /** A 400 happens exactly for an empty cart or a missing email, and writes nothing. */
  lemma {:induction false} CheckoutRejects(t: Tables, v: Variant, cart: seq<CartLine>, customerEmail: string,
                        newId: string, frontendUrl: string, calls: CheckoutCalls)
    ensures var r := CheckoutSpec(t, v, cart, customerEmail, newId, frontendUrl, calls);
      (r.1 == EmptyCartOrMissingEmail <==> cart == [] || customerEmail == "")
      && (r.1 == EmptyCartOrMissingEmail ==> r.0 == t)
  {
  }

  /** A missing first photo (or album), or a failed lookup of it, stops the
      current handler with 404 before any write; the earlier handler has no
      such check. */
  lemma {:induction false} CheckoutPhotoNotFound(t: Tables, v: Variant, cart: seq<CartLine>, customerEmail: string,
                              newId: string, frontendUrl: string, calls: CheckoutCalls)
    ensures var r := CheckoutSpec(t, v, cart, customerEmail, newId, frontendUrl, calls);
      (r.1 == PhotoNotFound <==> v == Current && cart != [] && customerEmail != ""
                                  && (!calls.photoLookupOk || FirstPhotoOwner(t, cart).None?))
      && (r.1 == PhotoNotFound ==> r.0 == t)
  {
  }

  /** Once past validation, and when both inserts succeed, the handler writes a
      pending order whose total is the cart total, and item rows that snapshot
      the cart line by line; the new order's items add up to its total. Nothing
      else changes, and the consistency of items with orders is kept. The
      preference is created exactly when the processor accepts it. */
  lemma {:induction false} CheckoutWritesOrder(t: Tables, v: Variant, cart: seq<CartLine>, customerEmail: string,
                                               newId: string, frontendUrl: string, calls: CheckoutCalls)
    requires Consistent(t) && newId !in t.orders
    ensures var r := CheckoutSpec(t, v, cart, customerEmail, newId, frontendUrl, calls);
      (r.1.PreferenceCreated? || r.1.PreferenceFailed? <==>
        cart != [] && customerEmail != "" && calls.orderOk && calls.itemsOk
        && (v == Current ==> calls.photoLookupOk && FirstPhotoOwner(t, cart).Some?))
      && (r.1.PreferenceCreated? ==> calls.preferenceOk)
      && (r.1.PreferenceFailed? ==> !calls.preferenceOk)
    ensures var r := CheckoutSpec(t, v, cart, customerEmail, newId, frontendUrl, calls);
      r.1.PreferenceCreated? || r.1.PreferenceFailed? ==>
        && r.1.orderId == newId
        && newId in r.0.orders
        && r.0.orders[newId].status == Pending
        && r.0.orders[newId].customerEmail == customerEmail
        && r.0.orders[newId].totalAmount == CartTotal(cart)
        && r.0.orders[newId].paymentId.None?
        && r.0.orders[newId].downloadExpiresAt.None?
        && ItemsOf(r.0.items, newId) == SnapshotItems(newId, cart)
        && ItemsTotal(ItemsOf(r.0.items, newId)) == r.0.orders[newId].totalAmount
        && (forall id :: id in t.orders ==> id in r.0.orders && r.0.orders[id] == t.orders[id])
        && r.0.descargas == t.descargas && r.0.photos == t.photos
        && Consistent(r.0)
  {
    if cart != [] && customerEmail != "" {
      var owner := if v == Current then FirstPhotoOwner(t, cart) else None;
      InsertOrderItems(t, newId, customerEmail, cart, owner);
      InsertOrderConsistent(t, newId, customerEmail, cart, owner);
    }
  }

  /** A failed order insert answers 500 and writes nothing. A failed item
      insert answers 500 after the order insert: a `pending` order with the
      cart total stays behind, with no item rows. */
  lemma {:induction false} CheckoutInsertFailures(t: Tables, v: Variant, cart: seq<CartLine>, customerEmail: string,
                                                  newId: string, frontendUrl: string, calls: CheckoutCalls)
    requires Consistent(t) && newId !in t.orders
    ensures var r := CheckoutSpec(t, v, cart, customerEmail, newId, frontendUrl, calls);
      && (r.1 == OrderInsertFailed <==>
            cart != [] && customerEmail != "" && !calls.orderOk
            && (v == Current ==> calls.photoLookupOk && FirstPhotoOwner(t, cart).Some?))
      && (r.1 == OrderInsertFailed ==> r.0 == t)
      && (r.1.ItemsInsertFailed? <==>
            cart != [] && customerEmail != "" && calls.orderOk && !calls.itemsOk
            && (v == Current ==> calls.photoLookupOk && FirstPhotoOwner(t, cart).Some?))
      && (r.1.ItemsInsertFailed? ==>
            && r.1.orderId == newId
            && r.0.orders.Keys == t.orders.Keys + {newId}
            && r.0.orders[newId].status == Pending
            && r.0.orders[newId].totalAmount == CartTotal(cart)
            && r.0.items == t.items
            && ItemsOf(r.0.items, newId) == []
            && Consistent(r.0))
  {
    if cart != [] && customerEmail != "" {
      ItemsOfAbsent(t.items, newId);
    }
  }

  /** The order a failed item insert leaves behind can never be settled: the
      reconciler skips an order without items, whatever merchant order names it. */
  lemma {:induction false} OrphanOrderNeverSettles(t: Tables, v: Variant, cart: seq<CartLine>, customerEmail: string,
                                                   newId: string, frontendUrl: string, calls: CheckoutCalls,
                                                   mo: Reconcile.MerchantOrder, now: int, db: Reconcile.SettleCalls)
    requires Consistent(t) && newId !in t.orders
    requires CheckoutSpec(t, v, cart, customerEmail, newId, frontendUrl, calls).1.ItemsInsertFailed?
    requires mo.externalReference == newId
    ensures var t' := CheckoutSpec(t, v, cart, customerEmail, newId, frontendUrl, calls).0;
      !Reconcile.Settles(t', mo) && Reconcile.Reconcile(t', mo, now, db) == t'
  {
    CheckoutInsertFailures(t, v, cart, customerEmail, newId, frontendUrl, calls);
  }

  /** The two handlers write the same order and items; they differ only in the
      photographer attribution and in the current handler's 404. */
  lemma {:induction false} VariantsAgree(t: Tables, cart: seq<CartLine>, customerEmail: string,
                      newId: string, frontendUrl: string, calls: CheckoutCalls)
    requires CheckoutSpec(t, Current, cart, customerEmail, newId, frontendUrl, calls).1 != PhotoNotFound
    ensures var a := CheckoutSpec(t, Current, cart, customerEmail, newId, frontendUrl, calls);
      var b := CheckoutSpec(t, Legacy, cart, customerEmail, newId, frontendUrl, calls);
      a.1 == b.1 && a.0.items == b.0.items
      && (newId in a.0.orders <==> newId in b.0.orders)
      && (newId in a.0.orders ==> a.0.orders[newId] == b.0.orders[newId].(photographerId := a.0.orders[newId].photographerId))
  {
  }
}
