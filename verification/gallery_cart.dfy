/**
 * The buyer's gallery page: the cart kept in the browser's storage under
 * `cart`, where adding a photo already in the cart bumps its quantity, and
 * the two ways of sending it to the checkout endpoint (the whole cart, or a
 * single photo bought at once), both gated by the e-mail pattern.
 * Prices are whole minor units; the responses of the checkout endpoint are
 * inputs.
 */
module GalleryCart {
  import opened Base
  import opened JsText
  import Orders
  import Checkout

  datatype CartEntry = CartEntry(photoId: string, albumId: string, price: int, quantity: int)

  /** The fields of a gallery photo the cart copies. */
  datatype GalleryPhoto = GalleryPhoto(id: string, albumId: string, price: int)

  /** How the checkout request ended: `response.ok`, a non-OK answer, or a
      network or parse error. */
  datatype Response = Succeeded | Refused | NetworkError

  /** The body posted to the checkout endpoint. */
  datatype CheckoutRequest = CheckoutRequest(cart: seq<CartEntry>, customerEmail: string)

  function NewEntry(photo: GalleryPhoto): CartEntry {
    CartEntry(photo.id, photo.albumId, photo.price, 1)
  }

  /** `cart.find(item => item.photoId === photoId)`, as an index. */
  function FirstIndex(cart: seq<CartEntry>, photoId: string): (r: Option<nat>)
    ensures r.Some? ==> r.value < |cart| && cart[r.value].photoId == photoId
    ensures r.Some? ==> forall j :: 0 <= j < r.value ==> cart[j].photoId != photoId
    ensures r.None? <==> forall j :: 0 <= j < |cart| ==> cart[j].photoId != photoId
  {
    if cart == [] then None
    else if cart[0].photoId == photoId then Some(0)
    else match FirstIndex(cart[1..], photoId)
      case None =>
        assert forall j :: 1 <= j < |cart| ==> cart[j] == cart[1..][j - 1];
        None
      case Some(i) => Some(i + 1)
  }

  predicate Contains(cart: seq<CartEntry>, photoId: string) {
    exists j :: 0 <= j < |cart| && cart[j].photoId == photoId
  }

  /** `addToCart`: the first entry for the photo gets one more copy, or a new
      entry with one copy goes at the end. */
  function Added(cart: seq<CartEntry>, photo: GalleryPhoto): (r: seq<CartEntry>)
    ensures Contains(r, photo.id)
    ensures |r| == |cart| + (if Contains(cart, photo.id) then 0 else 1)
    ensures forall j :: 0 <= j < |cart| ==> r[j].photoId == cart[j].photoId && r[j].price == cart[j].price
    ensures forall j :: 0 <= j < |cart| && cart[j].photoId != photo.id ==> r[j] == cart[j]
  {
    match FirstIndex(cart, photo.id)
    case Some(i) =>
      var r := cart[i := cart[i].(quantity := cart[i].quantity + 1)];
      assert r[i].photoId == photo.id;
      r
    case None =>
      var r := cart + [NewEntry(photo)];
      assert r[|cart|].photoId == photo.id;
      r
  }

  /** `removeFromCart`: every entry for the photo goes, the rest keep their order. */
  function Removed(cart: seq<CartEntry>, photoId: string): (r: seq<CartEntry>)
    ensures |r| <= |cart|
    ensures forall e :: e in r <==> e in cart && e.photoId != photoId
  {
    if cart == [] then []
    else
      var init, last := cart[..|cart| - 1], cart[|cart| - 1];
      assert cart == init + [last];
      Removed(init, photoId) + (if last.photoId == photoId then [] else [last])
  }

  /** Removing distributes over concatenation: it is a filter, so the
      entries that stay keep their relative order. */
  lemma {:induction false} RemovedConcat(a: seq<CartEntry>, b: seq<CartEntry>, photoId: string)
    ensures Removed(a + b, photoId) == Removed(a, photoId) + Removed(b, photoId)
  {
    if b == [] {
      assert a + b == a;
    } else {
      var init, last := b[..|b| - 1], b[|b| - 1];
      assert (a + b)[..|a + b| - 1] == a + init;
      assert (a + b)[|a + b| - 1] == last;
      RemovedConcat(a, init, photoId);
    }
  }

  /** The number shown on the cart badge: Σ quantity. */
  function Count(cart: seq<CartEntry>): int {
    if cart == [] then 0 else Count(cart[..|cart| - 1]) + cart[|cart| - 1].quantity
  }

  /** The cart total: Σ price × quantity. */
  function Total(cart: seq<CartEntry>): int {
    if cart == [] then 0 else Total(cart[..|cart| - 1]) + cart[|cart| - 1].price * cart[|cart| - 1].quantity
  }

  /** The state of the cart modal's checkout button. */
  predicate CheckoutDisabled(cart: seq<CartEntry>) {
    Count(cart) == 0
  }

  /** What the page's own operations keep true of the stored cart: every
      entry holds at least one copy, and no photo has two entries. */
  predicate WellFormed(cart: seq<CartEntry>) {
    && (forall j :: 0 <= j < |cart| ==> cart[j].quantity >= 1)
    && DistinctIds(cart)
  }

  predicate DistinctIds(cart: seq<CartEntry>) {
    forall i, j :: 0 <= i < j < |cart| ==> cart[i].photoId != cart[j].photoId
  }

  lemma {:induction false} CountUpdate(cart: seq<CartEntry>, i: nat, e: CartEntry)
    requires i < |cart|
    ensures Count(cart[i := e]) == Count(cart) - cart[i].quantity + e.quantity
    ensures Total(cart[i := e]) == Total(cart) - cart[i].price * cart[i].quantity + e.price * e.quantity
    decreases |cart|
  {
    var c2 := cart[i := e];
    var last := |cart| - 1;
    if i < last {
      assert c2[..last] == cart[..last][i := e];
      CountUpdate(cart[..last], i, e);
    } else {
      assert c2[..last] == cart[..last];
    }
  }

  /** Adding a photo adds exactly one copy to the badge count. */
  lemma {:induction false} AddedCount(cart: seq<CartEntry>, photo: GalleryPhoto)
    ensures Count(Added(cart, photo)) == Count(cart) + 1
  {
    match FirstIndex(cart, photo.id)
    case Some(i) =>
      CountUpdate(cart, i, cart[i].(quantity := cart[i].quantity + 1));
    case None =>
      var r := cart + [NewEntry(photo)];
      assert r[..|r| - 1] == cart;
  }

  lemma {:induction false} OneMoreCopy(price: int, quantity: int)
    ensures price * (quantity + 1) == price * quantity + price
  {
  }

  /** Adding a photo adds to the total the price of the entry that got the
      copy: the price stored when the photo was first added, not the photo's
      current one. */
  lemma {:induction false} AddedTotal(cart: seq<CartEntry>, photo: GalleryPhoto)
    ensures Total(Added(cart, photo)) == Total(cart) +
      (match FirstIndex(cart, photo.id) case Some(i) => cart[i].price case None => photo.price)
  {
    match FirstIndex(cart, photo.id)
    case Some(i) =>
      var e := cart[i];
      var e1 := e.(quantity := e.quantity + 1);
      assert Added(cart, photo) == cart[i := e1];
      CountUpdate(cart, i, e1);
      OneMoreCopy(e.price, e.quantity);
    case None =>
      var r := cart + [NewEntry(photo)];
      assert Added(cart, photo) == r;
      assert r[..|r| - 1] == cart;
      assert Total(r) == Total(cart) + photo.price * 1;
  }

  /** Adding keeps the cart well formed: a photo never gets a second entry. */
  lemma {:induction false} AddedWellFormed(cart: seq<CartEntry>, photo: GalleryPhoto)
    requires WellFormed(cart)
    ensures WellFormed(Added(cart, photo))
  {
    var r := Added(cart, photo);
    if !Contains(cart, photo.id) {
      assert r[|cart|].photoId == photo.id;
      forall i, j | 0 <= i < j < |r| ensures r[i].photoId != r[j].photoId {
        if j == |cart| {
          assert cart[i].photoId != photo.id;
        }
      }
    }
  }

  lemma {:induction false} RemovedAbsent(cart: seq<CartEntry>, photoId: string)
    requires forall j :: 0 <= j < |cart| ==> cart[j].photoId != photoId
    ensures Removed(cart, photoId) == cart
  {
    if cart != [] {
      var init := cart[..|cart| - 1];
      forall j | 0 <= j < |init| ensures init[j].photoId != photoId {
        assert init[j] == cart[j];
      }
      RemovedAbsent(init, photoId);
      assert init + [cart[|cart| - 1]] == cart;
    }
  }

  /** Removing a photo that was just added as a new entry gives back the cart
      as it was. */
  lemma {:induction false} RemoveUndoesAdd(cart: seq<CartEntry>, photo: GalleryPhoto)
    requires !Contains(cart, photo.id)
    ensures Removed(Added(cart, photo), photo.id) == cart
  {
    var r := cart + [NewEntry(photo)];
    assert r[..|r| - 1] == cart;
    RemovedAbsent(cart, photo.id);
  }

  lemma {:induction false} RemovedDistinct(cart: seq<CartEntry>, photoId: string)
    requires DistinctIds(cart)
    ensures DistinctIds(Removed(cart, photoId))
  {
    if cart != [] {
      var init, last := cart[..|cart| - 1], cart[|cart| - 1];
      RemovedDistinct(init, photoId);
      var ri := Removed(init, photoId);
      if last.photoId != photoId {
        forall i | 0 <= i < |ri| ensures ri[i].photoId != last.photoId {
          assert ri[i] in ri;
          var k :| 0 <= k < |init| && init[k] == ri[i];
          assert cart[k] == init[k];
        }
        var r := ri + [last];
        assert Removed(cart, photoId) == r;
        forall i, j | 0 <= i < j < |r| ensures r[i].photoId != r[j].photoId {
          if j == |ri| {
            assert r[i] == ri[i];
          } else {
            assert r[i] == ri[i] && r[j] == ri[j];
          }
        }
      } else {
        assert Removed(cart, photoId) == ri;
      }
    }
  }

  /** Removing keeps the cart well formed and drops the photo entirely. */
  lemma {:induction false} RemovedWellFormed(cart: seq<CartEntry>, photoId: string)
    requires WellFormed(cart)
    ensures WellFormed(Removed(cart, photoId))
    ensures !Contains(Removed(cart, photoId), photoId)
  {
    var r := Removed(cart, photoId);
    forall j | 0 <= j < |r| ensures r[j].photoId != photoId && r[j].quantity >= 1 {
      assert r[j] in r;
      var k :| 0 <= k < |cart| && cart[k] == r[j];
    }
    RemovedDistinct(cart, photoId);
  }

  lemma {:induction false} CountAtLeastLength(cart: seq<CartEntry>)
    requires forall j :: 0 <= j < |cart| ==> cart[j].quantity >= 1
    ensures Count(cart) >= |cart|
  {
    if cart != [] {
      CountAtLeastLength(cart[..|cart| - 1]);
    }
  }

  /** On a well-formed cart the checkout button is disabled exactly when the
      cart is empty. */
  lemma {:induction false} DisabledIffEmpty(cart: seq<CartEntry>)
    requires WellFormed(cart)
    ensures CheckoutDisabled(cart) <==> cart == []
  {
    CountAtLeastLength(cart);
  }

  // ---------------------------------------------------------------- the e-mail pattern

  predicate EmailChar(c: char) {
    !IsSpace(c) && c != '@'
  }

  /** `s[lo..hi]` is a non-empty run of `[^\s@]`. */
  predicate EmailRun(s: string, lo: nat, hi: nat)
    requires hi <= |s|
  {
    lo < hi && forall j :: lo <= j < hi ==> EmailChar(s[j])
  }

  /** `^[^\s@]+@[^\s@]+\.[^\s@]+$`, read literally: a run, `@`, a run, `.`, a run. */
  predicate IsValidEmail(s: string) {
    exists at, dot :: 0 < at && at + 1 < dot && dot + 1 < |s| && s[at] == '@' && s[dot] == '.'
      && EmailRun(s, 0, at) && EmailRun(s, at + 1, dot) && EmailRun(s, dot + 1, |s|)
  }

  /** The pattern accepts exactly the strings with no white space and exactly
      one `@`, not at the start, followed later by a `.` that is neither right
      after the `@` nor the last character. */
  lemma {:induction false} ValidEmailCharacterised(s: string)
    ensures IsValidEmail(s) <==>
      && NoSpace(s)
      && exists at :: 0 < at < |s| && s[at] == '@'
           && (forall j :: 0 <= j < |s| && j != at ==> s[j] != '@')
           && (exists dot :: at + 1 < dot < |s| - 1 && s[dot] == '.')
  {
    if IsValidEmail(s) {
      var at, dot :| 0 < at && at + 1 < dot && dot + 1 < |s| && s[at] == '@' && s[dot] == '.'
        && EmailRun(s, 0, at) && EmailRun(s, at + 1, dot) && EmailRun(s, dot + 1, |s|);
      forall j | 0 <= j < |s| && j != at ensures s[j] != '@' && !IsSpace(s[j]) {
        if j < at { assert EmailChar(s[j]); }
        else if j < dot { assert EmailChar(s[j]); }
        else if j > dot { assert EmailChar(s[j]); }
      }
      assert !IsSpace(s[at]);
    }
    if NoSpace(s) && (exists at :: (0 < at < |s| && s[at] == '@'
                                   && (forall j :: 0 <= j < |s| && j != at ==> s[j] != '@')
                                   && (exists dot :: at + 1 < dot < |s| - 1 && s[dot] == '.'))) {
      var at :| 0 < at < |s| && s[at] == '@'
         && (forall j :: 0 <= j < |s| && j != at ==> s[j] != '@')
         && (exists dot :: at + 1 < dot < |s| - 1 && s[dot] == '.');
      var dot :| at + 1 < dot < |s| - 1 && s[dot] == '.';
      assert EmailRun(s, 0, at) && EmailRun(s, at + 1, dot) && EmailRun(s, dot + 1, |s|);
    }
  }

  // ---------------------------------------------------------------- what the server makes of the request

  /** The cart as the checkout endpoint reads it. */
  function AsCartLines(cart: seq<CartEntry>): (r: seq<Orders.CartLine>)
    ensures |r| == |cart|
    ensures forall j :: 0 <= j < |cart| ==> r[j] == Orders.CartLine(cart[j].photoId, cart[j].price, Some(cart[j].quantity))
  {
    seq(|cart|, j requires 0 <= j < |cart| => Orders.CartLine(cart[j].photoId, cart[j].price, Some(cart[j].quantity)))
  }

  /** The server charges what the page shows: for a well-formed cart the
      checkout endpoint's total equals the cart total. */
  lemma {:induction false} ServerTotalAgrees(cart: seq<CartEntry>)
    requires forall j :: 0 <= j < |cart| ==> cart[j].quantity >= 1
    ensures Orders.CartTotal(AsCartLines(cart)) == Total(cart)
  {
    if cart != [] {
      var init := cart[..|cart| - 1];
      assert AsCartLines(cart)[..|cart| - 1] == AsCartLines(init);
      ServerTotalAgrees(init);
    }
  }

  // ---------------------------------------------------------------- the page

  /** The cart stored in the browser. */
  class StoredCart {
    var items: seq<CartEntry>

    constructor (items: seq<CartEntry>)
      ensures this.items == items
    {
      this.items := items;
    }

    /** `addToCart`: look for the photo, then bump its entry in place or push a new one. */
    method AddToCart(photo: GalleryPhoto)
      modifies this
      ensures items == Added(old(items), photo)
    {
      var i := 0;
      while i < |items| && items[i].photoId != photo.id
        invariant 0 <= i <= |items|
        invariant forall j :: 0 <= j < i ==> items[j].photoId != photo.id
      {
        i := i + 1;
      }
      if i < |items| {
        items := items[i := items[i].(quantity := items[i].quantity + 1)];
      } else {
        items := items + [NewEntry(photo)];
      }
    }

    /** `removeFromCart`. */
    method RemoveFromCart(photoId: string)
      modifies this
      ensures items == Removed(old(items), photoId)
    {
      items := Removed(items, photoId);
    }

    /** The e-mail modal's confirm button: the trimmed address must match the
        pattern; the whole cart is posted and, once the server accepts it,
        the stored cart is emptied. */
    method ConfirmCartEmail(input: string, response: Response) returns (request: Option<CheckoutRequest>)
      modifies this
      ensures request.Some? <==> IsValidEmail(Trim(input))
      ensures request.Some? ==> request.value == CheckoutRequest(old(items), Trim(input))
      ensures items == (if request.Some? && response == Succeeded then [] else old(items))
    {
      var customerEmail := Trim(input);
      if !IsValidEmail(customerEmail) {
        return None;
      }
      request := Some(CheckoutRequest(items, customerEmail));
      if response == Succeeded {
        items := [];
      }
    }

    /** "Buy now" from the photo modal: a one-entry cart with one copy of the
        photo is posted; on success the stored cart is emptied as well, even
        though it was not part of the purchase. */
    method BuyNow(photo: GalleryPhoto, input: string, response: Response) returns (request: Option<CheckoutRequest>)
      modifies this
      ensures request.Some? <==> IsValidEmail(Trim(input))
      ensures request.Some? ==> request.value == CheckoutRequest([NewEntry(photo)], Trim(input))
      ensures items == (if request.Some? && response == Succeeded then [] else old(items))
    {
      var customerEmail := Trim(input);
      if !IsValidEmail(customerEmail) {
        return None;
      }
      request := Some(CheckoutRequest([NewEntry(photo)], customerEmail));
      if response == Succeeded {
        items := [];
      }
    }
  }

  /** A request the page sends with a non-empty cart passes the server's
      empty-cart / missing-email check: a matching address is never empty. */
  lemma {:induction false} RequestPassesServerCheck(req: CheckoutRequest, t: Orders.Tables, v: Checkout.Variant,
                                 newId: string, frontendUrl: string, calls: Checkout.CheckoutCalls)
    requires req.cart != [] && IsValidEmail(req.customerEmail)
    ensures Checkout.CheckoutSpec(t, v, AsCartLines(req.cart), req.customerEmail, newId, frontendUrl, calls).1
            != Checkout.EmptyCartOrMissingEmail
  {
    Checkout.CheckoutRejects(t, v, AsCartLines(req.cart), req.customerEmail, newId, frontendUrl, calls);
  }
}
