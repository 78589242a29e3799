/**
 * The landing page's cart: a photo enters the cart at most once (no
 * quantities), the badge shows the number of entries and the modal the sum of
 * their prices; the purchase is simulated once an address with `@` and `.`
 * is given. The page also rotates a carousel of workshop slides.
 */
module IndexCart {
  import opened JsText
  import GalleryCart

  /** A JavaScript value used as a photo id. The page's photos carry numbers;
      the remove button hands back a string. Datatype equality is `===`:
      a number never equals a string. */
  datatype PhotoId = Num(n: int) | Str(s: string)

  datatype IndexEntry = IndexEntry(id: PhotoId, studentCode: string, price: int)

  /** `${id}` in a template literal. */
  function Render(id: PhotoId): string {
    match id
    case Num(n) => if n >= 0 then NatToString(n) else "-" + NatToString(-n)
    case Str(s) => s
  }

  /** What the × button of an entry passes to `removeFromCart`: the id
      rendered inside quotes, so always a string. */
  function ButtonArgument(e: IndexEntry): (r: PhotoId)
    ensures r.Str? && r.s == Render(e.id)
    ensures e.id.Num? ==> r != e.id
  {
    Str(Render(e.id))
  }

  predicate NumericIds(cart: seq<IndexEntry>) {
    forall j :: 0 <= j < |cart| ==> cart[j].id.Num?
  }

  predicate Contains(cart: seq<IndexEntry>, id: PhotoId) {
    exists j :: 0 <= j < |cart| && cart[j].id == id
  }

  predicate DistinctIds(cart: seq<IndexEntry>) {
    forall i, j :: 0 <= i < j < |cart| ==> cart[i].id != cart[j].id
  }

  /** `addToCart`: pushed only when no entry has the photo's id. */
  function AddedOnce(cart: seq<IndexEntry>, photo: IndexEntry): (r: seq<IndexEntry>)
    ensures Contains(r, photo.id)
    ensures Contains(cart, photo.id) ==> r == cart
    ensures !Contains(cart, photo.id) ==> |r| == |cart| + 1 && r[..|cart|] == cart && r[|cart|] == photo
  {
    if Contains(cart, photo.id) then cart
    else
      var r := cart + [photo];
      assert r[|cart|].id == photo.id;
      assert r[..|cart|] == cart;
      r
  }

  /** `removeFromCart`: a filter on the id. */
  function Without(cart: seq<IndexEntry>, id: PhotoId): (r: seq<IndexEntry>)
    ensures |r| <= |cart|
    ensures forall e :: e in r <==> e in cart && e.id != id
  {
    if cart == [] then []
    else
      var init, last := cart[..|cart| - 1], cart[|cart| - 1];
      assert cart == init + [last];
      Without(init, id) + (if last.id == id then [] else [last])
  }

  /** Removing distributes over concatenation: it is a filter, so the
      entries that stay keep their relative order. */
  lemma {:induction false} WithoutConcat(a: seq<IndexEntry>, b: seq<IndexEntry>, id: PhotoId)
    ensures Without(a + b, id) == Without(a, id) + Without(b, id)
  {
    if b == [] {
      assert a + b == a;
    } else {
      var init, last := b[..|b| - 1], b[|b| - 1];
      assert (a + b)[..|a + b| - 1] == a + init;
      assert (a + b)[|a + b| - 1] == last;
      WithoutConcat(a, init, id);
    }
  }

  /** The modal's total: Σ price. */
  function PriceSum(cart: seq<IndexEntry>): int {
    if cart == [] then 0 else PriceSum(cart[..|cart| - 1]) + cart[|cart| - 1].price
  }

  /** Adding the same photo twice is adding it once. */
  lemma {:induction false} AddIdempotent(cart: seq<IndexEntry>, photo: IndexEntry)
    ensures AddedOnce(AddedOnce(cart, photo), photo) == AddedOnce(cart, photo)
  {
  }

  /** The cart never holds two entries for one photo. */
  lemma {:induction false} AddKeepsDistinct(cart: seq<IndexEntry>, photo: IndexEntry)
    requires DistinctIds(cart)
    ensures DistinctIds(AddedOnce(cart, photo))
  {
    if !Contains(cart, photo.id) {
      var r := AddedOnce(cart, photo);
      forall i, j | 0 <= i < j < |r| ensures r[i].id != r[j].id {
        if j == |cart| {
          assert r[i] == cart[i];
        } else {
          assert r[i] == cart[i] && r[j] == cart[j];
        }
      }
    }
  }

  /** Adding a new photo raises the count by one and the total by its price;
      adding one already there changes neither. */
  lemma {:induction false} AddedCountAndTotal(cart: seq<IndexEntry>, photo: IndexEntry)
    ensures |AddedOnce(cart, photo)| == |cart| + (if Contains(cart, photo.id) then 0 else 1)
    ensures PriceSum(AddedOnce(cart, photo)) == PriceSum(cart) + (if Contains(cart, photo.id) then 0 else photo.price)
  {
    if !Contains(cart, photo.id) {
      assert (cart + [photo])[..|cart|] == cart;
    }
  }

  lemma {:induction false} WithoutAbsent(cart: seq<IndexEntry>, id: PhotoId)
    requires !Contains(cart, id)
    ensures Without(cart, id) == cart
  {
    if cart != [] {
      var init, last := cart[..|cart| - 1], cart[|cart| - 1];
      assert last.id != id;
      forall j | 0 <= j < |init|
        ensures init[j].id != id
      {
        assert init[j] == cart[j];
      }
      WithoutAbsent(init, id);
      assert init + [last] == cart;
    }
  }

  /** Removing a photo just added gives back the cart as it was. */
  lemma {:induction false} RemoveUndoesAdd(cart: seq<IndexEntry>, photo: IndexEntry)
    requires !Contains(cart, photo.id)
    ensures Without(AddedOnce(cart, photo), photo.id) == cart
  {
    var r := cart + [photo];
    assert r[..|r| - 1] == cart;
    WithoutAbsent(cart, photo.id);
  }

  /** A click on the × of any entry of a cart of numbered photos removes
      nothing: the string argument is strictly unequal to every number. */
  lemma {:induction false} NumericClickKeepsCart(cart: seq<IndexEntry>, i: nat)
    requires NumericIds(cart) && i < |cart|
    ensures Without(cart, ButtonArgument(cart[i])) == cart
    ensures Contains(cart, cart[i].id)
  {
    WithoutAbsent(cart, ButtonArgument(cart[i]));
  }

  /** With string ids the same click removes exactly that photo. */
  lemma {:induction false} StringClickRemoves(cart: seq<IndexEntry>, i: nat)
    requires i < |cart| && cart[i].id.Str?
    ensures !Contains(Without(cart, ButtonArgument(cart[i])), cart[i].id)
    ensures forall e :: e in Without(cart, ButtonArgument(cart[i])) <==> e in cart && e.id != cart[i].id
  {
    var r := Without(cart, ButtonArgument(cart[i]));
    forall j | 0 <= j < |r|
      ensures r[j].id != cart[i].id
    {
      assert r[j] in r;
    }
  }

  /** The button as evidently intended, passing the entry's own id: the cart
      loses at least that entry, and keeps every other photo. */
  lemma {:induction false} OwnIdClickRemoves(cart: seq<IndexEntry>, i: nat)
    requires i < |cart|
    ensures |Without(cart, cart[i].id)| < |cart|
    ensures !Contains(Without(cart, cart[i].id), cart[i].id)
    ensures forall e :: e in Without(cart, cart[i].id) <==> e in cart && e.id != cart[i].id
  {
    var id, n := cart[i].id, |cart| - 1;
    var init := cart[..n];
    if i < n {
      assert init[i] == cart[i];
      OwnIdClickRemoves(init, i);
    }
    var r := Without(cart, id);
    forall j | 0 <= j < |r|
      ensures r[j].id != id
    {
      assert r[j] in r;
    }
  }

  /** `confirmCartPurchase`'s check: present, with an `@` and a `.` somewhere. */
  predicate PurchaseEmailOk(email: string) {
    email != "" && Includes(email, "@") && Includes(email, ".")
  }

  /** The three pages check an address with decreasing strictness: the
      gallery's pattern implies this page's `@`-and-`.` test, which implies
      the album page's `@` test; and the second admits addresses the first
      refuses. */
  lemma {:induction false} EmailChecksNested(s: string)
    ensures GalleryCart.IsValidEmail(s) ==> PurchaseEmailOk(s)
    ensures PurchaseEmailOk(s) ==> Includes(s, "@")
    ensures PurchaseEmailOk(".@") && !GalleryCart.IsValidEmail(".@")
  {
    if GalleryCart.IsValidEmail(s) {
      var at, dot :| 0 < at && at + 1 < dot && dot + 1 < |s| && s[at] == '@' && s[dot] == '.'
        && GalleryCart.EmailRun(s, 0, at) && GalleryCart.EmailRun(s, at + 1, dot) && GalleryCart.EmailRun(s, dot + 1, |s|);
      OccursChar(s, '@', at);
      OccursChar(s, '.', dot);
    }
    OccursChar(".@", '@', 1);
    OccursChar(".@", '.', 0);
  }

  /** A character found at `i` makes the one-character string occur there. */
  lemma {:induction false} OccursChar(s: string, c: char, i: nat)
    requires i < |s| && s[i] == c
    ensures Includes(s, [c])
  {
    assert s[i..i + 1] == [c];
    assert OccursAt(s, [c], i);
  }

  class IndexPage {
    /** The cart in storage. */
    var cart: seq<IndexEntry>
    /** What the badge and the modal show. */
    var shownCount: nat
    var shownTotal: int

    constructor (cart: seq<IndexEntry>)
      ensures this.cart == cart && shownCount == 0 && shownTotal == 0
    {
      this.cart := cart;
      shownCount := 0;
      shownTotal := 0;
    }

    /** `updateCartUI`: the badge shows the entry count; the total is
        accumulated entry by entry. */
    method UpdateCartUI()
      modifies this
      ensures cart == old(cart)
      ensures shownCount == |cart| && shownTotal == PriceSum(cart)
    {
      shownCount := |cart|;
      var total := 0;
      for i := 0 to |cart|
        invariant total == PriceSum(cart[..i])
      {
        assert cart[..i + 1][..i] == cart[..i];
        total := total + cart[i].price;
      }
      assert cart[..|cart|] == cart;
      shownTotal := total;
    }

    /** `addToCart`. */
    method AddToCart(photo: IndexEntry)
      modifies this
      ensures cart == AddedOnce(old(cart), photo)
      ensures !Contains(old(cart), photo.id) ==> shownCount == |cart| && shownTotal == PriceSum(cart)
      ensures Contains(old(cart), photo.id) ==> shownCount == old(shownCount) && shownTotal == old(shownTotal)
    {
      if !Contains(cart, photo.id) {
        cart := cart + [photo];
        UpdateCartUI();
      }
    }

    /** `removeFromCart`. */
    method RemoveFromCart(id: PhotoId)
      modifies this
      ensures cart == Without(old(cart), id)
      ensures shownCount == |cart| && shownTotal == PriceSum(cart)
    {
      cart := Without(cart, id);
      UpdateCartUI();
    }

    /** A click on the × of the entry at `i`: `removeFromCart` gets the
        rendered id as a string, so on this page's numbered photos the cart
        stays as it was. */
    method ClickRemove(i: nat)
      requires i < |cart|
      modifies this
      ensures cart == Without(old(cart), ButtonArgument(old(cart)[i]))
      ensures NumericIds(old(cart)) ==> cart == old(cart)
      ensures shownCount == |cart| && shownTotal == PriceSum(cart)
    {
      var arg := ButtonArgument(cart[i]);
      if NumericIds(cart) {
        NumericClickKeepsCart(cart, i);
      }
      RemoveFromCart(arg);
    }

    /** `checkoutCart`: the address prompt opens only for a non-empty cart. */
    method CheckoutCart() returns (proceed: bool)
      ensures proceed <==> cart != []
    {
      proceed := |cart| != 0;
    }

    /** `confirmCartPurchase`: the purchase is only simulated; with an
        acceptable address the stored cart is removed. */
    method ConfirmCartPurchase(email: string) returns (done: bool)
      modifies this
      ensures done <==> PurchaseEmailOk(email)
      ensures done ==> cart == [] && shownCount == 0 && shownTotal == 0
      ensures !done ==> cart == old(cart) && shownCount == old(shownCount) && shownTotal == old(shownTotal)
    {
      if !PurchaseEmailOk(email) {
        return false;
      }
      cart := [];
      UpdateCartUI();
      done := true;
    }
  }

  // ---------------------------------------------------------------- the carousel

  /** One tick of the carousel: the next slide, wrapping to the first after the last. */
  function Step(current: nat, total: nat): (r: nat)
    requires current < total
    ensures r < total
    ensures r == 0 <==> current == total - 1
  {
    if current + 1 == total then 0 else current + 1
  }

  /** `(currentSlide + 1) % totalSlides` is that step. */
  lemma {:induction false} ModIsStep(current: nat, total: nat)
    requires current < total
    ensures (current + 1) % total == Step(current, total)
  {
    var q, r := (current + 1) / total, (current + 1) % total;
    assert current + 1 == q * total + r && 0 <= r < total;
  }

  /** The slide shown after `k` ticks starting at slide `i`. */
  function Advance(i: nat, k: nat, total: nat): (r: nat)
    requires i < total
    ensures r < total
  {
    if k == 0 then i else Step(Advance(i, k - 1, total), total)
  }

  /** Up to a full round, `k` ticks move the carousel `k` slides on, wrapping once. */
  lemma {:induction false} AdvanceWithinRound(i: nat, k: nat, total: nat)
    requires i < total && k <= total
    ensures Advance(i, k, total) == if i + k < total then i + k else i + k - total
  {
    if k > 0 {
      AdvanceWithinRound(i, k - 1, total);
    }
  }

  /** After a full round of ticks the carousel is back on the slide it
      started from. */
  lemma {:induction false} AdvanceRound(i: nat, total: nat)
    requires i < total
    ensures Advance(i, total, total) == i
  {
    AdvanceWithinRound(i, total, total);
  }

  class Carousel {
    const totalSlides: nat
    var currentSlide: nat

    predicate Valid()
      reads this
    {
      currentSlide < totalSlides
    }

    /** The page fills the container with its six workshop slides before
        counting them, so there is always at least one. */
    constructor (totalSlides: nat)
      requires totalSlides > 0
      ensures Valid() && this.totalSlides == totalSlides && currentSlide == 0
    {
      this.totalSlides := totalSlides;
      currentSlide := 0;
    }

    /** `nextSlide`. */
    method NextSlide()
      requires Valid()
      modifies this
      ensures Valid()
      ensures currentSlide == Step(old(currentSlide), totalSlides)
    {
      ModIsStep(currentSlide, totalSlides);
      currentSlide := (currentSlide + 1) % totalSlides;
    }
  }
}
