/**
 * The order tables of the store, as values. The database itself is not
 * modelled: a table is a map keyed by primary key or a sequence of rows in
 * insertion order, and a query is a function over it.
 */
module Orders {
  import opened Base

  datatype OrderStatus = Pending | Paid | OtherStatus(name: string)

  /** A row of `orders`. A payment id of 0 is stored but reads as falsy. */
  datatype Order = Order(
    customerEmail: string,
    totalAmount: int,
    status: OrderStatus,
    paymentId: Option<nat>,
    downloadExpiresAt: Option<int>,
    photographerId: Option<string>)

  /** A row of `order_items`. */
  datatype OrderItem = OrderItem(orderId: string, photoId: string, priceAtPurchase: int, quantity: int)

  /** A row of `descargas`, the per-order download counter. The settlement
      path fills `userEmail`, the quota path fills `userId`. */
  datatype DownloadRecord = DownloadRecord(orderId: string, userEmail: Option<string>, userId: Option<string>, contador: int)

  /** A row of `photos` joined with its album's photographer; the photographer
      is None when the photo belongs to no album. `originalFilePath` is the
      column the download gate reads, `originalPath` the one the quota variant
      reads. */
  datatype Photo = Photo(originalFilePath: string, originalPath: Option<string>, photographerId: Option<string>)

  datatype Tables = Tables(
    orders: map<string, Order>,
    items: seq<OrderItem>,
    descargas: seq<DownloadRecord>,
    photos: map<string, Photo>)

  /** Truthiness of a stored payment id. */
  predicate HasPaymentId(o: Order) {
    o.paymentId.Some? && o.paymentId.value != 0
  }

  /** The rows of `order_items` that belong to `orderId`, in table order. */
  function ItemsOf(items: seq<OrderItem>, orderId: string): (r: seq<OrderItem>)
    ensures |r| <= |items|
    ensures forall x :: x in r <==> x in items && x.orderId == orderId
  {
    if items == [] then []
    else if items[0].orderId == orderId then [items[0]] + ItemsOf(items[1..], orderId)
    else ItemsOf(items[1..], orderId)
  }

  /** Number of `order_items` rows matching both the order and the photo. */
  function ItemRowCount(items: seq<OrderItem>, orderId: string, photoId: string): (n: nat)
    ensures n <= |items|
    ensures n == 0 <==> forall x :: x in items ==> !(x.orderId == orderId && x.photoId == photoId)
  {
    if items == [] then 0
    else
      var here := if items[0].orderId == orderId && items[0].photoId == photoId then 1 else 0;
      here + ItemRowCount(items[1..], orderId, photoId)
  }

  /** The `descargas` rows of `orderId`, in table order. */
  function RecordsOf(descargas: seq<DownloadRecord>, orderId: string): (r: seq<DownloadRecord>)
    ensures |r| <= |descargas|
    ensures forall x :: x in r <==> x in descargas && x.orderId == orderId
  {
    if descargas == [] then []
    else if descargas[0].orderId == orderId then [descargas[0]] + RecordsOf(descargas[1..], orderId)
    else RecordsOf(descargas[1..], orderId)
  }

  lemma {:induction false} RecordsOfAppend(descargas: seq<DownloadRecord>, d: DownloadRecord, orderId: string)
    ensures RecordsOf(descargas + [d], orderId)
         == RecordsOf(descargas, orderId) + (if d.orderId == orderId then [d] else [])
  {
    if descargas == [] {
      assert descargas + [d] == [d];
    } else {
      assert (descargas + [d])[1..] == descargas[1..] + [d];
      RecordsOfAppend(descargas[1..], d, orderId);
    }
  }

  /** One line of a checkout cart as the client sends it. */
  datatype CartLine = CartLine(photoId: string, price: int, quantity: Option<int>)

  /** `quantity || 1`: an absent or zero quantity counts as one. */
  function QtyOr1(q: Option<int>): (n: int)
    ensures n != 0
    ensures q.Some? && q.value != 0 ==> n == q.value
  {
    if q.None? || q.value == 0 then 1 else q.value
  }

  /** Σ price × (quantity or 1) over the cart. */
  function CartTotal(cart: seq<CartLine>): int
  {
    if cart == [] then 0 else CartTotal(cart[..|cart| - 1]) + LineAmount(cart[|cart| - 1])
  }

  function LineAmount(line: CartLine): int
  {
    line.price * QtyOr1(line.quantity)
  }

  /** Σ price_at_purchase × quantity over stored items. */
  function ItemsTotal(items: seq<OrderItem>): int
  {
    if items == [] then 0 else ItemsTotal(items[..|items| - 1]) + items[|items| - 1].priceAtPurchase * items[|items| - 1].quantity
  }

  function SnapshotLine(orderId: string, line: CartLine): OrderItem
  {
    OrderItem(orderId, line.photoId, line.price, QtyOr1(line.quantity))
  }

  /** The `order_items` rows a checkout writes: one per cart line, in cart order. */
  function SnapshotItems(orderId: string, cart: seq<CartLine>): (r: seq<OrderItem>)
    ensures |r| == |cart|
    ensures forall i :: 0 <= i < |cart| ==>
      r[i].orderId == orderId && r[i].photoId == cart[i].photoId
      && r[i].priceAtPurchase == cart[i].price && r[i].quantity == QtyOr1(cart[i].quantity)
  {
    if cart == [] then [] else SnapshotItems(orderId, cart[..|cart| - 1]) + [SnapshotLine(orderId, cart[|cart| - 1])]
  }

  /** The stored items add up to the order total written beside them. */
  lemma {:induction false} SnapshotPreservesTotal(orderId: string, cart: seq<CartLine>)
    ensures ItemsTotal(SnapshotItems(orderId, cart)) == CartTotal(cart)
  {
    if cart != [] {
      var init := cart[..|cart| - 1];
      var r := SnapshotItems(orderId, cart);
      SnapshotPreservesTotal(orderId, init);
      assert r[..|r| - 1] == SnapshotItems(orderId, init);
    }
  }

  /** The snapshot rows are exactly the items of the new order. */
  lemma {:induction false} SnapshotItemsOf(orderId: string, cart: seq<CartLine>)
    ensures ItemsOf(SnapshotItems(orderId, cart), orderId) == SnapshotItems(orderId, cart)
  {
    if cart != [] {
      var r := SnapshotItems(orderId, cart);
      ItemsOfAppend(r[..|r| - 1], r[|r| - 1], orderId);
      assert r[..|r| - 1] + [r[|r| - 1]] == r;
      SnapshotItemsOf(orderId, cart[..|cart| - 1]);
    }
  }

  lemma {:induction false} ItemsOfAppend(items: seq<OrderItem>, x: OrderItem, orderId: string)
    ensures ItemsOf(items + [x], orderId) == ItemsOf(items, orderId) + (if x.orderId == orderId then [x] else [])
  {
    if items == [] {
      assert items + [x] == [x];
    } else {
      assert (items + [x])[1..] == items[1..] + [x];
      ItemsOfAppend(items[1..], x, orderId);
    }
  }

  lemma {:induction false} ItemsOfAbsent(items: seq<OrderItem>, orderId: string)
    requires forall x :: x in items ==> x.orderId != orderId
    ensures ItemsOf(items, orderId) == []
  {
    if items != [] {
      assert items[0] in items;
      ItemsOfAbsent(items[1..], orderId);
    }
  }

  lemma {:induction false} ItemsOfConcat(a: seq<OrderItem>, b: seq<OrderItem>, orderId: string)
    ensures ItemsOf(a + b, orderId) == ItemsOf(a, orderId) + ItemsOf(b, orderId)
  {
    if a == [] {
      assert a + b == b;
    } else {
      assert (a + b)[1..] == a[1..] + b;
      ItemsOfConcat(a[1..], b, orderId);
    }
  }
}
