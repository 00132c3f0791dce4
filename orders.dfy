/** Checkout and the order queries of `clothing-store-backend/routes/ordersRouter.js`:
    freezing a cart into order lines, the order total, the paginated newest-first
    listing, the owner check on a single order, and the checkout sequence
    (create the order, then delete the cart, then try the confirmation email). */
module Orders {
  import opened Common
  import opened Product
  import opened Cart

  type OrderId = nat

  /** A frozen order line: the product's name and unit price (cents) as they were at checkout. */
  datatype OrderLine = OrderLine(product: ProductId, name: string, price: nat, size: Size, quantity: int)

  datatype Order = Order(id: OrderId, user: UserId, items: seq<OrderLine>, totalPrice: int, orderDate: int)

  // ---------------------------------------------------------------- snapshot and total

  /** `cart.items.map(...)`: one frozen line per cart line, in order, copying the product id,
      the product's current name and price, and the line's size and quantity. */
  function Snapshot(lines: seq<CartLine>, catalogue: map<ProductId, Product>): (r: seq<OrderLine>)
    requires forall i :: 0 <= i < |lines| ==> lines[i].product in catalogue
    ensures |r| == |lines|
    ensures forall i :: 0 <= i < |lines| ==>
      && r[i].product == lines[i].product
      && r[i].name == catalogue[lines[i].product].name
      && r[i].price == catalogue[lines[i].product].price
      && r[i].size == lines[i].size
      && r[i].quantity == lines[i].quantity
  {
    if lines == [] then []
    else
      var prod := catalogue[lines[0].product];
      [OrderLine(lines[0].product, prod.name, prod.price, lines[0].size, lines[0].quantity)]
      + Snapshot(lines[1..], catalogue)
  }

  function Subtotal(l: OrderLine): int {
    l.price * l.quantity
  }

  /** `orderItems.reduce((total, item) => total + item.price * item.quantity, 0)`, folding from the left. */
  function Total(items: seq<OrderLine>): int {
    if items == [] then 0 else Total(items[..|items| - 1]) + Subtotal(items[|items| - 1])
  }

  /** The sum of the line subtotals, taken from the front: the reference the fold is checked against. */
  function Sum(items: seq<OrderLine>): int {
    if items == [] then 0 else Subtotal(items[0]) + Sum(items[1..])
  }

  /** The total of two runs of lines is the sum of their totals. */
  lemma {:induction false} TotalAppend(a: seq<OrderLine>, b: seq<OrderLine>)
    ensures Total(a + b) == Total(a) + Total(b)
  {
    if b == [] {
      assert a + b == a;
    } else {
      var b' := b[..|b| - 1];
      assert (a + b)[..|a + b| - 1] == a + b';
      TotalAppend(a, b');
    }
  }

  /** The left fold computes exactly the sum of `price * quantity` over all lines. */
  lemma {:induction false} TotalIsSum(items: seq<OrderLine>)
    ensures Total(items) == Sum(items)
  {
    if items != [] {
      TotalIsSum(items[1..]);
      TotalAppend([items[0]], items[1..]);
      assert [items[0]] + items[1..] == items;
      assert Total([items[0]]) == Subtotal(items[0]) by {
        assert [items[0]][..0] == [];
      }
    }
  }

  /** With no negative quantity (which add-item does not enforce) the total is never negative. */
  lemma {:induction false} TotalNonNegative(items: seq<OrderLine>)
    requires forall i :: 0 <= i < |items| ==> items[i].quantity >= 0
    ensures Total(items) >= 0
  {
    if items != [] {
      TotalNonNegative(items[..|items| - 1]);
    }
  }

  /** Ten units of currency twice plus five and a half once come to exactly 25.50, in cents. */
  lemma TotalExample(p: ProductId, q: ProductId)
    ensures Total([OrderLine(p, "Jeans", 1000, M, 2), OrderLine(q, "Tee", 550, L, 1)]) == 2550
  {
    var items := [OrderLine(p, "Jeans", 1000, M, 2), OrderLine(q, "Tee", 550, L, 1)];
    assert items[..1] == [items[0]];
    assert [items[0]][..0] == [];
    assert Total([items[0]]) == 2000;
  }

  // ---------------------------------------------------------------- listing

  /** `Order.find({ user })` in storage order. */
  function ForUser(orders: seq<Order>, u: UserId): (r: seq<Order>)
    ensures forall o :: o in r <==> o in orders && o.user == u
    ensures forall i :: 0 <= i < |r| ==> r[i].user == u
    ensures forall o :: multiset(r)[o] == if o.user == u then multiset(orders)[o] else 0
    ensures |r| <= |orders|
  {
    if orders == [] then []
    else
      assert orders == [orders[0]] + orders[1..];
      (if orders[0].user == u then [orders[0]] else []) + ForUser(orders[1..], u)
  }

  predicate NewestFirst(s: seq<Order>) {
    forall i, j :: 0 <= i < j < |s| ==> s[i].orderDate >= s[j].orderDate
  }

  /** Places `o` before the first order that is strictly older. */
  function Insert(o: Order, s: seq<Order>): (r: seq<Order>)
    ensures multiset(r) == multiset(s) + multiset{o}
    ensures |r| == |s| + 1 && (r[0] == o || (s != [] && r[0] == s[0]))
  {
    if s == [] || o.orderDate >= s[0].orderDate then
      [o] + s
    else
      assert s == [s[0]] + s[1..];
      [s[0]] + Insert(o, s[1..])
  }

  /** Inserting into a newest-first run keeps it newest-first. */
  lemma {:induction false} InsertSorted(o: Order, s: seq<Order>)
    requires NewestFirst(s)
    ensures NewestFirst(Insert(o, s))
  {
    if s != [] && o.orderDate < s[0].orderDate {
      InsertSorted(o, s[1..]);
    }
  }

  /** `.sort({ orderDate: -1 })`: the same orders, newest first. */
  function SortNewestFirst(s: seq<Order>): (r: seq<Order>)
    ensures NewestFirst(r)
    ensures multiset(r) == multiset(s)
  {
    if s == [] then []
    else
      assert s == [s[0]] + s[1..];
      var rest := SortNewestFirst(s[1..]);
      InsertSorted(s[0], rest);
      Insert(s[0], rest)
  }

  function Abs(x: int): nat { if x < 0 then -x else x }

  /** `.skip(skip).limit(limit)`: MongoDB treats a zero limit as no limit and a negative one as its
      absolute value. */
  function Window(s: seq<Order>, skip: nat, limit: int): (r: seq<Order>)
    ensures skip >= |s| ==> r == []
    ensures skip < |s| ==> skip + |r| <= |s| && r == s[skip..skip + |r|]
    ensures limit == 0 && skip < |s| ==> |r| == |s| - skip
    ensures limit != 0 && skip < |s| ==> |r| == Min(|s| - skip, Abs(limit))
  {
    var rest := if skip <= |s| then s[skip..] else [];
    if limit == 0 || Abs(limit) >= |rest| then rest else rest[..Abs(limit)]
  }

  /** `Math.ceil(total / limit)`; `None` when the quotient is not finite (a zero limit), which the
      JSON response carries as `null`. */
  function Pages(total: nat, limit: int): (r: Option<int>)
    ensures r.None? <==> limit == 0
    ensures limit > 0 ==> r.Some? && (r.value - 1) * limit < total <= r.value * limit
    ensures limit < 0 ==> r.Some? && r.value * limit <= total < (r.value - 1) * limit
  {
    if limit > 0 then
      var q := (total + limit - 1) / limit;
      assert (q - 1) * limit < total <= q * limit by {
        assert q * limit <= total + limit - 1 < q * limit + limit;
      }
      Some(q)
    else if limit < 0 then
      var n := -limit;
      var q := total / n;
      assert q * n <= total < q * n + n;
      assert -q * limit == q * n;
      Some(-q)
    else
      None
  }

  /** The body of a successful `GET /api/orders`, or the server error MongoDB raises on a
      negative skip. */
  datatype Listing =
    | Listing(count: nat, total: nat, page: int, pages: Option<int>, data: seq<Order>)
    | ListFailed

  /** `GET /api/orders?page&limit`: `page` defaults to 1 and `limit` to 10 only when absent;
      `skip = (page - 1) * limit`. */
  function ListOrders(orders: seq<Order>, u: UserId, page: Option<int>, limit: Option<int>): (r: Listing)
    ensures var skip := (page.GetOr(1) - 1) * limit.GetOr(10);
      r.ListFailed? <==> skip < 0
    ensures r.Listing? ==>
      && (forall o :: o in r.data ==> o in orders && o.user == u)
      && NewestFirst(r.data)
      && r.count == |r.data|
      && r.total == |ForUser(orders, u)|
      && r.page == page.GetOr(1)
      && r.pages == Pages(r.total, limit.GetOr(10))
      && r.data == Window(SortNewestFirst(ForUser(orders, u)), (page.GetOr(1) - 1) * limit.GetOr(10), limit.GetOr(10))
  {
    var pageNum := page.GetOr(1);
    var limitNum := limit.GetOr(10);
    var skip := (pageNum - 1) * limitNum;
    if skip < 0 then ListFailed
    else
      var mine := ForUser(orders, u);
      var data := Window(SortNewestFirst(mine), skip, limitNum);
      WindowOfSorted(mine, skip, limitNum);
      Listing(|data|, |mine|, pageNum, Pages(|mine|, limitNum), data)
  }

  /** A window of the sorted list holds only orders of the list, still newest first. */
  lemma WindowOfSorted(s: seq<Order>, skip: nat, limit: int)
    ensures var w := Window(SortNewestFirst(s), skip, limit);
      NewestFirst(w) && forall o :: o in w ==> o in s
  {
    var sorted := SortNewestFirst(s);
    var w := Window(sorted, skip, limit);
    forall o | o in w ensures o in s {
      assert o in multiset(sorted);
    }
    forall i, j | 0 <= i < j < |w| ensures w[i].orderDate >= w[j].orderDate {
      assert w[i] == sorted[skip + i] && w[j] == sorted[skip + j];
    }
  }

  lemma MulMonotone(a: int, b: int, c: nat)
    requires a <= b
    ensures a * c <= b * c
  {
    var d := b - a;
    assert b * c == a * c + d * c;
  }

  /** Position `i` of a list of `n` lines falls on page `i / limit + 1`, which is at most `pages`. */
  lemma PageOfPosition(i: nat, n: nat, limit: int, pages: int)
    requires limit >= 1 && i < n && (pages - 1) * limit < n <= pages * limit
    ensures 1 <= i / limit + 1 <= pages
    ensures (i / limit) * limit + i % limit == i && 0 <= i % limit < limit
  {
    var q := i / limit;
    assert q * limit <= i;
    if q >= pages {
      MulMonotone(pages, q, limit);
    }
  }

  /** With a positive limit every listed order is on exactly the page its position says, and
      that page number is within `pages`. */
  lemma PageHolds(s: seq<Order>, limit: int, i: nat)
    requires limit >= 1 && i < |s|
    ensures var pg := i / limit + 1;
      && 1 <= pg <= Pages(|s|, limit).value
      && var w := Window(s, (pg - 1) * limit, limit);
         i % limit < |w| && w[i % limit] == s[i]
  {
    var p := Pages(|s|, limit).value;
    PageOfPosition(i, |s|, limit, p);
    var q, m := i / limit, i % limit;
    var skip := q * limit;
    assert (q + 1 - 1) * limit == skip;
    var w := Window(s, skip, limit);
    assert |w| == Min(|s| - skip, limit);
    assert w[m] == s[skip + m];
  }

  /** A page number past `pages` lists nothing. */
  lemma PageBeyond(s: seq<Order>, limit: int, pg: int)
    requires limit >= 1 && pg > Pages(|s|, limit).value
    ensures Window(s, (pg - 1) * limit, limit) == []
  {
    var p := Pages(|s|, limit).value;
    MulMonotone(p, pg - 1, limit);
  }

  // ---------------------------------------------------------------- a single order

  /** The `:id` path parameter: an id that casts to an ObjectId, or one that does not. */
  datatype OrderRef = Malformed | Ref(id: OrderId)

  /** `Order.findById`: the position of the order with this id, if any. */
  function FindOrder(orders: seq<Order>, id: OrderId): (r: Option<nat>)
    ensures r.Some? ==> r.value < |orders| && orders[r.value].id == id
    ensures r.Some? ==> forall j :: 0 <= j < r.value ==> orders[j].id != id
    ensures r.None? <==> forall j :: 0 <= j < |orders| ==> orders[j].id != id
  {
    FirstIndex(orders, (o: Order) => o.id == id)
  }

  datatype Reply = Reply(status: nat, order: Option<Order>)

  /** `GET /api/orders/:id`: 404 when the id is malformed or matches no order, 403 when the
      order belongs to someone else, 200 with the order for its owner. */
  function GetOrder(orders: seq<Order>, ref: OrderRef, u: UserId): (r: Reply)
    ensures r.status == 404 <==> ref.Malformed? || forall j :: 0 <= j < |orders| ==> orders[j].id != ref.id
    ensures r.status == 403 <==> ref.Ref? && FindOrder(orders, ref.id).Some? && orders[FindOrder(orders, ref.id).value].user != u
    ensures r.status in {200, 403, 404}
    ensures r.order.Some? <==> r.status == 200
    ensures r.status == 200 ==> r.order.value in orders && r.order.value.id == ref.id && r.order.value.user == u
  {
    if ref.Malformed? then Reply(404, None)
    else match FindOrder(orders, ref.id)
      case None => Reply(404, None)
      case Some(k) =>
        if orders[k].user != u then Reply(403, None) else Reply(200, Some(orders[k]))
  }

  /** With distinct order ids, a stranger never gets 200 and the owner never gets 403. */
  lemma OwnerOnly(orders: seq<Order>, k: nat, u: UserId)
    requires k < |orders|
    requires forall i, j :: 0 <= i < j < |orders| ==> orders[i].id != orders[j].id
    ensures GetOrder(orders, Ref(orders[k].id), u).status == (if orders[k].user == u then 200 else 403)
  {
    var f := FindOrder(orders, orders[k].id);
    assert f.Some?;
    assert f.value == k;
  }

  // ---------------------------------------------------------------- the order collection and checkout

  predicate UniqueOrderIds(orders: seq<Order>) {
    forall i, j :: 0 <= i < j < |orders| ==> orders[i].id != orders[j].id
  }

  /** The orders collection, in insertion order. */
  class OrderBook {
    var orders: seq<Order>
    /** The next order id to issue; every issued id is below it. */
    var nextOrderId: OrderId

    /** Order ids are distinct and every stored total is the sum of its own frozen lines. */
    ghost predicate Valid()
      reads this
    {
      && UniqueOrderIds(orders)
      && forall i :: 0 <= i < |orders| ==> orders[i].id < nextOrderId && orders[i].totalPrice == Total(orders[i].items)
    }

    constructor ()
      ensures Valid() && orders == []
    {
      orders := [];
      nextOrderId := 0;
    }

    /** `Order.create`. */
    method Create(user: UserId, items: seq<OrderLine>, totalPrice: int, orderDate: int) returns (o: Order)
      requires Valid() && totalPrice == Total(items)
      modifies this
      ensures Valid()
      ensures o == Order(old(nextOrderId), user, items, totalPrice, orderDate)
      ensures orders == old(orders) + [o]
      ensures nextOrderId == old(nextOrderId) + 1
    {
      o := Order(nextOrderId, user, items, totalPrice, orderDate);
      orders := orders + [o];
      nextOrderId := nextOrderId + 1;
    }
  }

  /** Which store or mail calls throw during a checkout. */
  datatype Faults = Faults(createFails: bool, deleteFails: bool, emailFails: bool)

  /** The outside effects of a checkout, in the order they happen. */
  datatype Effect =
    | OrderCreated(order: OrderId)
    | CartDeleted(user: UserId)
    | ConfirmationEmail(to: string, order: OrderId, delivered: bool)

  /** `POST /api/orders/checkout` for the logged-in `user` whose address is `email`, at time `now`. */
  method Checkout(store: CartStore, book: OrderBook, user: UserId, email: string, now: int, faults: Faults)
    returns (status: nat, order: Option<Order>, effects: seq<Effect>)
    requires store.Valid() && book.Valid()
    modifies store, book
    ensures store.Valid() && book.Valid()
    ensures store.nextLineId == old(store.nextLineId)
    // an absent or empty cart: 400, nothing created, nothing deleted
    ensures (User(user) !in old(store.carts) || old(store.carts)[User(user)].items == []) ==>
      && status == 400 && order.None? && effects == []
      && store.carts == old(store.carts) && book.orders == old(book.orders)
      && book.nextOrderId == old(book.nextOrderId)
    // the order could not be written: 500 and the cart is kept
    ensures (User(user) in old(store.carts) && old(store.carts)[User(user)].items != [] && faults.createFails) ==>
      && status == 500 && order.None? && effects == []
      && store.carts == old(store.carts) && book.orders == old(book.orders)
      && book.nextOrderId == old(book.nextOrderId)
    // the order is written first; then the cart is deleted, and a failing email is swallowed
    ensures (User(user) in old(store.carts) && old(store.carts)[User(user)].items != [] && !faults.createFails) ==>
      && var lines := Snapshot(old(store.carts)[User(user)].items, store.catalogue);
         var o := Order(old(book.nextOrderId), user, lines, Total(lines), now);
         && book.orders == old(book.orders) + [o]
         && book.nextOrderId == old(book.nextOrderId) + 1
         && (faults.deleteFails ==>
              status == 500 && order.None? && effects == [OrderCreated(o.id)] && store.carts == old(store.carts))
         && (!faults.deleteFails ==>
              && status == 201 && order == Some(o)
              && store.carts == old(store.carts) - {User(user)}
              && effects == [OrderCreated(o.id), CartDeleted(user), ConfirmationEmail(email, o.id, !faults.emailFails)])
  {
    var id := User(user);
    if id !in store.carts || store.carts[id].items == [] {
      return 400, None, [];
    }
    var items := store.carts[id].items;
    assert CartOk(id, store.carts[id], store.catalogue, store.nextLineId);
    var lines := Snapshot(items, store.catalogue);
    var totalPrice := Total(lines);
    if faults.createFails {
      return 500, None, [];
    }
    var o := book.Create(user, lines, totalPrice, now);
    effects := [OrderCreated(o.id)];
    if faults.deleteFails {
      return 500, None, effects;
    }
    var _ := store.Clear(Some(user), None);
    effects := effects + [CartDeleted(user)];
    // a failure of the mail call is caught and only logged
    effects := effects + [ConfirmationEmail(email, o.id, !faults.emailFails)];
    return 201, Some(o), effects;
  }
}
