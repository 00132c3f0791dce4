/** The cart store behind `clothing-store-backend/routes/cartRouter.js`: one
    cart per identity (a logged-in user or a guest session), each an ordered
    list of lines. Every route handler is a method of `CartStore` returning
    the HTTP status it answers with; the line-level edits are functions with
    lemmas about them. */
module Cart {
  import opened Common
  import opened Product

  /** Who a cart belongs to. */
  datatype Identity = User(user: UserId) | Guest(session: SessionId)

  /** The id Mongoose gives a line (an embedded subdocument) when it is pushed. */
  type LineId = nat

  /** A cart line. The quantity is never checked on add, so it is an arbitrary integer. */
  datatype CartLine = CartLine(id: LineId, product: ProductId, size: Size, quantity: int)

  /** A cart document: its `user` and `sessionId` fields and its lines. */
  datatype Cart = Cart(user: Option<UserId>, sessionId: Option<SessionId>, items: seq<CartLine>)

  /** The identity a request acts for: the user when logged in (the session header is then
      ignored), else the guest session when its header is non-empty, else none. */
  function Resolve(user: Option<UserId>, session: Option<SessionId>): Option<Identity> {
    if user.Some? then Some(User(user.value))
    else if Given(session) then Some(Guest(session.value))
    else None
  }

  /** A logged-in request always acts for its user, whatever session header it carries; a guest
      request acts for its session only when the header is non-empty. */
  lemma ResolvePrefersUser(u: UserId, session: Option<SessionId>)
    ensures Resolve(Some(u), session) == Some(User(u))
    ensures Resolve(None, session).Some? <==> Given(session)
    ensures Given(session) ==> Resolve(None, session) == Some(Guest(session.value))
  {
  }

  /** The identity a stored cart document belongs to, read off its two identity fields:
      exactly one of them must be set. */
  function Owner(c: Cart): Option<Identity> {
    match (c.user, c.sessionId)
    case (Some(u), None) => Some(User(u))
    case (None, Some(s)) => Some(Guest(s))
    case _ => None
  }

  /** The document `getOrCreateCart` creates: `user: userId || null`, `sessionId: userId ? null : sessionId`. */
  function NewCart(user: Option<UserId>, session: Option<SessionId>): (c: Cart)
    requires Resolve(user, session).Some?
    ensures c.items == []
    ensures c.user.Some? != c.sessionId.Some?
    ensures Owner(c) == Resolve(user, session)
  {
    Cart(user, if user.Some? then None else session, [])
  }

  /** Two lines are the same line when product and size agree. */
  predicate Matches(l: CartLine, p: ProductId, z: Size) {
    l.product == p && l.size == z
  }

  /** `product.sizes.includes(size)`: the requested size string names a size the product offers. */
  predicate Offers(prod: Product, size: string) {
    ParseSize(size).Some? && ParseSize(size).value in prod.sizes
  }

  lemma OffersIsIncludes(prod: Product, size: string)
    ensures Offers(prod, size) <==> exists i :: 0 <= i < |prod.sizes| && SizeName(prod.sizes[i]) == size
  {
    if exists i :: 0 <= i < |prod.sizes| && SizeName(prod.sizes[i]) == size {
      var i :| 0 <= i < |prod.sizes| && SizeName(prod.sizes[i]) == size;
      match prod.sizes[i]
      case S =>
      case M =>
      case L =>
      case XL =>
    }
  }

  /** `items.findIndex`: the first line for (`p`, `z`), if any. */
  function FindLine(items: seq<CartLine>, p: ProductId, z: Size): (r: Option<nat>)
    ensures r.Some? ==> r.value < |items| && Matches(items[r.value], p, z)
    ensures r.Some? ==> forall j :: 0 <= j < r.value ==> !Matches(items[j], p, z)
    ensures r.None? <==> forall j :: 0 <= j < |items| ==> !Matches(items[j], p, z)
  {
    FirstIndex(items, l => Matches(l, p, z))
  }

  /** `items.id(itemId)`: the first line carrying id `id`, if any. */
  function IndexOfId(items: seq<CartLine>, id: LineId): (r: Option<nat>)
    ensures r.Some? ==> r.value < |items| && items[r.value].id == id
    ensures r.Some? ==> forall j :: 0 <= j < r.value ==> items[j].id != id
    ensures r.None? <==> forall j :: 0 <= j < |items| ==> items[j].id != id
  {
    FirstIndex(items, (l: CartLine) => l.id == id)
  }

  /** The add-item edit: merge into the line for (`p`, `z`) or push a new line with id `newId`. */
  function AddLine(items: seq<CartLine>, p: ProductId, z: Size, qty: int, newId: LineId): seq<CartLine> {
    match FindLine(items, p, z)
    case Some(k) => items[k := items[k].(quantity := items[k].quantity + qty)]
    case None => items + [CartLine(newId, p, z, qty)]
  }

  /** `items.pull(itemId)`: every line carrying id `id` is dropped, the rest keep their order. */
  function Pull(items: seq<CartLine>, id: LineId): (r: seq<CartLine>)
    ensures forall l :: l in r <==> l in items && l.id != id
    ensures |r| <= |items|
  {
    if items == [] then []
    else (if items[0].id == id then [] else [items[0]]) + Pull(items[1..], id)
  }

  /** The total quantity held for (`p`, `z`) over all lines. */
  function Quantity(items: seq<CartLine>, p: ProductId, z: Size): int {
    if items == [] then 0
    else (if Matches(items[0], p, z) then items[0].quantity else 0) + Quantity(items[1..], p, z)
  }

  /** No two lines share a (product, size) pair. */
  predicate Distinct(items: seq<CartLine>) {
    forall i, j :: 0 <= i < j < |items| ==> !Matches(items[j], items[i].product, items[i].size)
  }

  /** No two lines share an id. */
  predicate UniqueIds(items: seq<CartLine>) {
    forall i, j :: 0 <= i < j < |items| ==> items[i].id != items[j].id
  }

  /** What every stored cart satisfies: it is filed under its own identity, it holds at most one
      line per (product, size), its line ids are distinct and already issued, and it refers
      only to catalogue products. */
  predicate CartOk(k: Identity, c: Cart, catalogue: map<ProductId, Product>, bound: LineId) {
    && Owner(c) == Some(k)
    && Distinct(c.items)
    && UniqueIds(c.items)
    && forall i :: 0 <= i < |c.items| ==> c.items[i].product in catalogue && c.items[i].id < bound
  }

  /** Issuing a new line id keeps every existing cart's invariant. */
  lemma CartOkRaise(k: Identity, c: Cart, catalogue: map<ProductId, Product>, bound: LineId)
    requires CartOk(k, c, catalogue, bound)
    ensures CartOk(k, c, catalogue, bound + 1)
  {
  }

  /** Adding a catalogue product under the next line id keeps the cart's invariant. */
  lemma CartOkAdd(k: Identity, c: Cart, catalogue: map<ProductId, Product>, bound: LineId,
                  p: ProductId, z: Size, qty: int)
    requires CartOk(k, c, catalogue, bound) && p in catalogue
    ensures CartOk(k, c.(items := AddLine(c.items, p, z, qty, bound)), catalogue, bound + 1)
  {
    AddLineDistinct(c.items, p, z, qty, bound);
    AddLineUniqueIds(c.items, p, z, qty, bound);
  }

  /** Changing one line's quantity keeps the cart's invariant. */
  lemma CartOkSetQuantity(k: Identity, c: Cart, catalogue: map<ProductId, Product>, bound: LineId, i: nat, q: int)
    requires CartOk(k, c, catalogue, bound) && i < |c.items|
    ensures CartOk(k, c.(items := c.items[i := c.items[i].(quantity := q)]), catalogue, bound)
  {
    var items := c.items[i := c.items[i].(quantity := q)];
    assert forall j :: 0 <= j < |items| ==>
      (items[j].product == c.items[j].product && items[j].size == c.items[j].size && items[j].id == c.items[j].id);
  }

  lemma {:induction false} QuantityAppend(a: seq<CartLine>, b: seq<CartLine>, p: ProductId, z: Size)
    ensures Quantity(a + b, p, z) == Quantity(a, p, z) + Quantity(b, p, z)
  {
    if a != [] {
      assert (a + b)[1..] == a[1..] + b;
      QuantityAppend(a[1..], b, p, z);
    } else {
      assert a + b == b;
    }
  }

  lemma {:induction false} QuantitySet(items: seq<CartLine>, k: nat, q: int, p: ProductId, z: Size)
    requires k < |items|
    ensures Quantity(items[k := items[k].(quantity := q)], p, z)
         == Quantity(items, p, z) + (if Matches(items[k], p, z) then q - items[k].quantity else 0)
  {
    var r := items[k := items[k].(quantity := q)];
    if k == 0 {
      assert r[1..] == items[1..];
    } else {
      assert r[1..] == items[1..][k - 1 := items[k].(quantity := q)];
      QuantitySet(items[1..], k - 1, q, p, z);
    }
  }

  /** Adding `qty` of (`p`, `z`) raises the quantity held for that pair by exactly `qty` and leaves
      every other pair's quantity alone, whether it merged or appended. */
  lemma AddLineQuantity(items: seq<CartLine>, p: ProductId, z: Size, qty: int, newId: LineId, p': ProductId, z': Size)
    ensures Quantity(AddLine(items, p, z, qty, newId), p', z')
         == Quantity(items, p', z') + (if p' == p && z' == z then qty else 0)
  {
    match FindLine(items, p, z)
    case Some(k) =>
      QuantitySet(items, k, items[k].quantity + qty, p', z');
    case None =>
      QuantityAppend(items, [CartLine(newId, p, z, qty)], p', z');
      assert Quantity([CartLine(newId, p, z, qty)], p', z') == (if p' == p && z' == z then qty else 0);
  }

  /** The merge case: the matching line's quantity grows by `qty` and nothing else changes. */
  lemma AddLineMerges(items: seq<CartLine>, p: ProductId, z: Size, qty: int, newId: LineId)
    requires FindLine(items, p, z).Some?
    ensures var r := AddLine(items, p, z, qty, newId); var k := FindLine(items, p, z).value;
      && |r| == |items|
      && r[k] == items[k].(quantity := items[k].quantity + qty)
      && forall j :: 0 <= j < |items| && j != k ==> r[j] == items[j]
  {
  }

  /** The append case: exactly one line is added, at the end. */
  lemma AddLineAppends(items: seq<CartLine>, p: ProductId, z: Size, qty: int, newId: LineId)
    requires forall j :: 0 <= j < |items| ==> !Matches(items[j], p, z)
    ensures AddLine(items, p, z, qty, newId) == items + [CartLine(newId, p, z, qty)]
  {
  }

  /** Adding never creates a second line for a (product, size) pair. */
  lemma AddLineDistinct(items: seq<CartLine>, p: ProductId, z: Size, qty: int, newId: LineId)
    requires Distinct(items)
    ensures Distinct(AddLine(items, p, z, qty, newId))
  {
    var r := AddLine(items, p, z, qty, newId);
    match FindLine(items, p, z)
    case Some(k) =>
      forall i, j | 0 <= i < j < |r| ensures !Matches(r[j], r[i].product, r[i].size) {
        assert r[i].product == items[i].product && r[i].size == items[i].size;
        assert r[j].product == items[j].product && r[j].size == items[j].size;
      }
    case None =>
      forall i, j | 0 <= i < j < |r| ensures !Matches(r[j], r[i].product, r[i].size) {
        if j == |items| {
          assert !Matches(items[i], p, z);
        }
      }
  }

  /** Adding with a never-issued id keeps the line ids distinct. */
  lemma AddLineUniqueIds(items: seq<CartLine>, p: ProductId, z: Size, qty: int, newId: LineId)
    requires UniqueIds(items)
    requires forall i :: 0 <= i < |items| ==> items[i].id < newId
    ensures UniqueIds(AddLine(items, p, z, qty, newId))
  {
  }

  /** The scenario of adding 2 and then 3 of a pair the cart does not hold: one new line, quantity 5. */
  lemma AddTwiceAccumulates(items: seq<CartLine>, p: ProductId, z: Size, f1: LineId, f2: LineId)
    requires forall j :: 0 <= j < |items| ==> !Matches(items[j], p, z)
    ensures var r := AddLine(AddLine(items, p, z, 2, f1), p, z, 3, f2);
      && |r| == |items| + 1
      && r[..|items|] == items
      && r[|items|] == CartLine(f1, p, z, 5)
  {
    var once := AddLine(items, p, z, 2, f1);
    assert once == items + [CartLine(f1, p, z, 2)];
    assert Matches(once[|items|], p, z);
    assert FindLine(once, p, z) == Some(|items|);
  }

  /** Pulling an id no line carries is a silent no-op. */
  lemma {:induction false} PullAbsent(items: seq<CartLine>, id: LineId)
    requires forall j :: 0 <= j < |items| ==> items[j].id != id
    ensures Pull(items, id) == items
  {
    if items != [] {
      PullAbsent(items[1..], id);
      assert [items[0]] + items[1..] == items;
    }
  }

  /** Pulling the id of line `k` in a cart with distinct ids removes exactly that line. */
  lemma {:induction false} PullOne(items: seq<CartLine>, k: nat)
    requires UniqueIds(items) && k < |items|
    ensures Pull(items, items[k].id) == items[..k] + items[k + 1..]
  {
    if k == 0 {
      PullHead(items);
    } else {
      var tail := items[1..];
      UniqueTail(items);
      assert tail[k - 1] == items[k];
      PullOne(tail, k - 1);
      assert tail[..k - 1] == items[1..k] && tail[k..] == items[k + 1..];
      PullKept(items[0], tail, items[k].id, items[1..k], items[k + 1..]);
      assert [items[0]] + tail == items;
      assert [items[0]] + items[1..k] == items[..k];
    }
  }

  /** With distinct ids, pulling the first line's id drops just that line. */
  lemma PullHead(items: seq<CartLine>)
    requires UniqueIds(items) && items != []
    ensures Pull(items, items[0].id) == items[1..]
  {
    var tail := items[1..];
    forall j | 0 <= j < |tail| ensures tail[j].id != items[0].id {
      assert tail[j] == items[j + 1];
    }
    PullAbsent(tail, items[0].id);
  }

  /** A line whose id is not pulled stays in front of what the rest keeps. */
  lemma PullKept(x: CartLine, tail: seq<CartLine>, id: LineId, a: seq<CartLine>, b: seq<CartLine>)
    requires x.id != id && Pull(tail, id) == a + b
    ensures Pull([x] + tail, id) == ([x] + a) + b
  {
    assert ([x] + tail)[1..] == tail;
  }

  /** Dropping the first line keeps line ids distinct. */
  lemma UniqueTail(items: seq<CartLine>)
    requires UniqueIds(items) && items != []
    ensures UniqueIds(items[1..])
  {
  }

  /** Pulling keeps a cart's invariants: it only drops lines and keeps the order of the rest. */
  lemma {:induction false} PullKeeps(items: seq<CartLine>, id: LineId)
    requires Distinct(items) && UniqueIds(items)
    ensures Distinct(Pull(items, id)) && UniqueIds(Pull(items, id))
  {
    if items != [] {
      var tail := items[1..];
      assert Distinct(tail) && UniqueIds(tail);
      PullKeeps(tail, id);
      var rest := Pull(tail, id);
      if items[0].id != id {
        var r := [items[0]] + rest;
        assert Pull(items, id) == r;
        forall i, j | 0 <= i < j < |r|
          ensures !Matches(r[j], r[i].product, r[i].size) && r[i].id != r[j].id
        {
          if i == 0 {
            assert r[j] in tail;
            var t :| 0 <= t < |tail| && tail[t] == r[j];
            assert items[t + 1] == r[j];
          }
        }
      }
    }
  }

  /** The store of carts, keyed by identity, over a fixed product catalogue. */
  class CartStore {
    const catalogue: map<ProductId, Product>
    var carts: map<Identity, Cart>
    /** The next line id to issue; every issued id is below it. */
    var nextLineId: LineId

    ghost predicate Valid()
      reads this
    {
      forall k | k in carts :: CartOk(k, carts[k], catalogue, nextLineId)
    }

    constructor (catalogue: map<ProductId, Product>)
      ensures Valid()
      ensures this.catalogue == catalogue && carts == map[]
    {
      this.catalogue := catalogue;
      carts := map[];
      nextLineId := 0;
    }

    /** `getOrCreateCart`: the cart of the resolved identity, created empty when there is none.
        Both callers resolve an identity first (GET answers 400 without one, add-item makes up
        a session id), so the helper is only reached with one. */
    method GetOrCreate(user: Option<UserId>, session: Option<SessionId>) returns (cart: Cart)
      requires Valid() && Resolve(user, session).Some?
      modifies this
      ensures Valid() && nextLineId == old(nextLineId)
      ensures var id := Resolve(user, session).value;
        && id in carts && cart == carts[id]
        && (id in old(carts) ==> carts == old(carts))
        && (id !in old(carts) ==> carts == old(carts)[id := NewCart(user, session)])
    {
      var id := Resolve(user, session).value;
      if id in carts {
        cart := carts[id];
      } else {
        cart := NewCart(user, session);
        carts := carts[id := cart];
      }
    }

    /** `GET /api/cart`. */
    method GetCart(user: Option<UserId>, session: Option<SessionId>) returns (status: nat, cart: Option<Cart>)
      requires Valid()
      modifies this
      ensures Valid() && nextLineId == old(nextLineId)
      ensures status == 400 <==> Resolve(user, session).None?
      ensures status == 400 ==> carts == old(carts) && cart.None?
      ensures status != 400 ==> status == 200 && var id := Resolve(user, session).value;
        && id in carts && cart == Some(carts[id])
        && (id in old(carts) ==> carts == old(carts))
        && (id !in old(carts) ==> carts == old(carts)[id := NewCart(user, session)])
    {
      if Resolve(user, session).None? {
        return 400, None;
      }
      var c := GetOrCreate(user, session);
      return 200, Some(c);
    }

    /** `POST /api/cart/items`. `freshSession` stands for the `uuidv4()` used when the session
        header is missing; `issuedSession` is the `sessionId` echoed to guests. */
    method AddItem(user: Option<UserId>, session: Option<SessionId>, freshSession: SessionId,
                   productId: Option<ProductId>, size: Option<string>, quantity: Option<int>)
      returns (status: nat, cart: Option<Cart>, issuedSession: Option<SessionId>)
      requires Valid() && freshSession != ""
      modifies this
      ensures Valid()
      ensures !Given(productId) || !Given(size) ==> status == 400
      ensures Given(productId) && Given(size) && productId.value !in catalogue ==> status == 404
      ensures (Given(productId) && Given(size) && productId.value in catalogue
               && !Offers(catalogue[productId.value], size.value)) ==> status == 400
      ensures (Given(productId) && Given(size) && productId.value in catalogue
               && Offers(catalogue[productId.value], size.value)) ==> status == 200
      ensures status in {200, 400, 404}
      ensures status != 200 ==>
        carts == old(carts) && nextLineId == old(nextLineId) && cart.None? && issuedSession.None?
      ensures status == 200 ==>
        && Given(productId) && Given(size) && productId.value in catalogue
        && Offers(catalogue[productId.value], size.value)
        && nextLineId == old(nextLineId) + 1
        && var sid := if Given(session) then session.value else freshSession;
           var id := Resolve(user, Some(sid)).value;
           var before := if id in old(carts) then old(carts)[id] else NewCart(user, Some(sid));
           var after := before.(items := AddLine(before.items, productId.value,
                                                 ParseSize(size.value).value, quantity.GetOr(1), old(nextLineId)));
           && carts == old(carts)[id := after]
           && cart == Some(after)
           && issuedSession == (if user.None? then Some(sid) else None)
    {
      var sid := if Given(session) then session.value else freshSession;
      if !Given(productId) || !Given(size) {
        return 400, None, None;
      }
      if productId.value !in catalogue {
        return 404, None, None;
      }
      var prod := catalogue[productId.value];
      if !Offers(prod, size.value) {
        return 400, None, None;
      }
      var c := GetOrCreate(user, Some(sid));
      var id := Resolve(user, Some(sid)).value;
      var z := ParseSize(size.value).value;
      var qty := quantity.GetOr(1);
      var after := Merge(id, productId.value, z, qty);
      status, cart := 200, Some(after);
      issuedSession := if user.None? then Some(sid) else None;
    }

    /** The merge-or-append step of add-item and the save that follows it: the identity's cart
        gets the line, and a new line id is issued. */
    method Merge(id: Identity, p: ProductId, z: Size, qty: int) returns (after: Cart)
      requires Valid() && id in carts && p in catalogue
      modifies this
      ensures Valid()
      ensures after == old(carts)[id].(items := AddLine(old(carts)[id].items, p, z, qty, old(nextLineId)))
      ensures carts == old(carts)[id := after] && nextLineId == old(nextLineId) + 1
    {
      var c := carts[id];
      after := c.(items := AddLine(c.items, p, z, qty, nextLineId));
      CartOkAdd(id, c, catalogue, nextLineId, p, z, qty);
      forall k | k in carts && k != id ensures CartOk(k, carts[k], catalogue, nextLineId + 1) {
        CartOkRaise(k, carts[k], catalogue, nextLineId);
      }
      carts := carts[id := after];
      nextLineId := nextLineId + 1;
    }

    /** `PUT /api/cart/items/:itemId`: sets one line's quantity; the size is not checked again. */
    method UpdateItem(user: Option<UserId>, session: Option<SessionId>, itemId: LineId, quantity: Option<int>)
      returns (status: nat, cart: Option<Cart>)
      requires Valid()
      modifies this
      ensures Valid() && nextLineId == old(nextLineId)
      ensures status == 400 <==> quantity.None? || quantity.value < 1
      ensures status in {200, 400, 404}
      ensures quantity.Some? && quantity.value >= 1 ==>
        (status == 404 <==> var id := Resolve(user, session);
          id.None? || id.value !in old(carts) || IndexOfId(old(carts)[id.value].items, itemId).None?)
      ensures status != 200 ==> carts == old(carts) && cart.None?
      ensures status == 200 ==>
        && quantity.Some? && quantity.value >= 1
        && var id := Resolve(user, session).value; var before := old(carts)[id];
           var k := IndexOfId(before.items, itemId).value;
           var after := before.(items := before.items[k := before.items[k].(quantity := quantity.value)]);
           && carts == old(carts)[id := after]
           && cart == Some(after)
    {
      if quantity.None? || quantity.value < 1 {
        return 400, None;
      }
      var id := Resolve(user, session);
      if id.None? || id.value !in carts {
        return 404, None;
      }
      var c := carts[id.value];
      var k := IndexOfId(c.items, itemId);
      if k.None? {
        return 404, None;
      }
      var after := c.(items := c.items[k.value := c.items[k.value].(quantity := quantity.value)]);
      CartOkSetQuantity(id.value, c, catalogue, nextLineId, k.value, quantity.value);
      carts := carts[id.value := after];
      return 200, Some(after);
    }

    /** `DELETE /api/cart/items/:itemId`: an id the cart does not hold is not an error. */
    method RemoveItem(user: Option<UserId>, session: Option<SessionId>, itemId: LineId)
      returns (status: nat, cart: Option<Cart>)
      requires Valid()
      modifies this
      ensures Valid() && nextLineId == old(nextLineId)
      ensures status == 404 <==> var id := Resolve(user, session); id.None? || id.value !in old(carts)
      ensures status != 200 ==> status == 404 && carts == old(carts) && cart.None?
      ensures status == 200 ==>
        && var id := Resolve(user, session).value; var before := old(carts)[id];
           var after := before.(items := Pull(before.items, itemId));
           && carts == old(carts)[id := after]
           && cart == Some(after)
    {
      var id := Resolve(user, session);
      if id.None? || id.value !in carts {
        return 404, None;
      }
      var c := carts[id.value];
      PullKeeps(c.items, itemId);
      var after := c.(items := Pull(c.items, itemId));
      carts := carts[id.value := after];
      return 200, Some(after);
    }

    /** `DELETE /api/cart`: deletes the identity's whole cart. */
    method Clear(user: Option<UserId>, session: Option<SessionId>) returns (status: nat)
      requires Valid()
      modifies this
      ensures Valid() && nextLineId == old(nextLineId)
      ensures status == 404 <==> var id := Resolve(user, session); id.None? || id.value !in old(carts)
      ensures status != 404 ==> status == 200
      ensures status == 404 ==> carts == old(carts)
      ensures status == 200 ==> carts == old(carts) - {Resolve(user, session).value}
    {
      var id := Resolve(user, session);
      if id.None? || id.value !in carts {
        return 404;
      }
      carts := carts - {id.value};
      return 200;
    }
  }

  /** Two lookups for the same identity: the second finds the cart the first one created or
      found, and no second cart is made. */
  method GetOrCreateTwice(store: CartStore, user: Option<UserId>, session: Option<SessionId>)
    returns (first: Cart, second: Cart)
    requires store.Valid() && Resolve(user, session).Some?
    modifies store
    ensures store.Valid()
    ensures first == second
    ensures store.carts.Keys == old(store.carts.Keys) + {Resolve(user, session).value}
    ensures store.carts == old(store.carts)[Resolve(user, session).value := first]
    ensures Resolve(user, session).value in old(store.carts) ==> first == old(store.carts)[Resolve(user, session).value]
    ensures store.nextLineId == old(store.nextLineId)
  {
    first := store.GetOrCreate(user, session);
    ghost var afterFirst := store.carts;
    second := store.GetOrCreate(user, session);
    assert store.carts == afterFirst;
  }
}
