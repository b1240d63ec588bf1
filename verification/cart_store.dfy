/**
 * The cart stock-ceiling logic of the cart controller.
 *
 * The cart_items table is a sequence of rows in insertion order, so that
 * "ORDER BY created_at DESC" is the reverse of the table order; an UPDATE
 * keeps a row where it is, an INSERT appends, a DELETE filters. `View`
 * reads the table as the map (user, product) -> quantity. The products
 * table is a map that the cart handlers read and never write. Prices are
 * integer cents.
 */
module CartStore {
  import opened Wrappers

  type UserId = nat
  type ProductId = nat
  type Key = (UserId, ProductId)

  /** The columns of a products row that the cart reads. */
  datatype Product = Product(price: nat, stock: nat, active: bool)

  /** A cart_items row. */
  datatype CartRow = CartRow(user: UserId, product: ProductId, quantity: nat)

  function KeyOf(r: CartRow): Key { (r.user, r.product) }

  /** The failures of the cart handlers, each with the data its message reports. */
  datatype CartError =
    | ProductNotFound                                // 404 "Product not found"
    | ProductUnavailable                             // 400 "Product is not available"
    | InsufficientStock(available: nat)              // 400 "Insufficient stock. Only <available> items available"
    | CannotAddMore(requested: nat, remaining: int)  // 400 "Cannot add <requested> more items. Only <remaining> more items can be added"
    | CartItemNotFound                               // 404 "Cart item not found"

  /** The HTTP status each failure is answered with. */
  function Status(e: CartError): (code: nat)
    ensures code == 404 <==> e.ProductNotFound? || e.CartItemNotFound?
    ensures code == 404 || code == 400
  {
    match e
    case ProductNotFound => 404
    case CartItemNotFound => 404
    case _ => 400
  }

  // ---------------------------------------------------------------------------
  // The cart_items table

  /** The table as a map; a later row overrides an earlier one with the same key,
      which never happens in a well-formed table. */
  function View(rows: seq<CartRow>): map<Key, nat>
  {
    if rows == [] then map[]
    else View(rows[..|rows| - 1])[KeyOf(rows[|rows| - 1]) := rows[|rows| - 1].quantity]
  }

  /** The table's constraints: one row per (user, product), and no row of quantity 0. */
  predicate WellFormed(rows: seq<CartRow>)
  {
    rows == [] ||
    (var last := rows[|rows| - 1];
     && KeyOf(last) !in View(rows[..|rows| - 1])
     && last.quantity >= 1
     && WellFormed(rows[..|rows| - 1]))
  }

  /** UPDATE cart_items SET quantity = q WHERE user_id = u AND product_id = p */
  function SetQuantity(rows: seq<CartRow>, u: UserId, p: ProductId, q: nat): (r: seq<CartRow>)
    ensures |r| == |rows|
  {
    if rows == [] then []
    else
      var last := rows[|rows| - 1];
      SetQuantity(rows[..|rows| - 1], u, p, q) + [if KeyOf(last) == (u, p) then last.(quantity := q) else last]
  }

  /** DELETE FROM cart_items WHERE user_id = u AND product_id = p */
  function Without(rows: seq<CartRow>, u: UserId, p: ProductId): (r: seq<CartRow>)
    ensures |r| <= |rows|
  {
    if rows == [] then []
    else
      var last := rows[|rows| - 1];
      Without(rows[..|rows| - 1], u, p) + (if KeyOf(last) == (u, p) then [] else [last])
  }

  /** DELETE FROM cart_items WHERE user_id = u */
  function WithoutUser(rows: seq<CartRow>, u: UserId): (r: seq<CartRow>)
    ensures |r| <= |rows|
  {
    if rows == [] then []
    else
      var last := rows[|rows| - 1];
      WithoutUser(rows[..|rows| - 1], u) + (if last.user == u then [] else [last])
  }

  /** The lines of every user other than `u`. */
  function OtherUsers(cart: map<Key, nat>, u: UserId): (r: map<Key, nat>)
    ensures forall k :: k in r <==> k in cart && k.0 != u
    ensures forall k :: k in r ==> r[k] == cart[k]
  {
    map k | k in cart && k.0 != u :: cart[k]
  }

  lemma {:induction false} AppendView(rows: seq<CartRow>, row: CartRow)
    ensures View(rows + [row]) == View(rows)[KeyOf(row) := row.quantity]
    ensures WellFormed(rows + [row]) <==> WellFormed(rows) && KeyOf(row) !in View(rows) && row.quantity >= 1
  {
    assert (rows + [row])[..|rows|] == rows;
  }

  /** UPDATE changes the quantity of the matching line and of nothing else. */
  lemma {:induction false} SetQuantityView(rows: seq<CartRow>, u: UserId, p: ProductId, q: nat)
    ensures View(SetQuantity(rows, u, p, q)) == if (u, p) in View(rows) then View(rows)[(u, p) := q] else View(rows)
  {
    if rows != [] {
      var front, last := rows[..|rows| - 1], rows[|rows| - 1];
      var last' := if KeyOf(last) == (u, p) then last.(quantity := q) else last;
      SetQuantityView(front, u, p, q);
      var r := SetQuantity(rows, u, p, q);
      assert r[..|r| - 1] == SetQuantity(front, u, p, q) && r[|r| - 1] == last';
    }
  }

  /** UPDATE to a positive quantity keeps the table's constraints. */
  lemma {:induction false} SetQuantityWellFormed(rows: seq<CartRow>, u: UserId, p: ProductId, q: nat)
    requires WellFormed(rows) && q >= 1
    ensures WellFormed(SetQuantity(rows, u, p, q))
  {
    if rows != [] {
      var front, last := rows[..|rows| - 1], rows[|rows| - 1];
      var last' := if KeyOf(last) == (u, p) then last.(quantity := q) else last;
      SetQuantityWellFormed(front, u, p, q);
      SetQuantityView(front, u, p, q);
      var r := SetQuantity(rows, u, p, q);
      assert r[..|r| - 1] == SetQuantity(front, u, p, q) && r[|r| - 1] == last';
    }
  }

  /** An UPDATE that matches no line leaves the table as it was. */
  lemma {:induction false} SetQuantityAbsent(rows: seq<CartRow>, u: UserId, p: ProductId, q: nat)
    requires (u, p) !in View(rows)
    ensures SetQuantity(rows, u, p, q) == rows
  {
    if rows != [] {
      var front, last := rows[..|rows| - 1], rows[|rows| - 1];
      assert KeyOf(last) in View(rows);
      SetQuantityAbsent(front, u, p, q);
    }
  }

  /** DELETE by key removes exactly that line. */
  lemma {:induction false} WithoutView(rows: seq<CartRow>, u: UserId, p: ProductId)
    ensures View(Without(rows, u, p)) == View(rows) - {(u, p)}
  {
    if rows != [] {
      var front, last := rows[..|rows| - 1], rows[|rows| - 1];
      var kept := Without(front, u, p);
      WithoutView(front, u, p);
      assert View(rows) == View(front)[KeyOf(last) := last.quantity];
      if KeyOf(last) != (u, p) {
        assert Without(rows, u, p) == kept + [last];
        AppendView(kept, last);
        assert View(kept)[KeyOf(last) := last.quantity]
               == View(front)[KeyOf(last) := last.quantity] - {(u, p)};
      } else {
        assert Without(rows, u, p) == kept;
        assert View(rows) - {(u, p)} == View(front) - {(u, p)};
      }
    }
  }

  /** DELETE keeps the table's constraints. */
  lemma {:induction false} WithoutWellFormed(rows: seq<CartRow>, u: UserId, p: ProductId)
    requires WellFormed(rows)
    ensures WellFormed(Without(rows, u, p))
  {
    if rows != [] {
      var front, last := rows[..|rows| - 1], rows[|rows| - 1];
      WithoutWellFormed(front, u, p);
      WithoutView(front, u, p);
      if KeyOf(last) != (u, p) {
        assert Without(rows, u, p) == Without(front, u, p) + [last];
        AppendView(Without(front, u, p), last);
      } else {
        assert Without(rows, u, p) == Without(front, u, p);
      }
    }
  }

  /** A DELETE that matches no line leaves the table as it was. */
  lemma {:induction false} WithoutAbsent(rows: seq<CartRow>, u: UserId, p: ProductId)
    requires (u, p) !in View(rows)
    ensures Without(rows, u, p) == rows
  {
    if rows != [] {
      var front, last := rows[..|rows| - 1], rows[|rows| - 1];
      assert KeyOf(last) in View(rows);
      WithoutAbsent(front, u, p);
    }
  }

  /** DELETE by user removes exactly that user's lines. */
  lemma {:induction false} WithoutUserView(rows: seq<CartRow>, u: UserId)
    ensures View(WithoutUser(rows, u)) == OtherUsers(View(rows), u)
  {
    if rows != [] {
      var front, last := rows[..|rows| - 1], rows[|rows| - 1];
      WithoutUserView(front, u);
      var kept := WithoutUser(front, u);
      if last.user != u {
        assert WithoutUser(rows, u) == kept + [last];
        AppendView(kept, last);
        var m := OtherUsers(View(front), u)[KeyOf(last) := last.quantity];
        assert forall k :: k in m <==> k in OtherUsers(View(rows), u);
        assert OtherUsers(View(rows), u) == m;
      } else {
        assert WithoutUser(rows, u) == kept;
        assert forall k :: k in OtherUsers(View(rows), u) <==> k in OtherUsers(View(front), u);
        assert OtherUsers(View(rows), u) == OtherUsers(View(front), u);
      }
    }
  }

  lemma {:induction false} WithoutUserWellFormed(rows: seq<CartRow>, u: UserId)
    requires WellFormed(rows)
    ensures WellFormed(WithoutUser(rows, u))
  {
    if rows != [] {
      var front, last := rows[..|rows| - 1], rows[|rows| - 1];
      WithoutUserWellFormed(front, u);
      var kept := WithoutUser(front, u);
      if last.user != u {
        assert WithoutUser(rows, u) == kept + [last];
        WithoutUserView(front, u);
        AppendView(kept, last);
      } else {
        assert WithoutUser(rows, u) == kept;
      }
    }
  }

  /** Clearing a cart twice leaves the table as clearing it once. */
  lemma {:induction false} ClearIdempotent(rows: seq<CartRow>, u: UserId)
    ensures WithoutUser(WithoutUser(rows, u), u) == WithoutUser(rows, u)
  {
    if rows != [] {
      var front, last := rows[..|rows| - 1], rows[|rows| - 1];
      ClearIdempotent(front, u);
      var once := WithoutUser(front, u);
      if last.user != u {
        assert WithoutUser(rows, u) == once + [last];
        assert (once + [last])[..|once|] == once;
      } else {
        assert WithoutUser(rows, u) == once;
      }
    }
  }

  /** A well-formed table maps every key to a positive quantity. */
  lemma {:induction false} ViewPositive(rows: seq<CartRow>)
    requires WellFormed(rows)
    ensures forall k :: k in View(rows) ==> View(rows)[k] >= 1
  {
    if rows != [] {
      ViewPositive(rows[..|rows| - 1]);
    }
  }

  // ---------------------------------------------------------------------------
  // Decisions of the mutating handlers

  /** The checks of addToCart, in the source's order: product missing, product
      inactive, requested amount over stock, merged amount over stock. `held` is
      the quantity of the existing line, if any. */
  function AddDecision(product: Option<Product>, held: Option<nat>, q: nat): (r: Result<nat, CartError>)
    requires q >= 1
    ensures product.None? ==> r == Err(ProductNotFound)
    ensures product.Some? && !product.value.active ==> r == Err(ProductUnavailable)
    ensures product.Some? && product.value.active && product.value.stock < q ==>
              r == Err(InsufficientStock(product.value.stock))
    ensures r.Ok? ==> product.Some? && product.value.active
                      && r.value == held.GetOr(0) + q && r.value <= product.value.stock
    ensures product.Some? && product.value.active && held.GetOr(0) + q <= product.value.stock ==> r.Ok?
    ensures r.Err? && r.error.CannotAddMore? ==>
              product.Some? && held.Some? && q <= product.value.stock
              && r.error == CannotAddMore(q, product.value.stock - held.value)
  {
    match product
    case None => Err(ProductNotFound)
    case Some(pr) =>
      if !pr.active then Err(ProductUnavailable)
      else if pr.stock < q then Err(InsufficientStock(pr.stock))
      else match held
        case None => Ok(q)
        case Some(h) =>
          if pr.stock < h + q then Err(CannotAddMore(q, pr.stock - h)) else Ok(h + q)
  }

  /** The checks of updateCartItem, in the source's order: product missing, product
      inactive, quantity over stock, and only then whether the line exists. */
  function UpdateDecision(product: Option<Product>, lineExists: bool, q: nat): (r: Result<nat, CartError>)
    requires q >= 1
    ensures product.None? ==> r == Err(ProductNotFound)
    ensures product.Some? && !product.value.active ==> r == Err(ProductUnavailable)
    ensures product.Some? && product.value.active && product.value.stock < q ==>
              r == Err(InsufficientStock(product.value.stock))
    ensures r.Ok? <==> product.Some? && product.value.active && q <= product.value.stock && lineExists
    ensures r.Ok? ==> r.value == q
    ensures r.Err? && r.error == CartItemNotFound ==> !lineExists
  {
    match product
    case None => Err(ProductNotFound)
    case Some(pr) =>
      if !pr.active then Err(ProductUnavailable)
      else if pr.stock < q then Err(InsufficientStock(pr.stock))
      else if !lineExists then Err(CartItemNotFound)
      else Ok(q)
  }

  // ---------------------------------------------------------------------------
  // The cart view (getCart)

  /** One line of the cart view: the row joined with its product's current data. */
  datatype CartLine = CartLine(product: ProductId, quantity: nat, price: nat, stock: nat,
                               productActive: bool, itemTotal: nat)

  datatype CartSummary = CartSummary(items: seq<CartLine>, itemCount: nat, subtotal: nat)

  function JoinRow(row: CartRow, pr: Product): CartLine
  {
    CartLine(row.product, row.quantity, pr.price, pr.stock, pr.active, row.quantity * pr.price)
  }

  /** The joined rows of user `u`, newest first: the inner join drops a row whose
      product is missing, but keeps one whose product is inactive. */
  function Lines(products: map<ProductId, Product>, rows: seq<CartRow>, u: UserId): (items: seq<CartLine>)
    ensures |items| <= |rows|
    ensures forall i :: 0 <= i < |items| ==>
              && items[i].product in products
              && items[i].price == products[items[i].product].price
              && items[i].stock == products[items[i].product].stock
              && items[i].productActive == products[items[i].product].active
              && items[i].itemTotal == items[i].quantity * items[i].price
  {
    if rows == [] then []
    else JoinedLine(products, rows[|rows| - 1], u) + Lines(products, rows[..|rows| - 1], u)
  }

  /** The line one row contributes to user `u`'s view: none for another user's row
      or for a product the join cannot find. */
  function JoinedLine(products: map<ProductId, Product>, row: CartRow, u: UserId): (line: seq<CartLine>)
    ensures |line| <= 1
  {
    if row.user == u && row.product in products then [JoinRow(row, products[row.product])] else []
  }

  /** The `reduce` that adds up the item totals. */
  function Subtotal(items: seq<CartLine>): nat
  {
    if items == [] then 0 else items[0].itemTotal + Subtotal(items[1..])
  }

  /** getCart's answer: the joined lines, their number and the sum of their totals. */
  function GetCart(products: map<ProductId, Product>, rows: seq<CartRow>, u: UserId): CartSummary
  {
    var items := Lines(products, rows, u);
    CartSummary(items, |items|, Subtotal(items))
  }

  /** The products in user `u`'s cart that the join can see. */
  function CartProducts(cart: map<Key, nat>, u: UserId, products: map<ProductId, Product>): set<ProductId>
  {
    set k | k in cart && k.0 == u && k.1 in products :: k.1
  }

  /** The quantity user `u` holds of product `p`, 0 without a line. */
  function Held(cart: map<Key, nat>, u: UserId, p: ProductId): nat
  {
    if (u, p) in cart then cart[(u, p)] else 0
  }

  /** Every line of the view shows the quantity stored for it. */
  lemma {:induction false} LinesMatchView(products: map<ProductId, Product>, rows: seq<CartRow>, u: UserId)
    requires WellFormed(rows)
    ensures forall i :: 0 <= i < |Lines(products, rows, u)| ==>
              var line := Lines(products, rows, u)[i];
              (u, line.product) in View(rows) && View(rows)[(u, line.product)] == line.quantity
  {
    if rows != [] {
      var front, last := rows[..|rows| - 1], rows[|rows| - 1];
      LinesMatchView(products, front, u);
      var head, tail := JoinedLine(products, last, u), Lines(products, front, u);
      var items := Lines(products, rows, u);
      assert items == head + tail;
      forall i | 0 <= i < |items|
        ensures (u, items[i].product) in View(rows) && View(rows)[(u, items[i].product)] == items[i].quantity
      {
        if i >= |head| {
          assert items[i] == tail[i - |head|];
          assert (u, items[i].product) in View(front);
        }
      }
    }
  }

  /** Every stored line of user `u` whose product exists, active or not, is in the view. */
  lemma {:induction false} ViewInLines(products: map<ProductId, Product>, rows: seq<CartRow>, u: UserId)
    ensures forall p: ProductId :: (u, p) in View(rows) && p in products ==>
              exists i :: 0 <= i < |Lines(products, rows, u)| && Lines(products, rows, u)[i].product == p
  {
    if rows != [] {
      var front, last := rows[..|rows| - 1], rows[|rows| - 1];
      ViewInLines(products, front, u);
      var head, tail := JoinedLine(products, last, u), Lines(products, front, u);
      var items := Lines(products, rows, u);
      assert items == head + tail;
      forall p: ProductId | (u, p) in View(rows) && p in products
        ensures exists i :: 0 <= i < |items| && items[i].product == p
      {
        if KeyOf(last) == (u, p) {
          assert items[0].product == p;
        } else {
          var j :| 0 <= j < |tail| && tail[j].product == p;
          assert items[|head| + j].product == p;
        }
      }
      assert forall p: ProductId :: (u, p) in View(rows) && p in products ==>
               exists i :: 0 <= i < |Lines(products, rows, u)| && Lines(products, rows, u)[i].product == p;
    }
  }

  /** itemCount counts lines, i.e. distinct products, not units. */
  lemma {:induction false} ItemCountIsDistinctProducts(products: map<ProductId, Product>, rows: seq<CartRow>, u: UserId)
    requires WellFormed(rows)
    ensures GetCart(products, rows, u).itemCount == |CartProducts(View(rows), u, products)|
  {
    if rows != [] {
      var front, last := rows[..|rows| - 1], rows[|rows| - 1];
      ItemCountIsDistinctProducts(products, front, u);
      var before := CartProducts(View(front), u, products);
      var after := CartProducts(View(rows), u, products);
      if last.user == u && last.product in products {
        assert after == before + {last.product};
        assert last.product !in before;
      } else {
        assert after == before;
      }
    }
  }

  /** A line added as new heads the cart view. */
  lemma NewLineFirst(products: map<ProductId, Product>, rows: seq<CartRow>, row: CartRow)
    requires row.product in products
    ensures Lines(products, rows + [row], row.user)
            == [JoinRow(row, products[row.product])] + Lines(products, rows, row.user)
  {
    assert (rows + [row])[..|rows|] == rows;
  }

  /** The subtotal is recomputed from current prices: repricing product `p` moves the
      subtotal by exactly the held quantity times the price difference. */
  lemma {:induction false} RepriceSubtotal(products: map<ProductId, Product>, rows: seq<CartRow>,
                                          u: UserId, p: ProductId, newPrice: nat)
    requires WellFormed(rows) && p in products
    ensures var repriced := products[p := products[p].(price := newPrice)];
            var q := Held(View(rows), u, p);
            GetCart(repriced, rows, u).subtotal + q * products[p].price
            == GetCart(products, rows, u).subtotal + q * newPrice
  {
    var repriced := products[p := products[p].(price := newPrice)];
    if rows != [] {
      var front, last := rows[..|rows| - 1], rows[|rows| - 1];
      RepriceSubtotal(products, front, u, p, newPrice);
      SubtotalAppend(JoinedLine(products, last, u), Lines(products, front, u));
      SubtotalAppend(JoinedLine(repriced, last, u), Lines(repriced, front, u));
      RepriceLine(products, last, u, p, newPrice);
      if KeyOf(last) == (u, p) {
        assert Held(View(front), u, p) == 0;
        assert Held(View(rows), u, p) == last.quantity;
      } else {
        assert Held(View(rows), u, p) == Held(View(front), u, p);
      }
    }
  }

  /** Repricing moves the line of one row only when the row is `u`'s line of `p`. */
  lemma RepriceLine(products: map<ProductId, Product>, row: CartRow, u: UserId, p: ProductId, newPrice: nat)
    requires p in products
    ensures var repriced := products[p := products[p].(price := newPrice)];
            var mine := KeyOf(row) == (u, p);
            Subtotal(JoinedLine(repriced, row, u)) + (if mine then row.quantity * products[p].price else 0)
            == Subtotal(JoinedLine(products, row, u)) + (if mine then row.quantity * newPrice else 0)
  {
    var repriced := products[p := products[p].(price := newPrice)];
    if KeyOf(row) == (u, p) {
      assert JoinedLine(repriced, row, u)[1..] == [] && JoinedLine(products, row, u)[1..] == [];
    } else if row.user == u && row.product in products {
      assert repriced[row.product] == products[row.product];
    }
  }

  lemma {:induction false} SubtotalAppend(a: seq<CartLine>, b: seq<CartLine>)
    requires |a| <= 1
    ensures Subtotal(a + b) == Subtotal(a) + Subtotal(b)
  {
    if a != [] {
      assert (a + b)[1..] == b;
      assert a[1..] == [];
    } else {
      assert a + b == b;
    }
  }

  /** After clearing, the user's cart view is empty. */
  lemma {:induction false} ClearedCartIsEmpty(products: map<ProductId, Product>, rows: seq<CartRow>, u: UserId)
    ensures GetCart(products, WithoutUser(rows, u), u) == CartSummary([], 0, 0)
  {
    if rows != [] {
      var front, last := rows[..|rows| - 1], rows[|rows| - 1];
      ClearedCartIsEmpty(products, front, u);
      var once := WithoutUser(front, u);
      if last.user != u {
        assert WithoutUser(rows, u) == once + [last];
        assert (once + [last])[..|once|] == once;
      } else {
        assert WithoutUser(rows, u) == once;
      }
    }
  }

  // ---------------------------------------------------------------------------
  // The handlers, one method each, over the table held by a Cart

  class Cart {
    var rows: seq<CartRow>

    ghost predicate Valid()
      reads this
    {
      WellFormed(rows)
    }

    constructor ()
      ensures Valid() && rows == []
    {
      rows := [];
    }

    /** addToCart: merge into an existing line, or insert a new one. */
    method AddToCart(products: map<ProductId, Product>, u: UserId, p: ProductId, quantity: nat)
      returns (r: Result<CartRow, CartError>)
      requires Valid() && quantity >= 1
      modifies this
      ensures Valid()
      ensures var d := AddDecision(Lookup(products, p), Lookup(old(View(rows)), (u, p)), quantity);
              && (d.Err? ==> r == Err(d.error) && rows == old(rows))
              && (d.Ok? ==> r == Ok(CartRow(u, p, d.value)) && View(rows) == old(View(rows))[(u, p) := d.value])
      ensures r.Ok? && (u, p) !in old(View(rows)) ==> rows == old(rows) + [r.value]
      ensures r.Ok? && (u, p) in old(View(rows)) ==> rows == SetQuantity(old(rows), u, p, r.value.quantity)
    {
      if p !in products {
        return Err(ProductNotFound);
      }
      var product := products[p];
      if !product.active {
        return Err(ProductUnavailable);
      }
      if product.stock < quantity {
        return Err(InsufficientStock(product.stock));
      }
      var existing := Lookup(View(rows), (u, p));
      if existing.Some? {
        var newQuantity := existing.value + quantity;
        if product.stock < newQuantity {
          return Err(CannotAddMore(quantity, product.stock - existing.value));
        }
        SetQuantityView(rows, u, p, newQuantity);
        SetQuantityWellFormed(rows, u, p, newQuantity);
        rows := SetQuantity(rows, u, p, newQuantity);
        r := Ok(CartRow(u, p, newQuantity));
      } else {
        AppendView(rows, CartRow(u, p, quantity));
        rows := rows + [CartRow(u, p, quantity)];
        r := Ok(CartRow(u, p, quantity));
      }
    }

    /** updateCartItem: set an absolute quantity on a line that must already exist. */
    method UpdateCartItem(products: map<ProductId, Product>, u: UserId, p: ProductId, quantity: nat)
      returns (r: Result<CartRow, CartError>)
      requires Valid() && quantity >= 1
      modifies this
      ensures Valid()
      ensures var d := UpdateDecision(Lookup(products, p), (u, p) in old(View(rows)), quantity);
              && (d.Err? ==> r == Err(d.error) && rows == old(rows))
              && (d.Ok? ==> r == Ok(CartRow(u, p, quantity)) && View(rows) == old(View(rows))[(u, p) := quantity])
      ensures rows == SetQuantity(old(rows), u, p, quantity) || rows == old(rows)
    {
      if p !in products {
        return Err(ProductNotFound);
      }
      var product := products[p];
      if !product.active {
        return Err(ProductUnavailable);
      }
      if product.stock < quantity {
        return Err(InsufficientStock(product.stock));
      }
      var matched := (u, p) in View(rows);
      SetQuantityView(rows, u, p, quantity);
      SetQuantityWellFormed(rows, u, p, quantity);
      if !matched {
        SetQuantityAbsent(rows, u, p, quantity);
      }
      rows := SetQuantity(rows, u, p, quantity);
      if !matched {
        return Err(CartItemNotFound);
      }
      r := Ok(CartRow(u, p, quantity));
    }

    /** removeFromCart: delete the (u, p) line. */
    method RemoveFromCart(u: UserId, p: ProductId) returns (r: Result<(), CartError>)
      requires Valid()
      modifies this
      ensures Valid()
      ensures r.Ok? <==> (u, p) in old(View(rows))
      ensures r.Err? ==> r.error == CartItemNotFound && rows == old(rows)
      ensures View(rows) == old(View(rows)) - {(u, p)}
      ensures rows == Without(old(rows), u, p)
    {
      var matched := (u, p) in View(rows);
      WithoutView(rows, u, p);
      WithoutWellFormed(rows, u, p);
      if !matched {
        WithoutAbsent(rows, u, p);
      }
      rows := Without(rows, u, p);
      if !matched {
        return Err(CartItemNotFound);
      }
      r := Ok(());
    }

    /** clearCart: delete every line of user `u`; it cannot fail. */
    method ClearCart(u: UserId)
      requires Valid()
      modifies this
      ensures Valid()
      ensures rows == WithoutUser(old(rows), u)
      ensures View(rows) == OtherUsers(old(View(rows)), u)
    {
      WithoutUserView(rows, u);
      WithoutUserWellFormed(rows, u);
      rows := WithoutUser(rows, u);
    }
  }

  // ---------------------------------------------------------------------------
  // Several requests in a row, on the map view

  /** The cart after one addToCart request. */
  function ApplyAdd(products: map<ProductId, Product>, cart: map<Key, nat>, u: UserId, p: ProductId, q: nat): map<Key, nat>
    requires q >= 1
  {
    match AddDecision(Lookup(products, p), Lookup(cart, (u, p)), q)
    case Ok(n) => cart[(u, p) := n]
    case Err(_) => cart
  }

  predicate AllPositive(qs: seq<nat>)
  {
    forall i :: 0 <= i < |qs| ==> qs[i] >= 1
  }

  /** The cart after a run of addToCart requests for one (user, product). */
  function AddAll(products: map<ProductId, Product>, cart: map<Key, nat>, u: UserId, p: ProductId, qs: seq<nat>): map<Key, nat>
    requires AllPositive(qs)
    decreases |qs|
  {
    if qs == [] then cart
    else AddAll(products, ApplyAdd(products, cart, u, p, qs[0]), u, p, qs[1..])
  }

  /** The requested amounts of that run that were accepted, in order. */
  function Accepted(products: map<ProductId, Product>, cart: map<Key, nat>, u: UserId, p: ProductId, qs: seq<nat>): seq<nat>
    requires AllPositive(qs)
    decreases |qs|
  {
    if qs == [] then []
    else
      (if AddDecision(Lookup(products, p), Lookup(cart, (u, p)), qs[0]).Ok? then [qs[0]] else [])
      + Accepted(products, ApplyAdd(products, cart, u, p, qs[0]), u, p, qs[1..])
  }

  function Sum(qs: seq<nat>): nat
  {
    if qs == [] then 0 else qs[0] + Sum(qs[1..])
  }

  /** The stored quantity is the starting quantity plus the accepted amounts. */
  lemma {:induction false} AddsAccumulate(products: map<ProductId, Product>, cart: map<Key, nat>,
                                         u: UserId, p: ProductId, qs: seq<nat>)
    requires AllPositive(qs)
    ensures Held(AddAll(products, cart, u, p, qs), u, p) == Held(cart, u, p) + Sum(Accepted(products, cart, u, p, qs))
    decreases |qs|
  {
    if qs != [] {
      var next := ApplyAdd(products, cart, u, p, qs[0]);
      AddsAccumulate(products, next, u, p, qs[1..]);
      var rest := Accepted(products, next, u, p, qs[1..]);
      if AddDecision(Lookup(products, p), Lookup(cart, (u, p)), qs[0]).Ok? {
        assert Accepted(products, cart, u, p, qs) == [qs[0]] + rest;
        assert ([qs[0]] + rest)[1..] == rest;
      } else {
        assert Accepted(products, cart, u, p, qs) == rest;
      }
    }
  }

  /** Once anything of the run was accepted, the stored quantity is within stock. */
  lemma {:induction false} AddsWithinStock(products: map<ProductId, Product>, cart: map<Key, nat>,
                                          u: UserId, p: ProductId, qs: seq<nat>)
    requires AllPositive(qs)
    ensures var final := AddAll(products, cart, u, p, qs);
            Accepted(products, cart, u, p, qs) != [] ==>
              p in products && (u, p) in final && final[(u, p)] <= products[p].stock
    decreases |qs|
  {
    if qs != [] {
      var next := ApplyAdd(products, cart, u, p, qs[0]);
      AddsWithinStock(products, next, u, p, qs[1..]);
      var rest := Accepted(products, next, u, p, qs[1..]);
      if rest == [] {
        AddsAccumulate(products, next, u, p, qs[1..]);
        assert Sum(rest) == 0;
      }
    }
  }

  /** A run of adds for (u, p) changes no other line. */
  lemma {:induction false} AddsKeepOthers(products: map<ProductId, Product>, cart: map<Key, nat>,
                                         u: UserId, p: ProductId, qs: seq<nat>)
    requires AllPositive(qs)
    ensures AddAll(products, cart, u, p, qs) - {(u, p)} == cart - {(u, p)}
    decreases |qs|
  {
    if qs != [] {
      var next := ApplyAdd(products, cart, u, p, qs[0]);
      AddsKeepOthers(products, next, u, p, qs[1..]);
      assert next - {(u, p)} == cart - {(u, p)};
    }
  }

  function Min(a: int, b: int): int { if a <= b then a else b }

  /** N requests for one unit each, against stock S and a held quantity h <= S:
      exactly min(N, S - h) are accepted, so the cart never goes past stock. */
  lemma {:induction false} UnitAddsStopAtStock(products: map<ProductId, Product>, cart: map<Key, nat>,
                                              u: UserId, p: ProductId, n: nat)
    requires p in products && products[p].active && Held(cart, u, p) <= products[p].stock
    ensures AllPositive(seq(n, _ => 1))
    ensures |Accepted(products, cart, u, p, seq(n, _ => 1))| == Min(n, products[p].stock - Held(cart, u, p))
    decreases n
  {
    var ones := seq(n, _ => 1);
    if n > 0 {
      assert ones[1..] == seq(n - 1, _ => 1);
      var next := ApplyAdd(products, cart, u, p, 1);
      UnitAddsStopAtStock(products, next, u, p, n - 1);
      var d := AddDecision(Lookup(products, p), Lookup(cart, (u, p)), 1);
      var rest := Accepted(products, next, u, p, ones[1..]);
      if Held(cart, u, p) < products[p].stock {
        assert d.Ok? && Held(next, u, p) == Held(cart, u, p) + 1;
        assert Accepted(products, cart, u, p, ones) == [1] + rest;
      } else {
        assert d.Err? && next == cart;
        assert Accepted(products, cart, u, p, ones) == rest;
      }
    }
  }

  /** The walk-through of a stock-5 product: add 3, add 4 (refused, 2 addable),
      update to 5, add 1 (refused), remove; the cart is then empty. */
  method CartScenario(u: UserId, p: ProductId)
  {
    var products := map[p := Product(1000, 5, true)];
    var cart := new Cart();
    var r := cart.AddToCart(products, u, p, 3);
    assert r == Ok(CartRow(u, p, 3));
    r := cart.AddToCart(products, u, p, 4);
    assert r == Err(CannotAddMore(4, 2));
    r := cart.UpdateCartItem(products, u, p, 5);
    assert r == Ok(CartRow(u, p, 5));
    r := cart.AddToCart(products, u, p, 1);
    assert r == Err(CannotAddMore(1, 0));
    var removed := cart.RemoveFromCart(u, p);
    assert removed.Ok?;
    assert View(cart.rows) == map[];
  }
}
