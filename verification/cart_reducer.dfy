/**
 * The client's cart state: the reducer that folds the server's cart answers
 * into it, and the two queries the pages ask of it. Items are the lines of
 * the server's cart view; the subtotal is kept in integer cents, so the
 * string the server sends and the parseFloat that reads it are one number.
 */
module CartReducer {
  import opened CartStore

  datatype CartState = CartState(items: seq<CartLine>, itemCount: nat, subtotal: nat, isLoading: bool)

  /** The state before any action: an empty cart that is not loading. */
  const InitialState := CartState([], 0, 0, false)

  /** The actions the cart provider dispatches; Unknown stands for any other type. */
  datatype Action =
    | SetLoading(loading: bool)
    | LoadCart(payload: CartSummary)
    | AddItem(payload: CartSummary)
    | UpdateItem(payload: CartSummary)
    | RemoveItem(payload: CartSummary)
    | ClearCart
    | Unknown

  /** The count and subtotal agree with the items, as in every answer of getCart. */
  predicate Consistent(s: CartState)
  {
    s.itemCount == |s.items| && s.subtotal == Subtotal(s.items)
  }

  predicate ConsistentSummary(p: CartSummary)
  {
    p.itemCount == |p.items| && p.subtotal == Subtotal(p.items)
  }

  /** An action that carries a payload carries a consistent one. */
  predicate ConsistentAction(a: Action)
  {
    (a.LoadCart? || a.AddItem? || a.UpdateItem? || a.RemoveItem?) ==> ConsistentSummary(a.payload)
  }

  /** The three fields a payload replaces. */
  function Replace(s: CartState, p: CartSummary): CartState
  {
    s.(items := p.items, itemCount := p.itemCount, subtotal := p.subtotal)
  }

  function Reduce(s: CartState, a: Action): (next: CartState)
    ensures Consistent(s) && ConsistentAction(a) ==> Consistent(next)
  {
    match a
    case SetLoading(loading) => s.(isLoading := loading)
    case LoadCart(p) => Replace(s, p).(isLoading := false)
    case AddItem(p) => Replace(s, p)
    case UpdateItem(p) => Replace(s, p)
    case RemoveItem(p) => Replace(s, p)
    case ClearCart => s.(items := [], itemCount := 0, subtotal := 0)
    case Unknown => s
  }

  /** SET_LOADING changes the loading flag and nothing else. */
  lemma SetLoadingOnlyLoading(s: CartState, loading: bool)
    ensures Reduce(s, SetLoading(loading)).isLoading == loading
    ensures Reduce(s, SetLoading(loading)).(isLoading := s.isLoading) == s
  {
  }

  /** LOAD_CART takes items, count and subtotal from the payload and ends the loading. */
  lemma LoadCartCopies(s: CartState, p: CartSummary)
    ensures var next := Reduce(s, LoadCart(p));
            next.items == p.items && next.itemCount == p.itemCount && next.subtotal == p.subtotal
            && !next.isLoading
  {
  }

  /** ADD_ITEM, UPDATE_ITEM and REMOVE_ITEM take the payload and keep the loading flag. */
  lemma ItemActionsKeepLoading(s: CartState, a: Action)
    requires a.AddItem? || a.UpdateItem? || a.RemoveItem?
    ensures Reduce(s, a) == CartState(a.payload.items, a.payload.itemCount, a.payload.subtotal, s.isLoading)
  {
  }

  /** CLEAR_CART empties the cart, keeps the loading flag, and a second one changes nothing. */
  lemma ClearCartIdempotent(s: CartState)
    ensures var cleared := Reduce(s, ClearCart);
            cleared.items == [] && cleared.itemCount == 0 && cleared.subtotal == 0
            && cleared.isLoading == s.isLoading
            && Reduce(cleared, ClearCart) == cleared
  {
  }

  /** Any other action type leaves the state as it is. */
  lemma UnknownIsIdentity(s: CartState)
    ensures Reduce(s, Unknown) == s
  {
  }

  /** The state after a run of dispatches, the first one first. */
  function ReduceAll(s: CartState, actions: seq<Action>): CartState
    decreases |actions|
  {
    if actions == [] then s else ReduceAll(Reduce(s, actions[0]), actions[1..])
  }

  /** From a consistent state, dispatching only consistent payloads (every getCart answer is one)
      keeps count and subtotal in step with the items. */
  lemma {:induction false} DispatchesKeepConsistent(s: CartState, actions: seq<Action>)
    requires Consistent(s)
    requires forall i :: 0 <= i < |actions| ==> ConsistentAction(actions[i])
    ensures Consistent(ReduceAll(s, actions))
    decreases |actions|
  {
    if actions != [] {
      DispatchesKeepConsistent(Reduce(s, actions[0]), actions[1..]);
    }
  }

  lemma InitialConsistent()
    ensures Consistent(InitialState)
  {
  }

  /** The payload of a getCart answer is consistent. */
  lemma ServerAnswerConsistent(products: map<ProductId, Product>, rows: seq<CartRow>, u: UserId)
    ensures ConsistentSummary(GetCart(products, rows, u))
  {
  }

  // ---------------------------------------------------------------------------
  // getItemQuantity and isInCart

  /** The position of the first line of product `p`, |items| when there is none. */
  function FirstLineOf(items: seq<CartLine>, p: ProductId): (i: nat)
    ensures i <= |items|
    ensures i < |items| ==> items[i].product == p
    ensures forall j :: 0 <= j < i ==> items[j].product != p
  {
    if items == [] then 0
    else if items[0].product == p then 0
    else 1 + FirstLineOf(items[1..], p)
  }

  /** `items.some(item => item.product_id === p)` */
  predicate IsInCart(s: CartState, p: ProductId)
  {
    exists i :: 0 <= i < |s.items| && s.items[i].product == p
  }

  /** The quantity of the first line of product `p`, and 0 when no line has it. */
  function GetItemQuantity(s: CartState, p: ProductId): (q: nat)
    ensures !IsInCart(s, p) ==> q == 0
    ensures IsInCart(s, p) ==>
              exists i :: 0 <= i < |s.items| && s.items[i].product == p && s.items[i].quantity == q
                          && forall j :: 0 <= j < i ==> s.items[j].product != p
  {
    var i := FirstLineOf(s.items, p);
    if i < |s.items| then s.items[i].quantity else 0
  }

  /** After the cart is loaded from the server, the two queries answer what the
      cart table holds for the user, for every product the join can see. */
  lemma LoadedCartAnswers(s: CartState, products: map<ProductId, Product>, rows: seq<CartRow>,
                          u: UserId, p: ProductId)
    requires WellFormed(rows)
    ensures var loaded := Reduce(s, LoadCart(GetCart(products, rows, u)));
            && (IsInCart(loaded, p) <==> (u, p) in View(rows) && p in products)
            && GetItemQuantity(loaded, p) == (if p in products then Held(View(rows), u, p) else 0)
  {
    var loaded := Reduce(s, LoadCart(GetCart(products, rows, u)));
    LinesMatchView(products, rows, u);
    ViewInLines(products, rows, u);
    assert loaded.items == Lines(products, rows, u);
    if IsInCart(loaded, p) {
      var i := FirstLineOf(loaded.items, p);
      assert loaded.items[i].product == p;
    }
  }
}
