/** The optimistic shopping cart of the product list page: an authoritative
    cart (`actualCart`), a pure reducer that applies a signed quantity change
    to one product, and the speculate / commit / revert sequence of
    `addToCart`. */
module Cart {

  type ProductId = int

  /** A cart maps product ids to quantities; a missing id means quantity 0. */
  type CartMap = map<ProductId, int>

  /** The action passed to `setOptimisticCart`. */
  datatype CartUpdate = CartUpdate(productId: ProductId, quantity: int)

  /** `cart.get(id) || 0`: the quantity of an id the cart holds, 0 otherwise. */
  function QuantityOf(cart: CartMap, id: ProductId): (q: int)
    ensures id in cart ==> q == cart[id]
    ensures id !in cart ==> q == 0
  {
    if id in cart then cart[id] else 0
  }

  /** The `useOptimistic` reducer: a fresh map in which `u.productId` holds its
      old quantity (0 when absent) plus `u.quantity`, unclamped, and every other
      entry is as before. The input map is a value and so is never changed. */
  function ApplyUpdate(cart: CartMap, u: CartUpdate): (r: CartMap)
    ensures r.Keys == cart.Keys + {u.productId}
    ensures r[u.productId] == QuantityOf(cart, u.productId) + u.quantity
    ensures forall id :: id in cart && id != u.productId ==> r[id] == cart[id]
  {
    cart[u.productId := QuantityOf(cart, u.productId) + u.quantity]
  }

  /** The update `addToCart` issues to undo a speculative one. */
  function Inverse(u: CartUpdate): (v: CartUpdate)
    ensures v.productId == u.productId && v.quantity + u.quantity == 0
  {
    CartUpdate(u.productId, -u.quantity)
  }

  /** The `setActualCart` updater run once the API call resolves: one more of
      `id` than before, and no other entry changed. It builds the same map as
      the speculative `+1` the click showed. */
  function CommitAdd(cart: CartMap, id: ProductId): (r: CartMap)
    ensures r.Keys == cart.Keys + {id}
    ensures forall k :: QuantityOf(r, k) == QuantityOf(cart, k) + (if k == id then 1 else 0)
    ensures r == ApplyUpdate(cart, CartUpdate(id, 1))
  {
    var r := map k | k in cart.Keys + {id} :: if k == id then QuantityOf(cart, id) + 1 else cart[k];
    assert r == cart[id := QuantityOf(cart, id) + 1];
    r
  }

  /** What `useOptimistic` shows: the pending updates folded through the
      reducer, oldest first, starting from the committed cart. No committed
      product ever disappears from the view. */
  function Fold(cart: CartMap, pending: seq<CartUpdate>): (shown: CartMap)
    ensures cart.Keys <= shown.Keys
    ensures pending == [] ==> shown == cart
    decreases |pending|
  {
    if pending == [] then cart else Fold(ApplyUpdate(cart, pending[0]), pending[1..])
  }

  lemma FoldOne(cart: CartMap, u: CartUpdate)
    ensures Fold(cart, [u]) == ApplyUpdate(cart, u)
  {
    assert [u][1..] == [];
  }

  /** Issuing one more optimistic update shows it on top of what was shown. */
  lemma {:induction false} FoldAppend(cart: CartMap, pending: seq<CartUpdate>, u: CartUpdate)
    ensures Fold(cart, pending + [u]) == ApplyUpdate(Fold(cart, pending), u)
    decreases |pending|
  {
    if pending == [] {
      assert pending + [u] == [u];
      FoldOne(cart, u);
    } else {
      assert (pending + [u])[1..] == pending[1..] + [u];
      FoldAppend(ApplyUpdate(cart, pending[0]), pending[1..], u);
    }
  }

  /** The sum of the quantities in `pending` that concern `id`. */
  function NetChange(pending: seq<CartUpdate>, id: ProductId): int
    decreases |pending|
  {
    if pending == [] then 0
    else (if pending[0].productId == id then pending[0].quantity else 0) + NetChange(pending[1..], id)
  }

  /** The products `pending` mentions. */
  function Touched(pending: seq<CartUpdate>): set<ProductId> {
    set u | u in pending :: u.productId
  }

  /** The shown quantity of every product is its committed quantity plus the
      net pending change for it, and the shown cart has an entry exactly for
      the committed products and the touched ones. */
  lemma {:induction false} FoldMeaning(cart: CartMap, pending: seq<CartUpdate>)
    ensures forall id :: QuantityOf(Fold(cart, pending), id) == QuantityOf(cart, id) + NetChange(pending, id)
    ensures Fold(cart, pending).Keys == cart.Keys + Touched(pending)
    decreases |pending|
  {
    if pending != [] {
      var next := ApplyUpdate(cart, pending[0]);
      FoldMeaning(next, pending[1..]);
      assert Touched(pending) == {pending[0].productId} + Touched(pending[1..]) by {
        assert forall u :: u in pending <==> u == pending[0] || u in pending[1..];
      }
    }
  }

  /** Speculating `u` and then reverting it restores every product's quantity,
      but not always the map: an id that was absent comes back holding 0. */
  lemma {:induction false} RevertRestoresQuantities(cart: CartMap, u: CartUpdate)
    ensures forall id :: QuantityOf(Fold(cart, [u, Inverse(u)]), id) == QuantityOf(cart, id)
    ensures u.productId in cart ==> Fold(cart, [u, Inverse(u)]) == cart
    ensures u.productId !in cart ==> Fold(cart, [u, Inverse(u)]) == cart[u.productId := 0]
  {
    var pending := [u, Inverse(u)];
    FoldMeaning(cart, pending);
    assert pending[1..] == [Inverse(u)];
    assert pending[1..][1..] == [];
    assert NetChange(pending[1..], u.productId) == -u.quantity;
    assert NetChange(pending, u.productId) == 0;
    var back := Fold(cart, pending);
    assert back == ApplyUpdate(ApplyUpdate(cart, u), Inverse(u)) by {
      FoldOne(ApplyUpdate(cart, u), Inverse(u));
    }
    if u.productId in cart {
      assert back == cart;
    } else {
      assert back == cart[u.productId := 0];
    }
  }

  /** The simulated `addToCartAPI`: it waits and then always resolves. */
  function SimulatedAddToCartApi(productId: ProductId): (succeeded: bool)
    ensures succeeded
  {
    true
  }

  /** Where the page's one add-to-cart action stands. The button is disabled
      while an action is pending, so there is at most one. */
  datatype AddPhase =
    | Idle
    | Awaiting(productId: ProductId)
    | Resolved(productId: ProductId, succeeded: bool)

  /** The state slots of the product list page: the committed cart, the
      optimistic updates of the pending transition, and the phase of the
      pending `addToCart`. */
  class CartPage {
    var actualCart: CartMap
    var optimisticUpdates: seq<CartUpdate>
    var phase: AddPhase

    ghost predicate Valid()
      reads this
    {
      match phase
      case Idle => optimisticUpdates == []
      case Awaiting(id) => optimisticUpdates == [CartUpdate(id, 1)]
      case Resolved(id, ok) =>
        optimisticUpdates == if ok then [CartUpdate(id, 1)] else [CartUpdate(id, 1), CartUpdate(id, -1)]
    }

    /** `isPending` of the page's transition. When nothing is pending the
        page shows exactly the committed cart. */
    predicate IsPending()
      reads this
      ensures Valid() && !IsPending() ==> OptimisticCart() == actualCart
    {
      !phase.Idle?
    }

    /** `optimisticCart`: the committed cart with the pending updates applied.
        Every committed product is shown, and with nothing pending the view is
        the committed cart itself. */
    function OptimisticCart(): (shown: CartMap)
      reads this
      ensures actualCart.Keys <= shown.Keys
      ensures optimisticUpdates == [] ==> shown == actualCart
    {
      Fold(actualCart, optimisticUpdates)
    }

    /** The page as first rendered: `useState(new Map())`. */
    constructor ()
      ensures Valid() && !IsPending()
      ensures actualCart == map[] && OptimisticCart() == map[]
    {
      actualCart := map[];
      optimisticUpdates := [];
      phase := Idle;
    }

    /** A click on "Add to cart": the transition starts and
        `setOptimisticCart({productId, quantity: 1})` shows one more of the
        product at once, while the committed cart is untouched. */
    method Click(productId: ProductId)
      requires Valid() && !IsPending()
      modifies this
      ensures Valid() && phase == Awaiting(productId)
      ensures actualCart == old(actualCart)
      ensures optimisticUpdates == [CartUpdate(productId, 1)]
      ensures OptimisticCart() == ApplyUpdate(actualCart, CartUpdate(productId, 1))
    {
      optimisticUpdates := optimisticUpdates + [CartUpdate(productId, 1)];
      phase := Awaiting(productId);
      FoldOne(actualCart, CartUpdate(productId, 1));
    }

    /** The API call settles. On success the committed cart becomes exactly
        what the click showed; on failure the committed cart is untouched and
        the revert `-1` brings every shown quantity back to the committed one. */
    method Resolve(apiSucceeded: bool)
      requires Valid() && phase.Awaiting?
      modifies this
      ensures Valid() && phase == Resolved(old(phase).productId, apiSucceeded)
      ensures apiSucceeded ==> actualCart == CommitAdd(old(actualCart), old(phase).productId)
      ensures apiSucceeded ==> actualCart == old(OptimisticCart())
      ensures apiSucceeded ==> optimisticUpdates == old(optimisticUpdates)
      ensures !apiSucceeded ==> actualCart == old(actualCart)
      ensures !apiSucceeded ==> optimisticUpdates == old(optimisticUpdates) + [CartUpdate(old(phase).productId, -1)]
      ensures !apiSucceeded ==> forall id :: QuantityOf(OptimisticCart(), id) == QuantityOf(actualCart, id)
    {
      var id := phase.productId;
      FoldOne(actualCart, CartUpdate(id, 1));
      if apiSucceeded {
        actualCart := CommitAdd(actualCart, id);
      } else {
        optimisticUpdates := optimisticUpdates + [CartUpdate(id, -1)];
        RevertRestoresQuantities(actualCart, CartUpdate(id, 1));
      }
      phase := Resolved(id, apiSucceeded);
    }

    /** The transition ends: React drops its optimistic updates and the page
        shows the committed cart again. */
    method Settle()
      requires Valid() && phase.Resolved?
      modifies this
      ensures Valid() && phase == Idle
      ensures actualCart == old(actualCart)
      ensures OptimisticCart() == actualCart
    {
      optimisticUpdates := [];
      phase := Idle;
    }

    /** The whole `addToCart` run for one click, with the API outcome given:
        one more of the product on success, nothing on failure. */
    method AddToCart(productId: ProductId, apiSucceeded: bool)
      requires Valid() && !IsPending()
      modifies this
      ensures Valid() && !IsPending()
      ensures actualCart == if apiSucceeded then CommitAdd(old(actualCart), productId) else old(actualCart)
      ensures OptimisticCart() == actualCart
    {
      Click(productId);
      Resolve(apiSucceeded);
      Settle();
    }

    /** `addToCart` against the simulated API, which always resolves: the
        revert branch is never taken and the product gains exactly one. */
    method AddToCartSimulated(productId: ProductId)
      requires Valid() && !IsPending()
      modifies this
      ensures Valid() && !IsPending()
      ensures actualCart == CommitAdd(old(actualCart), productId)
      ensures forall id :: QuantityOf(actualCart, id) == QuantityOf(old(actualCart), id) + (if id == productId then 1 else 0)
    {
      var ok := SimulatedAddToCartApi(productId);
      AddToCart(productId, ok);
    }
  }

  /** Two runs of the page: an add that commits to an empty cart, and an add
      that is rejected against a cart holding two. */
  method Scenarios()
  {
    var page := new CartPage();
    page.Click(1);
    assert page.OptimisticCart() == map[1 := 1];
    page.Resolve(true);
    page.Settle();
    assert page.actualCart == map[1 := 1];
    page.AddToCart(1, true);
    assert page.actualCart == map[1 := 2];
    page.Click(1);
    assert page.OptimisticCart() == map[1 := 3];
    page.Resolve(false);
    RevertRestoresQuantities(page.actualCart, CartUpdate(1, 1));
    assert page.OptimisticCart() == map[1 := 2];
    page.Settle();
    assert page.OptimisticCart() == map[1 := 2];
  }
}
