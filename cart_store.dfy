/**
 * The shared, mutable product list `productosConCantidad` that both the product
 * grid and the cart screen read and update, with the two buttons that empty
 * the cart ("Vaciar Carrito" and "Finalizar Compra").
 */
module CartStore {
  import opened Wrappers
  import opened Catalog
  import opened Badge

  /** The ids that occur in `s`. */
  function IdsOf(s: seq<Product>): set<int> {
    set k | 0 <= k < |s| :: s[k].id
  }

  /**
   * The catalog after `actualizarCantidad(p.id, -p.cantidad)` for every `p` of
   * `snapshot`, in order: what the empty-cart loop does with its snapshot.
   */
  function ClearEach(ps: seq<Product>, snapshot: seq<Product>): (r: seq<Product>)
    ensures |r| == |ps|
    decreases |snapshot|
  {
    if snapshot == [] then ps
    else
      var last := snapshot[|snapshot| - 1];
      Adjusted(ClearEach(ps, snapshot[..|snapshot| - 1]), last.id, -last.quantity)
  }

  /**
   * One turn of the empty-cart loop: if the products whose ids are in `done`
   * are at zero and the rest untouched, clearing one more product `x` of the
   * snapshot zeroes exactly that product as well.
   */
  lemma ClearStep(ps: seq<Product>, r0: seq<Product>, done: set<int>, x: Product, r: seq<Product>, done': set<int>)
    requires UniqueIds(ps) && SameListing(ps, r0)
    requires forall j :: 0 <= j < |ps| ==> r0[j].quantity == if ps[j].id in done then 0 else ps[j].quantity
    requires x in ps && x.id !in done
    requires r == Adjusted(r0, x.id, -x.quantity) && done' == done + {x.id}
    ensures SameListing(ps, r)
    ensures forall j :: 0 <= j < |ps| ==> r[j].quantity == if ps[j].id in done' then 0 else ps[j].quantity
  {
    var j0 :| 0 <= j0 < |ps| && ps[j0] == x;
    FirstIndexOfUnique(ps, j0);
    FirstIndexSameListing(ps, r0, x.id);
    assert r0[j0].quantity == x.quantity;
    AdjustedFirstMatch(r0, x.id, -x.quantity);
    AdjustedKeepsListing(r0, x.id, -x.quantity);
    assert r[j0].quantity == 0;
    forall j | 0 <= j < |ps|
      ensures r[j].quantity == if ps[j].id in done' then 0 else ps[j].quantity
    {
      if j != j0 {
        assert ps[j].id != x.id;
      }
    }
  }

  /** Clearing one more snapshot entry is one more update. */
  lemma ClearEachSnoc(ps: seq<Product>, snapshot: seq<Product>, i: nat)
    requires i < |snapshot|
    ensures ClearEach(ps, snapshot[..i + 1])
      == Adjusted(ClearEach(ps, snapshot[..i]), snapshot[i].id, -snapshot[i].quantity)
  {
    assert snapshot[..i + 1][..i] == snapshot[..i];
  }

  /** In a sequence with unique ids, entry `i` brings an id not seen before it. */
  lemma NextIdIsNew(c: seq<Product>, i: nat)
    requires UniqueIds(c) && i < |c|
    ensures c[i].id !in IdsOf(c[..i])
    ensures IdsOf(c[..i + 1]) == IdsOf(c[..i]) + {c[i].id}
  {
    assert c[..i + 1] == c[..i] + [c[i]];
  }

  /** After the first `i` entries of the cart snapshot, exactly the products with those ids are at zero. */
  lemma {:induction false} ClearEachPrefix(ps: seq<Product>, i: nat)
    requires UniqueIds(ps) && QuantitiesInRange(ps) && i <= |Cart(ps)|
    ensures var r, done := ClearEach(ps, Cart(ps)[..i]), IdsOf(Cart(ps)[..i]);
      SameListing(ps, r) &&
      forall j :: 0 <= j < |ps| ==> r[j].quantity == if ps[j].id in done then 0 else ps[j].quantity
  {
    var c := Cart(ps);
    if i == 0 {
      assert c[..0] == [];
    } else {
      ClearEachPrefix(ps, i - 1);
      var pre, x := c[..i - 1], c[i - 1];
      ClearEachSnoc(ps, c, i - 1);
      assert x in ps by {
        CartMembership(ps);
        assert x in c;
      }
      assert x.id !in IdsOf(pre) && IdsOf(c[..i]) == IdsOf(pre) + {x.id} by {
        CartUniqueIds(ps);
        NextIdIsNew(c, i - 1);
      }
      ClearStep(ps, ClearEach(ps, pre), IdsOf(pre), x, ClearEach(ps, c[..i]), IdsOf(c[..i]));
    }
  }

  /**
   * With unique ids, running the empty-cart loop over the cart snapshot zeroes
   * every quantity and changes nothing else: the cart, the item count and the
   * total are then all empty or zero.
   */
  lemma ClearEachEmptiesCart(ps: seq<Product>)
    requires UniqueIds(ps) && QuantitiesInRange(ps)
    ensures var r := ClearEach(ps, Cart(ps));
      SameListing(ps, r) && UniqueIds(r) && QuantitiesInRange(r) &&
      (forall j :: 0 <= j < |r| ==> r[j].quantity == 0) &&
      Cart(r) == [] && QuantitySum(r) == 0 && PriceSum(r) == 0
  {
    var c := Cart(ps);
    ClearEachPrefix(ps, |c|);
    assert c[..|c|] == c;
    var r := ClearEach(ps, c);
    CartMembership(ps);
    AllZeroIsEmptyCart(r);
  }

  /**
   * Unique ids are needed: with two entries sharing an id, the loop finds the
   * first entry twice and the second stays in the cart.
   */
  lemma ClearEachWithDuplicateIds()
    ensures var ps := [Product(1, "A", 100, 2), Product(1, "B", 100, 3)];
      ClearEach(ps, Cart(ps)) == [Product(1, "A", 100, 0), Product(1, "B", 100, 3)]
  {
    var ps := [Product(1, "A", 100, 2), Product(1, "B", 100, 3)];
    var c := Cart(ps);
    assert ps[1..][1..] == [];
    assert c == ps;
    assert c[..1] == [ps[0]] && c[..1][..0] == [];
    var r1 := Adjusted(ps, 1, -2);
    assert r1 == [Product(1, "A", 100, 0), Product(1, "B", 100, 3)];
    assert ClearEach(ps, c[..1]) == r1;
    assert Adjusted(r1, 1, -3) == r1;
  }

  /** The product list shared by the product grid and the cart screen. */
  class CatalogCart {
    var products: seq<Product>

    /** Ids are unique and every quantity is a non-negative Int. */
    ghost predicate Valid()
      reads this
    {
      UniqueIds(products) && QuantitiesInRange(products)
    }

    /** A fresh copy of the fixed catalog, every quantity at 0. */
    constructor ()
      ensures Valid() && products == CatalogSeed()
    {
      products := CatalogSeed();
      CatalogSeedIsValid();
    }

    /** `actualizarCantidad(id, delta)`: replace the first product with that id by a copy with the clamped quantity. */
    method AdjustQuantity(id: int, delta: int)
      requires Valid()
      modifies this
      ensures Valid()
      ensures SameListing(old(products), products)
      ensures products == Adjusted(old(products), id, delta)
    {
      AdjustedKeepsListing(products, id, delta);
      AdjustedKeepsRange(products, id, delta);
      var index := FirstIndex(products, id);
      if index >= 0 {
        products := products[index := products[index].(quantity := AtLeastZero(WrapInt32(products[index].quantity + delta)))];
      }
    }

    /** The badge count `productos.sumOf { it.cantidad }` over the whole catalog: the number of items in the cart. */
    function BadgeCount(): (n: int)
      reads this
      requires Valid()
      ensures n == QuantitySum(Cart(products))
      ensures n >= 0 && (n == 0 <==> Cart(products) == [])
    {
      QuantitySumOverCart(products);
      QuantitySum(products)
    }

    /** The cart screen's count `productosEnCarrito.sumOf { it.cantidad }`: the same number as the badge. */
    function CartItemCount(): (n: int)
      reads this
      requires Valid()
      ensures n == QuantitySum(products)
      ensures n >= 0
    {
      QuantitySumOverCart(products);
      QuantitySum(Cart(products))
    }

    /** `totalCarrito`, in cents: the same as the total over the whole catalog. */
    function CartTotal(): (cents: int)
      reads this
      requires Valid()
      ensures cents == PriceSum(products)
      ensures cents >= 0
    {
      PriceSumOverCart(products);
      PriceSum(Cart(products))
    }

    /** The badge on the cart icon: shown exactly when the cart is not empty. */
    function BadgeLabel(): (text: Option<string>)
      reads this
      requires Valid()
      ensures text.None? <==> Cart(products) == []
      ensures text.Some? ==> text == BadgeText(QuantitySum(Cart(products)))
    {
      BadgeText(BadgeCount())
    }

    /** "Vaciar Carrito": `actualizarCantidad(it.id, -it.cantidad)` for each product of a snapshot of the cart. */
    method EmptyCart()
      requires Valid()
      modifies this
      ensures Valid()
      ensures products == ClearEach(old(products), Cart(old(products)))
      ensures SameListing(old(products), products)
      ensures forall j :: 0 <= j < |products| ==> products[j].quantity == 0
      ensures Cart(products) == [] && QuantitySum(products) == 0 && PriceSum(products) == 0
    {
      var inCart := Cart(products);
      var i := 0;
      while i < |inCart|
        invariant 0 <= i <= |inCart|
        invariant Valid()
        invariant products == ClearEach(old(products), inCart[..i])
      {
        AdjustQuantity(inCart[i].id, -inCart[i].quantity);
        ClearEachSnoc(old(products), inCart, i);
        i := i + 1;
      }
      assert inCart[..i] == inCart;
      ClearEachEmptiesCart(old(products));
    }

    /** "Finalizar Compra": the same loop as emptying the cart, then back to the product grid. */
    method Checkout()
      requires Valid()
      modifies this
      ensures Valid()
      ensures products == ClearEach(old(products), Cart(old(products)))
      ensures SameListing(old(products), products)
      ensures forall j :: 0 <= j < |products| ==> products[j].quantity == 0
      ensures Cart(products) == [] && QuantitySum(products) == 0 && PriceSum(products) == 0
    {
      EmptyCart();
    }
  }
}
