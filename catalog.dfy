/**
 * The product catalog of the storefront and the pure views derived from it:
 * the lookup by id, the quantity update, the cart (products with a positive
 * quantity) and the two sums shown on screen (item count and money total).
 * Prices are integer cents; the app itself stores them as floating point.
 */
module Catalog {

  /** Bounds of Kotlin's 32-bit `Int`, the type of `cantidad` and of the increment. */
  const MinInt32: int := -0x8000_0000
  const MaxInt32: int := 0x7fff_ffff

  predicate IsInt32(x: int) {
    MinInt32 <= x <= MaxInt32
  }

  /** Kotlin `Int` arithmetic: the mathematical value brought into the Int range by whole turns of 2^32. */
  function WrapInt32(x: int): (r: int)
    ensures IsInt32(r)
    ensures IsInt32(x) ==> r == x
    decreases if x > MaxInt32 then x - MaxInt32 else if x < MinInt32 then MinInt32 - x else 0
  {
    if x > MaxInt32 then WrapInt32(x - 0x1_0000_0000)
    else if x < MinInt32 then WrapInt32(x + 0x1_0000_0000)
    else x
  }

  /** The wrapped value differs from the mathematical one by a whole number of 2^32 turns. */
  lemma {:induction false} WrapInt32IsModular(x: int)
    ensures (x - WrapInt32(x)) % 0x1_0000_0000 == 0
    decreases if x > MaxInt32 then x - MaxInt32 else if x < MinInt32 then MinInt32 - x else 0
  {
    if x > MaxInt32 {
      WrapInt32IsModular(x - 0x1_0000_0000);
    } else if x < MinInt32 {
      WrapInt32IsModular(x + 0x1_0000_0000);
    }
  }

  /** Kotlin `coerceAtLeast(0)`: the larger of `n` and zero. */
  function AtLeastZero(n: int): (r: int)
    ensures r >= 0 && r >= n
    ensures r == 0 || r == n
  {
    if n < 0 then 0 else n
  }

  /** A catalog entry (`Producto`); `price` is in cents, `quantity` is how many are in the cart. */
  datatype Product = Product(id: int, name: string, price: nat, quantity: int)

  /** The fixed catalog `listaProductos`, with every quantity at its default of 0. */
  function CatalogSeed(): seq<Product> {
    [ Product(1, "Arroz", 250, 0),
      Product(2, "Azúcar", 180, 0),
      Product(3, "Tomates", 120, 0),
      Product(4, "Papas", 230, 0),
      Product(5, "Aceite", 350, 0),
      Product(6, "Fideos", 110, 0),
      Product(7, "Leche", 140, 0),
      Product(8, "Pan", 90, 0),
      Product(9, "Huevos", 280, 0),
      Product(10, "Sal", 75, 0) ]
  }

  /** No two catalog entries share an id. */
  predicate UniqueIds(ps: seq<Product>) {
    forall i, j :: 0 <= i < j < |ps| ==> ps[i].id != ps[j].id
  }

  /** Every quantity is a non-negative Kotlin `Int`. */
  predicate QuantitiesInRange(ps: seq<Product>) {
    forall i :: 0 <= i < |ps| ==> 0 <= ps[i].quantity <= MaxInt32
  }

  /** `b` lists the same products as `a`, in the same order; only quantities may differ. */
  predicate SameListing(a: seq<Product>, b: seq<Product>) {
    |a| == |b| &&
    forall i :: 0 <= i < |a| ==> a[i].id == b[i].id && a[i].name == b[i].name && a[i].price == b[i].price
  }

  /** `indexOfFirst { it.id == id }`: the position of the first product with that id, or -1. */
  function FirstIndex(ps: seq<Product>, id: int): (k: int)
    ensures -1 <= k < |ps|
    ensures k >= 0 ==> ps[k].id == id
  {
    if |ps| == 0 then -1
    else if ps[0].id == id then 0
    else
      var k := FirstIndex(ps[1..], id);
      if k == -1 then -1 else k + 1
  }

  /**
   * The catalog after `actualizarCantidad(id, delta)`: the first product with
   * that id gets quantity `max(0, quantity + delta)` (the sum taken as a Kotlin
   * `Int`); an unknown id leaves the catalog as it was.
   */
  function Adjusted(ps: seq<Product>, id: int, delta: int): (r: seq<Product>)
    ensures |r| == |ps|
  {
    var k := FirstIndex(ps, id);
    if k < 0 then ps
    else ps[k := ps[k].(quantity := AtLeastZero(WrapInt32(ps[k].quantity + delta)))]
  }

  /** One press of a quantity button: `actualizarCantidad(id, delta)`. */
  datatype Update = Update(id: int, delta: int)

  /** The catalog after the updates `ops`, applied in order. */
  function ApplyUpdates(ps: seq<Product>, ops: seq<Update>): (r: seq<Product>)
    ensures |r| == |ps|
    decreases |ops|
  {
    if ops == [] then ps
    else ApplyUpdates(Adjusted(ps, ops[0].id, ops[0].delta), ops[1..])
  }

  /** Updates are applied front to back. */
  lemma ApplyUpdatesStep(ps: seq<Product>, op: Update, rest: seq<Update>)
    ensures ApplyUpdates(ps, [op] + rest) == ApplyUpdates(Adjusted(ps, op.id, op.delta), rest)
  {
    assert ([op] + rest)[1..] == rest;
  }

  /** The cart view `productos.filter { it.cantidad > 0 }`. */
  function Cart(ps: seq<Product>): seq<Product> {
    if ps == [] then []
    else (if ps[0].quantity > 0 then [ps[0]] else []) + Cart(ps[1..])
  }

  /** `sumOf { it.cantidad }` over `ps`. */
  function QuantitySum(ps: seq<Product>): int {
    if ps == [] then 0 else ps[0].quantity + QuantitySum(ps[1..])
  }

  /** `sumOf { it.precio * it.cantidad }` over `ps`, in cents. */
  function PriceSum(ps: seq<Product>): int {
    if ps == [] then 0 else ps[0].price * ps[0].quantity + PriceSum(ps[1..])
  }

  // ---------------------------------------------------------------------
  // The catalog seed

  /** The seed catalog has unique ids, valid quantities and an empty cart. */
  lemma CatalogSeedIsValid()
    ensures |CatalogSeed()| == 10
    ensures UniqueIds(CatalogSeed()) && QuantitiesInRange(CatalogSeed())
    ensures forall i :: 0 <= i < |CatalogSeed()| ==> CatalogSeed()[i].quantity == 0
  {
    CatalogSeedEntries();
    IdsByPositionAreUnique(CatalogSeed());
  }

  /** The cart starts out empty, so the badge is hidden and the totals are 0. */
  lemma CatalogSeedCartIsEmpty()
    ensures Cart(CatalogSeed()) == [] && QuantitySum(CatalogSeed()) == 0 && PriceSum(Cart(CatalogSeed())) == 0
  {
    CatalogSeedIsValid();
    AllZeroIsEmptyCart(CatalogSeed());
    QuantitySumOverCart(CatalogSeed());
  }

  /** Seed entry `i` has id `i + 1` and quantity 0. */
  lemma CatalogSeedEntries()
    ensures |CatalogSeed()| == 10
    ensures forall i :: 0 <= i < |CatalogSeed()| ==> CatalogSeed()[i].id == i + 1 && CatalogSeed()[i].quantity == 0
  {
  }

  lemma IdsByPositionAreUnique(ps: seq<Product>)
    requires forall i :: 0 <= i < |ps| ==> ps[i].id == i + 1
    ensures UniqueIds(ps)
  {
  }

  // ---------------------------------------------------------------------
  // The quantity update

  /** The lookup answers -1 exactly when no product has the id, and otherwise finds the first one that has it. */
  lemma {:induction false} FirstIndexIsFirst(ps: seq<Product>, id: int)
    ensures FirstIndex(ps, id) == -1 <==> forall j :: 0 <= j < |ps| ==> ps[j].id != id
    ensures FirstIndex(ps, id) >= 0 ==> forall j :: 0 <= j < FirstIndex(ps, id) ==> ps[j].id != id
  {
    if |ps| > 0 && ps[0].id != id {
      FirstIndexIsFirst(ps[1..], id);
      assert forall j :: 1 <= j < |ps| ==> ps[j] == ps[1..][j - 1];
    }
  }

  /** The first match is the only product with its id when ids are unique. */
  lemma FirstIndexOfUnique(ps: seq<Product>, j: int)
    requires UniqueIds(ps) && 0 <= j < |ps|
    ensures FirstIndex(ps, ps[j].id) == j
  {
    FirstIndexIsFirst(ps, ps[j].id);
  }

  /** The lookup depends on the ids alone. */
  lemma {:induction false} FirstIndexSameListing(a: seq<Product>, b: seq<Product>, id: int)
    requires SameListing(a, b)
    ensures FirstIndex(a, id) == FirstIndex(b, id)
  {
    if |a| > 0 && a[0].id != id {
      FirstIndexSameListing(a[1..], b[1..], id);
    }
  }

  /** An id that no product has leaves the catalog untouched. */
  lemma AdjustedUnknownId(ps: seq<Product>, id: int, delta: int)
    requires forall j :: 0 <= j < |ps| ==> ps[j].id != id
    ensures Adjusted(ps, id, delta) == ps
  {
  }

  /**
   * A known id: the first product with it gets the clamped quantity, which is
   * `max(0, quantity + delta)` when the sum fits in an Int; every other
   * product is unchanged.
   */
  lemma AdjustedFirstMatch(ps: seq<Product>, id: int, delta: int)
    requires FirstIndex(ps, id) >= 0
    ensures var k, r := FirstIndex(ps, id), Adjusted(ps, id, delta);
      |r| == |ps| &&
      r[k].id == id &&
      r[k].quantity == AtLeastZero(WrapInt32(ps[k].quantity + delta)) &&
      (IsInt32(ps[k].quantity + delta) ==> r[k].quantity == if ps[k].quantity + delta < 0 then 0 else ps[k].quantity + delta) &&
      forall j :: 0 <= j < |ps| && j != k ==> r[j] == ps[j]
  {
  }

  /** Only a quantity changes: ids, names, prices and order survive, and so does id uniqueness. */
  lemma AdjustedKeepsListing(ps: seq<Product>, id: int, delta: int)
    ensures SameListing(ps, Adjusted(ps, id, delta))
    ensures UniqueIds(ps) ==> UniqueIds(Adjusted(ps, id, delta))
  {
  }

  /** An update never makes a quantity negative or larger than an Int. */
  lemma AdjustedKeepsRange(ps: seq<Product>, id: int, delta: int)
    requires QuantitiesInRange(ps)
    ensures QuantitiesInRange(Adjusted(ps, id, delta))
  {
  }

  /** Any sequence of updates keeps quantities in range, the listing and the uniqueness of ids. */
  lemma {:induction false} ApplyUpdatesKeepsInvariants(ps: seq<Product>, ops: seq<Update>)
    requires QuantitiesInRange(ps)
    ensures QuantitiesInRange(ApplyUpdates(ps, ops))
    ensures SameListing(ps, ApplyUpdates(ps, ops))
    ensures UniqueIds(ps) ==> UniqueIds(ApplyUpdates(ps, ops))
    decreases |ops|
  {
    if ops != [] {
      var next := Adjusted(ps, ops[0].id, ops[0].delta);
      AdjustedKeepsRange(ps, ops[0].id, ops[0].delta);
      AdjustedKeepsListing(ps, ops[0].id, ops[0].delta);
      ApplyUpdatesKeepsInvariants(next, ops[1..]);
    }
  }

  /** Starting from the catalog copy, no sequence of updates makes a quantity negative. */
  lemma CatalogQuantitiesStayNonNegative(ops: seq<Update>)
    ensures var ps := ApplyUpdates(CatalogSeed(), ops);
      SameListing(CatalogSeed(), ps) && UniqueIds(ps) &&
      forall i :: 0 <= i < |ps| ==> ps[i].quantity >= 0
  {
    CatalogSeedIsValid();
    ApplyUpdatesKeepsInvariants(CatalogSeed(), ops);
  }

  /** Taking `delta` away again restores the catalog when the first update did not hit the floor. */
  lemma AdjustedUndo(ps: seq<Product>, id: int, delta: int)
    requires FirstIndex(ps, id) >= 0
    requires 0 <= ps[FirstIndex(ps, id)].quantity <= MaxInt32
    requires 0 <= ps[FirstIndex(ps, id)].quantity + delta <= MaxInt32
    ensures Adjusted(Adjusted(ps, id, delta), id, -delta) == ps
  {
    var k := FirstIndex(ps, id);
    var before, after := ps[k], ps[k].(quantity := ps[k].quantity + delta);
    var mid := ps[k := after];
    assert before.id == id && after.id == id;
    AdjustedWithinRange(ps, k, id, delta, after);
    assert mid[k] == after;
    AdjustedWithinRange(mid, k, id, -delta, before);
    RestoreEntry(ps, k, after);
  }

  /** Changing one quantity keeps the listing. */
  lemma QuantityChangeKeepsListing(ps: seq<Product>, k: int, q: int)
    requires 0 <= k < |ps|
    ensures SameListing(ps, ps[k := ps[k].(quantity := q)])
  {
  }

  /** Overwriting an entry and then putting the old one back gives the original sequence. */
  lemma RestoreEntry(ps: seq<Product>, k: int, p: Product)
    requires 0 <= k < |ps|
    ensures ps[k := p][k := ps[k]] == ps
  {
  }

  /** At the zero floor the round trip drifts: the quantity comes back as `-delta`, above where it was. */
  lemma AdjustedUndoAtFloor(ps: seq<Product>, id: int, delta: int)
    requires FirstIndex(ps, id) >= 0
    requires 0 <= ps[FirstIndex(ps, id)].quantity
    requires ps[FirstIndex(ps, id)].quantity + delta < 0 && -delta <= MaxInt32
    ensures var k := FirstIndex(ps, id);
      Adjusted(Adjusted(ps, id, delta), id, -delta)[k].quantity == -delta > ps[k].quantity
  {
    var mid := Adjusted(ps, id, delta);
    AdjustedKeepsListing(ps, id, delta);
    FirstIndexSameListing(ps, mid, id);
  }

  /** The Int sum wraps: one more press on a quantity of `Int.MAX_VALUE` empties that entry. */
  lemma AdjustedWrapsAtMaxInt(ps: seq<Product>, id: int)
    requires FirstIndex(ps, id) >= 0 && ps[FirstIndex(ps, id)].quantity == MaxInt32
    ensures Adjusted(ps, id, 1)[FirstIndex(ps, id)].quantity == 0
  {
    assert WrapInt32(MaxInt32 + 1) == MinInt32;
  }

  /** Three presses on "Tomates" (id 3, 1.20): quantity 3, the only entry in the cart, total 3.60. */
  lemma TomatoesExample()
    ensures var ps := ApplyUpdates(CatalogSeed(), [Update(3, 1), Update(3, 1), Update(3, 1)]);
      Cart(ps) == [Product(3, "Tomates", 120, 3)] && PriceSum(Cart(ps)) == 360
  {
    var ps := CatalogSeed();
    assert ps[2] == Product(3, "Tomates", 120, 0);
    assert FirstIndex(ps, 3) == 2;
    CatalogSeedIsValid();
    ThreePressesFillCart(ps, 2);
  }

  /** Three `+` presses on one entry of an empty cart make the cart that entry, three times over. */
  lemma ThreePressesFillCart(ps: seq<Product>, k: int)
    requires 0 <= k < |ps| && FirstIndex(ps, ps[k].id) == k
    requires forall i :: 0 <= i < |ps| ==> ps[i].quantity == 0
    ensures var r := ApplyUpdates(ps, [Update(ps[k].id, 1), Update(ps[k].id, 1), Update(ps[k].id, 1)]);
      Cart(r) == [ps[k].(quantity := 3)] && PriceSum(Cart(r)) == ps[k].price * 3
  {
    ThreePresses(ps, k);
    SingleEntryCart(ps[k := ps[k].(quantity := 3)], k);
  }

  /** Three `+` presses on an entry at zero bring it to three and touch nothing else. */
  lemma ThreePresses(ps: seq<Product>, k: int)
    requires 0 <= k < |ps| && FirstIndex(ps, ps[k].id) == k && ps[k].quantity == 0
    ensures ApplyUpdates(ps, [Update(ps[k].id, 1), Update(ps[k].id, 1), Update(ps[k].id, 1)])
      == ps[k := ps[k].(quantity := 3)]
  {
    var id := ps[k].id;
    var ops := [Update(id, 1), Update(id, 1), Update(id, 1)];
    AdjustedWithinRange(ps, k, id, 1, ps[k].(quantity := 1));
    var ps1 := ps[k := ps[k].(quantity := 1)];
    AdjustedWithinRange(ps1, k, id, 1, ps[k].(quantity := 2));
    var ps2 := ps[k := ps[k].(quantity := 2)];
    assert ps1[k := ps1[k].(quantity := 2)] == ps2;
    AdjustedWithinRange(ps2, k, id, 1, ps[k].(quantity := 3));
    var ps3 := ps[k := ps[k].(quantity := 3)];
    assert ps2[k := ps2[k].(quantity := 3)] == ps3;
    var u := Update(id, 1);
    assert ops == [u] + ([u] + [u]);
    assert ps1[k].id == id && ps2[k].id == id;
    assert ApplyUpdates(ps3, []) == ps3;
    ApplyUpdatesStep(ps2, u, []);
    assert [u] + [] == [u];
    assert ApplyUpdates(ps2, [u]) == ps3;
    ApplyUpdatesStep(ps1, u, [u]);
    assert ApplyUpdates(ps1, [u] + [u]) == ps3;
    ApplyUpdatesStep(ps, u, [u] + [u]);
    assert ApplyUpdates(ps, ops) == ps3;
  }

  /** When one entry alone has a positive quantity, the cart is that entry and the total is its subtotal. */
  lemma {:induction false} SingleEntryCart(ps: seq<Product>, k: int)
    requires 0 <= k < |ps| && ps[k].quantity > 0
    requires forall i :: 0 <= i < |ps| && i != k ==> ps[i].quantity == 0
    ensures Cart(ps) == [ps[k]] && PriceSum(Cart(ps)) == ps[k].price * ps[k].quantity
  {
    var tail := ps[1..];
    assert forall i :: 0 <= i < |tail| ==> tail[i] == ps[i + 1];
    if k == 0 {
      AllZeroIsEmptyCart(tail);
      assert Cart(ps) == [ps[0]] + Cart(tail);
    } else {
      SingleEntryCart(tail, k - 1);
      assert Cart(ps) == Cart(tail);
    }
    PriceSumOfOne(ps[k]);
  }

  lemma PriceSumOfOne(p: Product)
    ensures PriceSum([p]) == p.price * p.quantity
  {
    assert [p][1..] == [];
  }

  /**
   * An update whose result stays within 0..Int.MAX_VALUE is plain addition at
   * the first match, and the entry stays the first match for its id.
   */
  lemma AdjustedWithinRange(ps: seq<Product>, k: int, id: int, delta: int, p: Product)
    requires 0 <= k < |ps| && ps[k].id == id && FirstIndex(ps, id) == k
    requires 0 <= ps[k].quantity + delta <= MaxInt32
    requires p == ps[k].(quantity := ps[k].quantity + delta)
    ensures Adjusted(ps, id, delta) == ps[k := p]
    ensures FirstIndex(ps[k := p], id) == k
  {
    var q := ps[k].quantity + delta;
    assert IsInt32(q);
    assert AtLeastZero(WrapInt32(q)) == q;
    QuantityChangeKeepsListing(ps, k, q);
    FirstIndexSameListing(ps, ps[k := p], id);
  }

  // ---------------------------------------------------------------------
  // The cart view and the sums

  /** The cart holds exactly the products with a positive quantity. */
  lemma {:induction false} CartMembership(ps: seq<Product>)
    ensures |Cart(ps)| <= |ps|
    ensures forall p :: p in Cart(ps) <==> p in ps && p.quantity > 0
  {
    if ps != [] {
      CartMembership(ps[1..]);
      assert ps == [ps[0]] + ps[1..];
    }
  }

  /** The filter keeps catalog order: filtering a concatenation filters each part in turn. */
  lemma {:induction false} CartOfConcat(a: seq<Product>, b: seq<Product>)
    ensures Cart(a + b) == Cart(a) + Cart(b)
  {
    if a == [] {
      assert a + b == b;
    } else {
      assert (a + b)[1..] == a[1..] + b;
      CartOfConcat(a[1..], b);
    }
  }

  /** The cart of unique products has unique ids. */
  lemma {:induction false} CartUniqueIds(ps: seq<Product>)
    requires UniqueIds(ps)
    ensures UniqueIds(Cart(ps))
  {
    if ps != [] {
      CartUniqueIds(ps[1..]);
      CartMembership(ps[1..]);
      var rest := Cart(ps[1..]);
      forall q | q in rest
        ensures q.id != ps[0].id
      {
        var j :| 0 <= j < |ps[1..]| && ps[1..][j] == q;
        assert ps[j + 1] == q;
      }
    }
  }

  /** Counting items over the whole catalog (the badge) or over the cart gives the same number. */
  lemma {:induction false} QuantitySumOverCart(ps: seq<Product>)
    requires QuantitiesInRange(ps)
    ensures QuantitySum(Cart(ps)) == QuantitySum(ps)
    ensures QuantitySum(ps) >= 0
    ensures QuantitySum(ps) == 0 <==> Cart(ps) == []
  {
    if ps != [] {
      QuantitySumOverCart(ps[1..]);
      var rest := Cart(ps[1..]);
      if ps[0].quantity > 0 {
        assert Cart(ps) == [ps[0]] + rest;
        assert ([ps[0]] + rest)[1..] == rest;
      } else {
        assert Cart(ps) == rest;
      }
    }
  }

  /** The money total over the cart equals the one over the whole catalog: empty entries add nothing. */
  lemma {:induction false} PriceSumOverCart(ps: seq<Product>)
    requires QuantitiesInRange(ps)
    ensures PriceSum(Cart(ps)) == PriceSum(ps)
    ensures PriceSum(ps) >= 0
  {
    if ps != [] {
      PriceSumOverCart(ps[1..]);
      var rest := Cart(ps[1..]);
      if ps[0].quantity > 0 {
        assert Cart(ps) == [ps[0]] + rest;
        assert ([ps[0]] + rest)[1..] == rest;
      } else {
        assert Cart(ps) == rest;
      }
    }
  }

  /** With every quantity at zero the cart is empty and both sums are zero. */
  lemma {:induction false} AllZeroIsEmptyCart(ps: seq<Product>)
    requires forall i :: 0 <= i < |ps| ==> ps[i].quantity == 0
    ensures Cart(ps) == [] && QuantitySum(ps) == 0 && PriceSum(ps) == 0
  {
    if ps != [] {
      AllZeroIsEmptyCart(ps[1..]);
    }
  }
}
