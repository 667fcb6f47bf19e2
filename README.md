# Tarea storefront: catalog, cart and accounts in Dafny

The app is a small Android storefront, written in Kotlin with Jetpack Compose.
Its state lives in two in-memory lists:

- **The product list.** `productosConCantidad` is a fresh copy of the fixed ten-product catalog, each entry with a quantity that starts at 0. The product grid and the cart screen both read it, and both change it through a single update function, `actualizarCantidad(id, incremento)`. That function replaces the first product with the id by a copy whose quantity is `(cantidad + incremento).coerceAtLeast(0)` in Kotlin `Int` arithmetic.
  - The cart is the products with a positive quantity, in catalog order.
  - The badge on the cart icon and the cart screen's item count both sum quantities.
  - The cart total sums price times quantity.
  - "Vaciar Carrito" and "Finalizar Compra" walk a snapshot of the cart and subtract each entry's quantity.
- **The account list.** `usuariosRegistrados` starts with two accounts.
  - Login looks for an account whose name and password both match.
  - Registration checks, in this order: empty fields, then the password confirmation, then whether the name is taken. It appends the account only when all three checks pass.

The Dafny project, module by module:

| file | module | contents |
|---|---|---|
| `wrappers.dfy` | `Wrappers` | `Option` |
| `catalog.dfy` | `Catalog` | `Product`, the seed, 32-bit `Int` wrap-around and `coerceAtLeast(0)`; the update `Adjusted`, the cart filter `Cart` and the sums `QuantitySum` and `PriceSum` as functions; lemmas about them |
| `badge.dfy` | `Badge` | the badge text, with decimal rendering and its inverse |
| `cart_store.dfy` | `CartStore` | the class `CatalogCart`, which holds the product list as a `seq`. `AdjustQuantity` changes it in place, and `EmptyCart`/`Checkout` are the `forEach` loops, proved against the fold `ClearEach` |
| `users.dfy` | `Users` | `Account`, the login lookup, the registration cascade, and the class `UserDirectory` with `Login` and `Register` |

Prices are whole cents (`Arroz` 2.50 is `250`).

Two details of the code are easy to miss, and the model follows the code in both:

- The quantity update adds in 32-bit `Int`, which wraps, before it clamps at zero. So `Int.MAX_VALUE + 1` gives 0, not a larger quantity, and the update is `max(0, cantidad + incremento)` only while the sum fits in an `Int`. `WrapInt32` models this.
- The registration checks run in a fixed order: empty field → mismatch → taken name (MainActivity.kt:285-298). A taken name with a mismatched confirmation is therefore reported as a mismatch.

## Model

All source paths refer to `app/src/main/java/com/example/tarea/MainActivity.kt`.

| member | source | states |
|---|---|---|
| Catalog.WrapInt32 | app/src/main/java/com/example/tarea/MainActivity.kt:119 | the `Int` sum `cantidad + incremento` is always in the 32-bit range and equals the mathematical sum whenever that fits |
| Catalog.WrapInt32IsModular | app/src/main/java/com/example/tarea/MainActivity.kt:119 | the wrapped sum differs from the mathematical one by a multiple of 2^32 |
| Catalog.AtLeastZero | app/src/main/java/com/example/tarea/MainActivity.kt:119 | `coerceAtLeast(0)` is never negative, never below its argument, and is either 0 or the argument |
| Catalog.FirstIndex | app/src/main/java/com/example/tarea/MainActivity.kt:116 | `indexOfFirst` gives -1 or a valid index whose product has the id |
| Catalog.FirstIndexIsFirst | app/src/main/java/com/example/tarea/MainActivity.kt:116 | -1 exactly when no product has the id; otherwise no earlier product has it |
| Catalog.FirstIndexOfUnique | app/src/main/java/com/example/tarea/MainActivity.kt:116 | with unique ids the lookup of entry j's id finds j |
| Catalog.FirstIndexSameListing | app/src/main/java/com/example/tarea/MainActivity.kt:116 | the lookup depends only on the ids, so changing quantities does not move it |
| Catalog.Adjusted | app/src/main/java/com/example/tarea/MainActivity.kt:115-122 | `actualizarCantidad` as a function of the list: its contract keeps the length, and `AdjustedUnknownId`, `AdjustedFirstMatch`, `AdjustedKeepsListing` and `AdjustedKeepsRange` state what it does |
| Catalog.AdjustedUnknownId | app/src/main/java/com/example/tarea/MainActivity.kt:116-117 | an id no product has leaves the list unchanged |
| Catalog.AdjustedFirstMatch | app/src/main/java/com/example/tarea/MainActivity.kt:115-122 | for a known id only the first match changes: it keeps its id and gets the clamped wrapped sum, which is `max(0, cantidad + incremento)` when the sum fits in an `Int`; every other entry is untouched and the length is kept |
| Catalog.AdjustedKeepsListing | app/src/main/java/com/example/tarea/MainActivity.kt:118-120 | `copy(cantidad = …)` keeps length, order, ids, names and prices, and keeps ids unique |
| Catalog.AdjustedKeepsRange | app/src/main/java/com/example/tarea/MainActivity.kt:119 | an update keeps every quantity in 0..`Int.MAX_VALUE` |
| Catalog.QuantityChangeKeepsListing | app/src/main/java/com/example/tarea/MainActivity.kt:118-120 | replacing one entry's quantity keeps the listing |
| Catalog.AdjustedWithinRange | app/src/main/java/com/example/tarea/MainActivity.kt:115-122 | when the new quantity is in 0..`Int.MAX_VALUE` the update is plain addition at the first match, and that entry is still the first match afterwards |
| Catalog.ApplyUpdates | app/src/main/java/com/example/tarea/MainActivity.kt:376-383 | a run of `+`/`-` presses, each an `actualizarCantidad` call, applied in order; its contract keeps the length, and `ApplyUpdatesKeepsInvariants` states the rest |
| Catalog.ApplyUpdatesStep | app/src/main/java/com/example/tarea/MainActivity.kt:115-122 | a run of button presses applies the first update before the rest |
| Catalog.ApplyUpdatesKeepsInvariants | app/src/main/java/com/example/tarea/MainActivity.kt:115-122 | any run of updates keeps quantities in range, the listing, and id uniqueness |
| Catalog.CatalogQuantitiesStayNonNegative | app/src/main/java/com/example/tarea/MainActivity.kt:108-122 | from the catalog copy, no run of updates makes a quantity negative, changes the listing or breaks id uniqueness |
| Catalog.AdjustedUndo | app/src/main/java/com/example/tarea/MainActivity.kt:115-122 | adding `delta` and then `-delta` restores the list when the first step stays in 0..`Int.MAX_VALUE` |
| Catalog.AdjustedUndoAtFloor | app/src/main/java/com/example/tarea/MainActivity.kt:119 | when the first step is clamped at 0, the round trip leaves quantity `-delta`, above the original: the clamp loses information |
| Catalog.AdjustedWrapsAtMaxInt | app/src/main/java/com/example/tarea/MainActivity.kt:119 | one more `+` on a quantity of `Int.MAX_VALUE` wraps to a negative sum, which the clamp turns into 0 |
| Catalog.CatalogSeed | app/src/main/java/com/example/tarea/MainActivity.kt:89-100 | the ten catalog entries with their ids, names and prices in cents; `CatalogSeedIsValid` and `CatalogSeedEntries` state its properties |
| Catalog.CatalogSeedIsValid | app/src/main/java/com/example/tarea/MainActivity.kt:89-100 | the catalog has ten products with unique ids and every quantity 0 (the default at line 80) |
| Catalog.CatalogSeedEntries | app/src/main/java/com/example/tarea/MainActivity.kt:89-100 | entry i has id i + 1 and quantity 0 |
| Catalog.IdsByPositionAreUnique | app/src/main/java/com/example/tarea/MainActivity.kt:89-100 | ids numbered by position are unique |
| Catalog.CatalogSeedCartIsEmpty | app/src/main/java/com/example/tarea/MainActivity.kt:108-112 | the fresh copy has an empty cart, item count 0 and total 0 |
| Catalog.Cart | app/src/main/java/com/example/tarea/MainActivity.kt:490 | the filter `cantidad > 0`, in catalog order; `CartMembership`, `CartOfConcat` and `CartUniqueIds` state its properties |
| Catalog.QuantitySum | app/src/main/java/com/example/tarea/MainActivity.kt:325 | `sumOf { it.cantidad }`, used for the badge (line 325) and the cart screen (line 609); `QuantitySumOverCart` states its properties |
| Catalog.PriceSum | app/src/main/java/com/example/tarea/MainActivity.kt:491 | `sumOf { it.precio * it.cantidad }` in cents; `PriceSumOverCart` and `PriceSumOfOne` state its properties |
| Catalog.CartMembership | app/src/main/java/com/example/tarea/MainActivity.kt:490 | a product is in the cart exactly when it is in the list with a positive quantity; the cart is no longer than the list |
| Catalog.CartOfConcat | app/src/main/java/com/example/tarea/MainActivity.kt:490 | the filter keeps catalog order: the cart of a concatenation is the concatenation of the carts |
| Catalog.CartUniqueIds | app/src/main/java/com/example/tarea/MainActivity.kt:490 | the cart of a list with unique ids has unique ids |
| Catalog.QuantitySumOverCart | app/src/main/java/com/example/tarea/MainActivity.kt:609 | the cart screen's count over the cart equals the badge count over all products (line 325); it is non-negative and 0 exactly when the cart is empty |
| Catalog.PriceSumOverCart | app/src/main/java/com/example/tarea/MainActivity.kt:491 | the total over the cart equals the total over all products and is non-negative |
| Catalog.AllZeroIsEmptyCart | app/src/main/java/com/example/tarea/MainActivity.kt:490-491 | with every quantity 0 the cart is empty and both sums are 0 |
| Catalog.SingleEntryCart | app/src/main/java/com/example/tarea/MainActivity.kt:490-491 | with one positive quantity the cart is that one product and the total is its price times its quantity |
| Catalog.PriceSumOfOne | app/src/main/java/com/example/tarea/MainActivity.kt:491 | the total of a one-product cart is price times quantity |
| Catalog.ThreePresses | app/src/main/java/com/example/tarea/MainActivity.kt:376-379 | three `+` presses on an entry at 0 that is the first with its id set it to 3 and change nothing else |
| Catalog.ThreePressesFillCart | app/src/main/java/com/example/tarea/MainActivity.kt:490-491 | after those presses on an otherwise empty list, the cart is that entry with quantity 3 and the total is three times its price |
| Catalog.TomatoesExample | app/src/main/java/com/example/tarea/MainActivity.kt:92 | three presses on "Tomates" in the fresh catalog: the cart is Tomates × 3 and the total is 360 cents |
| Badge.DigitChar | app/src/main/java/com/example/tarea/MainActivity.kt:349 | a digit value below 10 becomes the matching decimal character |
| Badge.Decimal | app/src/main/java/com/example/tarea/MainActivity.kt:349 | `toString` of a non-negative count is decimal digits with no leading zero, one digit below 10 and two for 10..99 |
| Badge.DecimalRoundTrip | app/src/main/java/com/example/tarea/MainActivity.kt:349 | reading the rendered digits back gives the count |
| Badge.BadgeText | app/src/main/java/com/example/tarea/MainActivity.kt:342-351 | not shown exactly when the count is ≤ 0; "99+" above 99; otherwise one or two digits with no leading zero that read back as the count, which is the decimal `toString` |
| CartStore.ClearStep | app/src/main/java/com/example/tarea/MainActivity.kt:649 | one loop turn, subtracting a product's own quantity, zeroes exactly that product if its id is new, and keeps the listing |
| CartStore.ClearEach | app/src/main/java/com/example/tarea/MainActivity.kt:649 | the `forEach` loop of "Vaciar Carrito" and "Finalizar Compra" (line 660) as a fold of `actualizarCantidad(it.id, -it.cantidad)` over the snapshot; its contract keeps the length, and `ClearEachPrefix`, `ClearEachEmptiesCart` and `ClearEachWithDuplicateIds` state what it does |
| CartStore.ClearEachSnoc | app/src/main/java/com/example/tarea/MainActivity.kt:649 | the fold over one more snapshot entry is one more update |
| CartStore.NextIdIsNew | app/src/main/java/com/example/tarea/MainActivity.kt:649 | with unique ids each snapshot entry brings an id not handled yet |
| CartStore.ClearEachPrefix | app/src/main/java/com/example/tarea/MainActivity.kt:649 | after the first i snapshot entries, exactly the products with those ids are 0 and the rest keep their quantities |
| CartStore.ClearEachEmptiesCart | app/src/main/java/com/example/tarea/MainActivity.kt:649 | with unique ids the whole loop zeroes every quantity and keeps the listing; the cart is empty and both sums are 0 |
| CartStore.ClearEachWithDuplicateIds | app/src/main/java/com/example/tarea/MainActivity.kt:116 | unique ids are needed: with two entries sharing an id, the loop hits the first one twice and the second stays in the cart |
| CartStore.CatalogCart.constructor | app/src/main/java/com/example/tarea/MainActivity.kt:108-112 | the store starts as the catalog copy and satisfies the invariant (unique ids, quantities in range) |
| CartStore.CatalogCart.AdjustQuantity | app/src/main/java/com/example/tarea/MainActivity.kt:115-122 | the new list is `Adjusted(old, id, delta)`; the listing and the invariant are kept |
| CartStore.CatalogCart.BadgeCount | app/src/main/java/com/example/tarea/MainActivity.kt:324-326 | the badge sum over all products equals the item count of the cart; it is non-negative and 0 exactly when the cart is empty |
| CartStore.CatalogCart.CartItemCount | app/src/main/java/com/example/tarea/MainActivity.kt:609 | the cart screen's count equals the sum over the whole list and is non-negative |
| CartStore.CatalogCart.CartTotal | app/src/main/java/com/example/tarea/MainActivity.kt:491 | the cart total equals the price-times-quantity sum over the whole list and is non-negative |
| CartStore.CatalogCart.BadgeLabel | app/src/main/java/com/example/tarea/MainActivity.kt:342-351 | the badge is hidden exactly when the cart is empty, and otherwise shows the text for the cart's item count |
| CartStore.CatalogCart.EmptyCart | app/src/main/java/com/example/tarea/MainActivity.kt:647-650 | the loop over the cart snapshot gives `ClearEach(old, Cart(old))`: every quantity 0, listing kept, cart empty, count and total 0 |
| CartStore.CatalogCart.Checkout | app/src/main/java/com/example/tarea/MainActivity.kt:657-662 | the same end state as emptying the cart |
| Users.FindAccount | app/src/main/java/com/example/tarea/MainActivity.kt:198-200 | finds an account exactly when some entry has both the name and the password, and it is that account |
| Users.CheckRegistration | app/src/main/java/com/example/tarea/MainActivity.kt:285-295 | each outcome holds exactly when its guard does and every earlier one fails: empty field, then mismatch, then taken name, otherwise accepted |
| Users.HasEmptyField | app/src/main/java/com/example/tarea/MainActivity.kt:286 | the first guard of the cascade: some field is empty; `CheckRegistration` states its place in the order |
| Users.UsernameTaken | app/src/main/java/com/example/tarea/MainActivity.kt:292 | `any { it.usuario == usuario }`: some account has the name; `CheckRegistration` and `SecondRegistrationRefused` use it |
| Users.SeedAccounts | app/src/main/java/com/example/tarea/MainActivity.kt:83-86 | the two accounts present at startup; `SeedAccountsBehave` states its properties |
| Users.SeedAccountsBehave | app/src/main/java/com/example/tarea/MainActivity.kt:83-86 | the seed has unique names; admin/admin123 logs in and a wrong password does not |
| Users.RegistrationKeepsUniqueness | app/src/main/java/com/example/tarea/MainActivity.kt:292-296 | appending an accepted account keeps names unique |
| Users.RegistrationThenLogin | app/src/main/java/com/example/tarea/MainActivity.kt:296 | after an accepted registration the new account logs in, and every account that logged in before still does |
| Users.SecondRegistrationRefused | app/src/main/java/com/example/tarea/MainActivity.kt:292-294 | registering a taken name again with a non-empty password and a matching confirmation is refused with "already exists", whatever that password is, and the first account still logs in (an empty field or a mismatch would be reported first) |
| Users.UserDirectory.constructor | app/src/main/java/com/example/tarea/MainActivity.kt:83-86 | the directory starts as the two seeded accounts, with unique names |
| Users.UserDirectory.Login | app/src/main/java/com/example/tarea/MainActivity.kt:198-202 | login succeeds exactly when the account (name, password) is in the directory |
| Users.UserDirectory.Register | app/src/main/java/com/example/tarea/MainActivity.kt:285-298 | returns the cascade's verdict; appends exactly the new account when it is accepted and leaves the list unchanged otherwise; names stay unique |

## Left out

- Compose layout, images (`painterResource`, the `imagen` field), the cart icon, the `@Preview` functions (lines 673-724) and the theme: presentation only.
- Navigation (`navController.navigate`, lines 203, 297, 661): framework wiring; `Checkout` models only the state change of "Finalizar Compra".
- Reactive state (`mutableStateListOf`, `remember`, `derivedStateOf`): the views are functions recomputed on every read.
- Double prices and the `"%.2f"` total text (line 633): prices are whole cents, so there is no floating-point rounding.
- The plural "producto"/"productos" wording (line 611) and the error message strings: errors are the `RegistrationError` values, and the login failure message (line 205) is the `false` result of `Login`.
- The decrement guard `if (producto.cantidad > 0)` (line 381) and the buttons' `enabled` flags: the clamp in `actualizarCantidad` already keeps quantities at or above 0, so they change no state the model tracks.
- Plaintext password storage: passwords are compared as plain strings, as in the app.
- CartStore.CatalogCart.BadgeCount: `sumOf` over `Int` wraps at 32 bits in the app; the model sums without wrap-around, since the quantities needed to overflow are far beyond any real cart.
- CartStore.CatalogCart.CartItemCount: same unbounded-sum simplification as the badge count.
- CartStore.CatalogCart.BadgeLabel: "hidden exactly when the cart is empty" rests on the same unbounded sum; in the app a wrapped `sumOf` could hide the badge of a non-empty cart.
- CartStore.CatalogCart.CartTotal: the app sums `Double`s; the model sums exact cents.
- CartStore.CatalogCart.EmptyCart: the end state "every quantity 0" is proved for the store's invariant of unique ids, which the catalog seed guarantees; `ClearEachWithDuplicateIds` shows the loop leaves the cart non-empty without it.
