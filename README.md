# Clothing store ordering system: cart, checkout and catalogue model

This project models the ordering core of a Laravel clothing storefront in
Dafny and proves properties of that model.

**The session cart.** The cart is an insertion-ordered map from a
(product, size, colour) key to a snapshot line (name, price, image, size,
colour, quantity). It is modelled as the class `CartController.Cart`:

- its key order is a `seq<Key>`;
- its lines are a `map<Key, Line>`;
- its invariant `CartSpec.WellFormed` says each key is listed once, each line sits under its own key, and no quantity is below one.

The cart actions are methods on this class. Each is proved against pure functions in `CartSpec`:

- `Add` either raises an existing line's quantity or appends a new snapshot line;
- `Update` overwrites one line's quantity after a stock check;
- `Remove` unsets one key;
- `Index` lists the lines in order with their subtotal;
- `Checkout` runs in three stages:
  - it resolves its target keys;
  - it runs an all-or-nothing stock pre-flight;
  - its commit loop creates one pending order per target line, decrements that product's stock and unsets the line.

**The database.** The products table and the append-only orders table are the class
`Database.Tables`. A product's stock is an `int`, so the model can show it
going negative. The single-item "buy now" order
(`OrderController.Store`) validates the request, checks the one product's
stock, appends one pending order carrying the caller's total, and decrements
the stock. The cart badge count (`AppServiceProvider.CartCount`) is a loop
proved equal to the recursive unit count `CartSpec.Count`.

**The catalogue.** Its predicates and queries are pure functions:

- the low-stock and out-of-stock flags;
- the brand, category and search scopes, where a falsy argument keeps every row and a search is a substring match on name, description, brand or category;
- the conjunctive `index` listing, proved independent of the order of its scopes;
- the distinct, strictly sorted brand and category lists;
- at most four related products.

The product create, overwrite and delete actions are methods on `Database.Tables`.

**Stock floor and its gap.** The checkout pre-flight tests each target line
on its own against its product's stock. The commit then takes every line's
quantity. If two target lines are variants of the same product, both can
pass while together they exceed the stock. The model keeps this behaviour:

- `CartSpec.CheckoutStockFloor` proves that no stock goes negative only when the target lines name distinct products;
- `CartSpec.PreflightAdmitsOversell` exhibits a cart whose commit leaves a stock of -1: one unit in stock, and one unit each of sizes S and L.

`Add` likewise checks only the newly added quantity, not the combined line.

Money is integer cents. The cart key is a tuple rather than the joined
string `product_id|size|color`. Session storage, the authenticated user id
and the request are parameters of the methods.

## Model

| member | source | states |
|---|---|---|
| Models.ParsePaymentMethod | app/Http/Controllers/OrderController.php:15 | accepts exactly the names credit_card, e_wallet and cod, and a parsed method prints back as the string given |
| Models.MakeOrder | app/Http/Controllers/CartController.php:161-173 | an order is recorded with status pending and the given quantity, total and payment method name |
| Database.Tables.DecrementStock | app/Http/Controllers/OrderController.php:51 | only the one product's stock falls by the amount; every other row, the orders and the id counter stay as they were |
| Database.Tables.CreateOrder | app/Http/Controllers/CartController.php:161-173 | appends exactly one order and changes no product |
| CartSpec.Without | app/Http/Controllers/CartController.php:180 | unsetting keys keeps exactly the keys not removed, and a duplicate-free key order stays duplicate-free |
| CartSpec.WithoutWithout | app/Http/Controllers/CartController.php:180 | unsetting one set of keys and then another is unsetting their union |
| CartSpec.AddToLine | app/Http/Controllers/CartController.php:37-38 | adding q >= 1 units to an existing line keeps the cart well formed and raises the unit count by exactly q |
| CartSpec.AddNewLine | app/Http/Controllers/CartController.php:39-48 | appending a line under a new key keeps the cart well formed and raises the unit count by its quantity |
| CartSpec.SetLineQuantity | app/Http/Controllers/CartController.php:97 | overwriting one quantity keeps the cart well formed and moves the unit count by the difference |
| CartSpec.RemoveLine | app/Http/Controllers/CartController.php:111-112 | unsetting one key keeps the cart well formed and lowers the unit count by that line's quantity |
| CartSpec.CountAtLeastLines | app/Providers/AppServiceProvider.php:29-31 | with every quantity at least one, the unit count is at least the number of lines, hence never negative |
| CartSpec.SubtotalNonNegative | app/Http/Controllers/CartController.php:67-69 | the subtotal of a well-formed cart is never negative |
| CartSpec.Targets | app/Http/Controllers/CartController.php:140-145 | the selected lines are exactly the requested keys present in the cart, each once |
| CartSpec.TargetsOfWholeCart | app/Http/Controllers/CartController.php:138 | with no keys supplied, checkout targets every cart line in cart order |
| CartSpec.Debit | app/Http/Controllers/CartController.php:175-177 | decrementing stock never adds or removes a product row |
| CartSpec.DebitStock | app/Http/Controllers/CartController.php:175-177 | after the commit each product's stock has fallen by exactly the units its target lines take, and nothing else about it changed |
| CartSpec.DemandOfDistinctProducts | app/Http/Controllers/CartController.php:152-157 | when target lines name distinct products, a product's demand is zero or one line's quantity |
| CartSpec.CheckoutStockFloor | app/Http/Controllers/CartController.php:152-177 | when the pre-flight passed, stocks were non-negative and the target lines name distinct products, no stock is negative after the commit |
| CartSpec.PreflightAdmitsOversell | app/Http/Controllers/CartController.php:152-177 | there is a well-formed cart that passes the pre-flight yet drives a product's stock to -1 |
| CartSpec.OrdersFor | app/Http/Controllers/CartController.php:160-173 | checkout creates exactly one order per target line |
| CartSpec.OrdersForAt | app/Http/Controllers/CartController.php:161-173 | the i-th order is the i-th target line's: pending, same product, size, colour and quantity, total price times quantity, and the submitted payment and delivery details |
| CartSpec.OrderedUnitsOfTargets | app/Http/Controllers/CartController.php:171 | the units ordered equal the units on the target lines |
| CartSpec.CheckoutConservesUnits | app/Http/Controllers/CartController.php:159-184 | units left in the cart plus units ordered equal the units the cart held before |
| CartSpec.SumByWithoutAll | app/Http/Controllers/CartController.php:180 | unsetting distinct target keys lowers the unit count by their units |
| CartSpec.RemainderWellFormed | app/Http/Controllers/CartController.php:180-184 | the cart stored back after checkout is still well formed |
| CartSpec.CheckoutCommitted | app/Http/Controllers/CartController.php:159-184 | after the commit the remaining cart is well formed, units are conserved, and the distinct-products stock floor holds |
| CartController.Cart.constructor | app/Http/Controllers/CartController.php:32 | a missing session cart is the empty cart |
| CartController.Cart.Add | app/Http/Controllers/CartController.php:17-54 | validation and stock failures are reported exactly when their conditions hold and change nothing; an existing variant gains the quantity; a new variant is appended as a snapshot of the product; the unit count rises by the quantity |
| CartController.Cart.Index | app/Http/Controllers/CartController.php:56-75 | returns every line once, in cart order, tagged with its key, and the subtotal of price times quantity, which is non-negative |
| CartController.Cart.Update | app/Http/Controllers/CartController.php:77-101 | a bad quantity, a missing line, a missing product or short stock are each reported exactly when they occur and change nothing; otherwise only that line's quantity changes |
| CartController.Cart.Remove | app/Http/Controllers/CartController.php:103-117 | a missing key changes nothing; otherwise exactly that line leaves, the other keys keep their order, and the unit count falls by its quantity |
| CartController.Cart.Checkout | app/Http/Controllers/CartController.php:119-187 | the outcome follows the controller's checks in order; every failure changes nothing; success appends the target lines' orders, debits their stock, unsets exactly those lines, conserves units, and keeps stock non-negative when target products are distinct |
| CartController.Cart.Place | app/Http/Controllers/CartController.php:159-184 | the commit phase's whole effect on orders, stock and cart, with conservation and the distinct-products stock floor |
| CartController.Commit | app/Http/Controllers/CartController.php:160-181 | the commit loop appends the orders of all target lines, debits their stock and unsets their keys |
| CartController.CommitLine | app/Http/Controllers/CartController.php:161-180 | one commit step creates the line's order, decrements its product by its quantity and unsets its key |
| CartController.SelectTargets | app/Http/Controllers/CartController.php:140-145 | the selection loop yields the requested keys present in the cart, each once, in first-request order |
| CartController.StockCheck | app/Http/Controllers/CartController.php:151-157 | the pre-flight loop succeeds exactly when every target line's product exists with at least the line's quantity |
| AppServiceProvider.CartCount | app/Providers/AppServiceProvider.php:26-33 | the badge count is the sum of the line quantities, at least the number of lines, and zero for an empty cart |
| OrderController.RequestedOrder | app/Http/Controllers/OrderController.php:36-48 | the order is pending and carries the request's product, size, colour, quantity and caller-supplied total |
| OrderController.Store | app/Http/Controllers/OrderController.php:12-55 | invalid input and short stock are reported exactly when they occur and change nothing; success appends exactly one pending order and lowers only that product's stock by the quantity, leaving it non-negative |
| ProductModel.OutOfStockIsLowStock | app/Models/Product.php:77-88 | an out-of-stock product is also low on stock; low but not out means 1 to 10 units |
| ProductModel.ContainsIsSubstring | app/Models/Product.php:66-69 | the search match holds exactly when the term occurs at some position of the field |
| ProductModel.Where | app/Models/Product.php:44-46 | a filter keeps exactly the rows that satisfy it and never adds rows |
| ProductModel.ScopeBrand | app/Models/Product.php:42-47 | a falsy brand keeps every row; otherwise exactly the rows of that brand |
| ProductModel.ScopeCategory | app/Models/Product.php:52-57 | a falsy category keeps every row; otherwise exactly the rows of that category |
| ProductModel.ScopeSearch | app/Models/Product.php:62-72 | a falsy term keeps every row; otherwise exactly the rows whose name, description, brand or category contains it |
| ProductModel.SearchFindsSubstrings | app/Models/Product.php:62-72 | a product matches a search exactly when the term is a substring of one of the four searched fields, a null description matching nothing |
| ProductController.Index | app/Http/Controllers/ProductController.php:13-15 | the listing is exactly the rows passing all three scopes, and never longer than the table |
| ProductController.WhereCommutes | app/Http/Controllers/ProductController.php:13-15 | two filters applied in either order give the same rows in the same order |
| ProductController.IndexScopeOrder | app/Http/Controllers/ProductController.php:13-15 | the listing does not depend on the order of the three scopes |
| ProductController.LessTransitive | app/Http/Controllers/ProductController.php:20-21 | the string order used for sorting is transitive |
| ProductController.LessTotal | app/Http/Controllers/ProductController.php:20-21 | any two different strings are ordered one way or the other |
| ProductController.LessIrreflexive | app/Http/Controllers/ProductController.php:20-21 | no string is below itself |
| ProductController.StrictlySortedDistinct | app/Http/Controllers/ProductController.php:20-21 | a strictly sorted list holds no value twice |
| ProductController.Insert | app/Http/Controllers/ProductController.php:20-21 | inserting into a strictly sorted list keeps it strictly sorted and adds exactly the new value |
| ProductController.SortedDistinct | app/Http/Controllers/ProductController.php:20-21 | the sorted distinct list holds exactly the column's values, strictly ascending |
| ProductController.Brands | app/Http/Controllers/ProductController.php:20 | the brand options are strictly ascending and are exactly the brands present in the catalogue |
| ProductController.Categories | app/Http/Controllers/ProductController.php:21 | the category options are strictly ascending and are exactly the categories present in the catalogue |
| ProductController.Related | app/Http/Controllers/ProductController.php:38-45 | at most four related products, each another product sharing the category or brand; when fewer than four exist, all are returned |
| ProductController.Row | app/Http/Controllers/ProductController.php:78 | the stored row keeps its id and takes the validated price and stock |
| ProductController.Store | app/Http/Controllers/ProductController.php:64-82 | invalid input is rejected exactly when a rule fails and changes nothing; otherwise one new row is inserted under the next id |
| ProductController.Update | app/Http/Controllers/ProductController.php:96-114 | a missing product and invalid input are reported exactly when they occur and change nothing; otherwise only that row is overwritten, keeping its id |
| ProductController.Destroy | app/Http/Controllers/ProductController.php:116-122 | a missing product changes nothing; otherwise exactly that row is deleted |

## Left out

- CartController.Cart.Checkout: non-negative stock after checkout is proved only when the target lines name distinct products. In general it does not hold, and `CartSpec.PreflightAdmitsOversell` exhibits a counterexample.
- CartController.Cart.Add: the combined quantity of an existing line is not checked against stock, as in the source, so a line can exceed its product's stock.
- The cart key is a (product, size, colour) tuple. The source joins the three with `|`, so a size or colour containing `|` could make two variants share a key. The model assumes none does.
- AppServiceProvider.CartCount: every modelled cart line has a quantity, so the case of a line without a quantity contributing 0 does not arise. A missing session cart is modelled as the empty cart.
- CartController.Cart.Update: the `key` field's own `required|string` rule is not modelled separately. An empty key is simply not in the cart and is reported as a missing line.
- Laravel validation is modelled as written rules over strings: `required` means non-empty. Whitespace trimming, type coercion of numeric strings and the `url` format of `image_url` are not modelled.
- Money is integer cents. The float cast of the subtotal, the decimal cast of prices, and price formatting are not modelled.
- The `LIKE` match is plain, case-sensitive substring search with no wildcard characters inside the term and no database collation.
- The `latest()` ordering and the 12-row pagination of the listing are not modelled. Rows are taken in the order the query reads them.
- The related products are chosen in random order in the source. The model takes the first four candidates in table order.
- `sort()` compares numeric strings numerically in PHP. The model uses plain lexicographic order on characters.
- ProductController.Update: every validated field is treated as submitted. Fields absent from the request, which Laravel would leave untouched, are not distinguished from null ones.
- Sessions, authentication, redirects, flash messages, Inertia rendering, and the route model binding lookups are not modelled beyond the NotFound outcome. The user id and session cart are parameters.
- Database integer widths, concurrent requests racing on stock, and foreign keys between orders and products are not modelled.
