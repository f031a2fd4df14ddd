/**
 * The catalogue actions: the filtered listing, the brand and category lists
 * shown as filter options, the related products on a product page, and the
 * validated create, overwrite and delete of product rows.
 */
module ProductController {
  import opened Models
  import opened ProductModel
  import opened Database

  // ---------------------------------------------------------------- listing

  /**
   * `index`: the search scope, then the brand scope, then the category
   * scope, over the table's rows in the order the query reads them.
   */
  function Index(ps: seq<Product>, search: Option<string>, brand: Option<string>, category: Option<string>): (r: seq<Product>)
    ensures |r| <= |ps|
    ensures forall p :: p in r <==>
      && p in ps
      && (Falsy(search) || MatchesSearch(p, search.value))
      && (Falsy(brand) || p.brand == brand.value)
      && (Falsy(category) || p.category == category.value)
  {
    ScopeCategory(ScopeBrand(ScopeSearch(ps, search), brand), category)
  }

  /** Two filters give the same rows, in the same order, whichever runs first. */
  lemma {:induction false} WhereCommutes(ps: seq<Product>, f: Product -> bool, g: Product -> bool)
    ensures Where(Where(ps, f), g) == Where(Where(ps, g), f)
  {
    if |ps| > 0 {
      var init, last := ps[..|ps| - 1], ps[|ps| - 1];
      WhereCommutes(init, f, g);
      WhereSnoc(init, last, f);
      WhereSnoc(init, last, g);
      WhereSnoc(Where(init, f), last, g);
      WhereSnoc(Where(init, g), last, f);
    }
  }

  lemma WhereSnoc(ps: seq<Product>, x: Product, f: Product -> bool)
    ensures Where(ps + [x], f) == if f(x) then Where(ps, f) + [x] else Where(ps, f)
  {
    assert (ps + [x])[..|ps + [x]| - 1] == ps;
  }

  /** The order of the three scopes in the `index` chain does not change the listing. */
  lemma IndexScopeOrder(ps: seq<Product>, search: Option<string>, brand: Option<string>, category: Option<string>)
    ensures Index(ps, search, brand, category) == ScopeSearch(ScopeBrand(ScopeCategory(ps, category), brand), search)
  {
    if !Falsy(search) && !Falsy(brand) && !Falsy(category) {
      var s, b, c := SearchFilter(search.value), BrandFilter(brand.value), CategoryFilter(category.value);
      WhereCommutes(Where(ps, s), b, c);
      WhereCommutes(ps, s, c);
      WhereCommutes(Where(ps, c), s, b);
    } else if !Falsy(search) && !Falsy(brand) {
      WhereCommutes(ps, SearchFilter(search.value), BrandFilter(brand.value));
    } else if !Falsy(search) && !Falsy(category) {
      WhereCommutes(ps, SearchFilter(search.value), CategoryFilter(category.value));
    } else if !Falsy(brand) && !Falsy(category) {
      WhereCommutes(ps, BrandFilter(brand.value), CategoryFilter(category.value));
    }
  }

  // ------------------------------------------------- brand and category lists

  /** Byte-wise lexicographic order on strings, as `sort` applies it to non-numeric strings. */
  predicate Less(a: string, b: string) {
    if |a| == 0 then |b| > 0
    else |b| > 0 && (a[0] < b[0] || (a[0] == b[0] && Less(a[1..], b[1..])))
  }

  lemma {:induction false} LessIrreflexive(a: string)
    ensures !Less(a, a)
  {
    if |a| > 0 {
      LessIrreflexive(a[1..]);
    }
  }

  lemma {:induction false} LessTransitive(a: string, b: string, c: string)
    requires Less(a, b) && Less(b, c)
    ensures Less(a, c)
  {
    if |a| > 0 && a[0] == b[0] && b[0] == c[0] {
      LessTransitive(a[1..], b[1..], c[1..]);
    }
  }

  lemma {:induction false} LessTotal(a: string, b: string)
    ensures a == b || Less(a, b) || Less(b, a)
  {
    if |a| > 0 && |b| > 0 && a[0] == b[0] {
      LessTotal(a[1..], b[1..]);
      if a[1..] == b[1..] {
        assert a == [a[0]] + a[1..] && b == [b[0]] + b[1..];
      }
    }
  }

  predicate StrictlySorted(xs: seq<string>) {
    forall i, j :: 0 <= i < j < |xs| ==> Less(xs[i], xs[j])
  }

  /** A strictly sorted list holds no value twice. */
  lemma StrictlySortedDistinct(xs: seq<string>, i: int, j: int)
    requires StrictlySorted(xs) && 0 <= i < j < |xs|
    ensures xs[i] != xs[j]
  {
    LessIrreflexive(xs[i]);
  }

  /** Put `x` into its place in the strictly sorted `xs`, unless it is already there. */
  function Insert(xs: seq<string>, x: string): (r: seq<string>)
    requires StrictlySorted(xs)
    ensures StrictlySorted(r)
    ensures forall v :: v in r <==> v in xs || v == x
  {
    if |xs| == 0 then [x]
    else if x == xs[0] then xs
    else if Less(x, xs[0]) then
      InsertBefore(xs, x);
      [x] + xs
    else
      LessTotal(x, xs[0]);
      var rest := Insert(xs[1..], x);
      assert forall v :: v in rest ==> Less(xs[0], v);
      [xs[0]] + rest
  }

  lemma InsertBefore(xs: seq<string>, x: string)
    requires StrictlySorted(xs) && |xs| > 0 && Less(x, xs[0])
    ensures StrictlySorted([x] + xs)
  {
    forall j | 0 < j < |xs|
      ensures Less(x, xs[j])
    {
      LessTransitive(x, xs[0], xs[j]);
    }
  }

  /** `sort()->values()` over a `distinct()` column: every value once, in ascending order. */
  function SortedDistinct(vs: seq<string>): (r: seq<string>)
    ensures StrictlySorted(r)
    ensures forall v :: v in r <==> v in vs
  {
    if |vs| == 0 then [] else
      var r := Insert(SortedDistinct(vs[..|vs| - 1]), vs[|vs| - 1]);
      assert vs == vs[..|vs| - 1] + [vs[|vs| - 1]];
      r
  }

  function BrandColumn(ps: seq<Product>): seq<string> {
    seq(|ps|, i requires 0 <= i < |ps| => ps[i].brand)
  }

  function CategoryColumn(ps: seq<Product>): seq<string> {
    seq(|ps|, i requires 0 <= i < |ps| => ps[i].category)
  }

  /** The brand filter options shared by `index`, `create` and `edit`. */
  function Brands(ps: seq<Product>): (r: seq<string>)
    ensures StrictlySorted(r)
    ensures forall b :: b in r <==> exists p :: p in ps && p.brand == b
  {
    var col := BrandColumn(ps);
    assert forall p :: p in ps ==> p.brand in col by {
      forall p | p in ps ensures p.brand in col {
        var i :| 0 <= i < |ps| && ps[i] == p;
        assert col[i] == p.brand;
      }
    }
    SortedDistinct(col)
  }

  /** The category filter options shared by `index`, `create` and `edit`. */
  function Categories(ps: seq<Product>): (r: seq<string>)
    ensures StrictlySorted(r)
    ensures forall c :: c in r <==> exists p :: p in ps && p.category == c
  {
    var col := CategoryColumn(ps);
    assert forall p :: p in ps ==> p.category in col by {
      forall p | p in ps ensures p.category in col {
        var i :| 0 <= i < |ps| && ps[i] == p;
        assert col[i] == p.category;
      }
    }
    SortedDistinct(col)
  }

  // ------------------------------------------------------- related products

  /** A candidate for the related list of `shown`: another product of the same category or brand. */
  predicate IsRelated(shown: Product, p: Product) {
    (p.category == shown.category || p.brand == shown.brand) && p.id != shown.id
  }

  /**
   * `show`'s related products: at most four candidates. The source draws
   * them in random order; the model takes the first four in table order.
   */
  function Related(ps: seq<Product>, shown: Product): (r: seq<Product>)
    ensures |r| <= 4
    ensures forall p :: p in r ==> p in ps && IsRelated(shown, p)
    ensures |r| == 4 || forall p :: p in ps && IsRelated(shown, p) ==> p in r
  {
    var candidates := Where(ps, p => IsRelated(shown, p));
    if |candidates| <= 4 then candidates
    else
      assert forall p :: p in candidates[..4] ==> p in candidates;
      candidates[..4]
  }

  // ------------------------------------------------- create, update, delete

  /** A product form as submitted to `store` or `update`. */
  datatype ProductInput = ProductInput(
    name: string,
    brand: string,
    category: string,
    description: Option<string>,
    price: int,
    imageUrl: Option<string>,
    size: Option<string>,
    color: Option<string>,
    stock: int)

  /** The `store` and `update` validation rules (the URL format of `image_url` aside). */
  predicate ValidProductInput(v: ProductInput) {
    && Filled(v.name) && |v.name| <= 255
    && Filled(v.brand) && |v.brand| <= 255
    && Filled(v.category) && |v.category| <= 255
    && v.price >= 0
    && (v.size.Some? ==> |v.size.value| <= 10)
    && (v.color.Some? ==> |v.color.value| <= 50)
    && v.stock >= 0
  }

  /** The row the validated fields describe, stored under `id`. */
  function Row(id: ProductId, v: ProductInput): (p: Product)
    requires v.price >= 0
    ensures p.id == id && p.stock == v.stock && p.price == v.price
  {
    Product(id, v.name, v.brand, v.category, v.description, v.price, v.imageUrl, v.size, v.color, v.stock)
  }

  /** `store`: validate, then insert a row under the next auto-increment id. */
  method Store(db: Tables, v: ProductInput) returns (r: Outcome, id: ProductId)
    requires db.Valid()
    modifies db
    ensures db.Valid() && db.orders == old(db.orders)
    ensures r == ValidationError <==> !ValidProductInput(v)
    ensures r != ValidationError ==> r == Ok
    ensures r == ValidationError ==> db.products == old(db.products) && db.nextId == old(db.nextId)
    ensures r == Ok ==>
      && id == old(db.nextId) && id !in old(db.products)
      && db.products == old(db.products)[id := Row(id, v)]
      && db.nextId == id + 1
  {
    id := db.nextId;
    if !ValidProductInput(v) {
      return ValidationError, id;
    }
    db.products := db.products[id := Row(id, v)];
    db.nextId := id + 1;
    r := Ok;
  }

  /** `update`: a missing product is a 404; otherwise validate and overwrite that one row. */
  method Update(db: Tables, id: ProductId, v: ProductInput) returns (r: Outcome)
    requires db.Valid()
    modifies db
    ensures db.Valid() && db.orders == old(db.orders) && db.nextId == old(db.nextId)
    ensures r == NotFound <==> id !in old(db.products)
    ensures r == ValidationError <==> id in old(db.products) && !ValidProductInput(v)
    ensures r == Ok || r == NotFound || r == ValidationError
    ensures r != Ok ==> db.products == old(db.products)
    ensures r == Ok ==> db.products == old(db.products)[id := Row(id, v)]
  {
    if id !in db.products {
      return NotFound;
    }
    if !ValidProductInput(v) {
      return ValidationError;
    }
    db.products := db.products[id := Row(id, v)];
    r := Ok;
  }

  /** `destroy`: a missing product is a 404; otherwise delete that one row. */
  method Destroy(db: Tables, id: ProductId) returns (r: Outcome)
    requires db.Valid()
    modifies db
    ensures db.Valid() && db.orders == old(db.orders) && db.nextId == old(db.nextId)
    ensures r == NotFound <==> id !in old(db.products)
    ensures r == Ok <==> id in old(db.products)
    ensures r == NotFound ==> db.products == old(db.products)
    ensures r == Ok ==> db.products == old(db.products) - {id}
  {
    if id !in db.products {
      return NotFound;
    }
    db.products := db.products - {id};
    r := Ok;
  }
}
