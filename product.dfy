/**
 * The catalogue product's own predicates: the low-stock and out-of-stock
 * flags, and the brand, category and search query scopes, read as filters
 * over the product table in table order.
 */
module ProductModel {
  import opened Models

  /** `isLowStock`: ten or fewer units left. */
  predicate IsLowStock(p: Product) {
    p.stock <= 10
  }

  /** `isOutOfStock`: no unit left (or an oversold, negative counter). */
  predicate IsOutOfStock(p: Product) {
    p.stock <= 0
  }

  lemma OutOfStockIsLowStock(p: Product)
    ensures IsOutOfStock(p) ==> IsLowStock(p)
    ensures IsLowStock(p) && !IsOutOfStock(p) <==> 1 <= p.stock <= 10
  {
  }

  /**
   * A scope argument `when(...)` ignores: a missing request parameter, the
   * empty string, or the string "0", the three string-or-null values PHP
   * treats as false.
   */
  predicate Falsy(v: Option<string>) {
    v.None? || v.value == "" || v.value == "0"
  }

  /** `t` is a prefix of `s`, compared character by character. */
  predicate StartsWith(s: string, t: string)
    decreases t
  {
    |t| == 0 || (|s| > 0 && s[0] == t[0] && StartsWith(s[1..], t[1..]))
  }

  /** `t` occurs somewhere in `s`: the `LIKE '%t%'` test, read as plain substring matching. */
  predicate Contains(s: string, t: string)
    decreases |s|
  {
    StartsWith(s, t) || (|s| > 0 && Contains(s[1..], t))
  }

  lemma {:induction false} StartsWithIsPrefix(s: string, t: string)
    ensures StartsWith(s, t) <==> |t| <= |s| && s[..|t|] == t
    decreases t
  {
    if |t| > 0 && |s| > 0 {
      StartsWithIsPrefix(s[1..], t[1..]);
      if |t| <= |s| && s[..|t|] == t {
        assert s[1..][..|t| - 1] == s[..|t|][1..];
      }
      if StartsWith(s, t) {
        assert s[..|t|] == [s[0]] + s[1..][..|t| - 1];
        assert t == [t[0]] + t[1..];
      }
    }
  }

  /** `t` sits in `s` starting at position `i`. */
  predicate OccursAt(s: string, t: string, i: int) {
    0 <= i && i + |t| <= |s| && s[i..i + |t|] == t
  }

  /** `Contains` agrees with the textbook definition of a substring. */
  lemma {:induction false} ContainsIsSubstring(s: string, t: string)
    ensures Contains(s, t) <==> exists i :: OccursAt(s, t, i)
    decreases |s|
  {
    StartsWithIsPrefix(s, t);
    if Contains(s, t) {
      if StartsWith(s, t) {
        assert OccursAt(s, t, 0);
      } else {
        ContainsIsSubstring(s[1..], t);
        var i :| OccursAt(s[1..], t, i);
        assert s[1..][i..i + |t|] == s[i + 1..i + 1 + |t|];
        assert OccursAt(s, t, i + 1);
      }
    } else if exists i :: OccursAt(s, t, i) {
      var i :| OccursAt(s, t, i);
      if i != 0 {
        ContainsIsSubstring(s[1..], t);
        assert s[1..][i - 1..i - 1 + |t|] == s[i..i + |t|];
        assert OccursAt(s[1..], t, i - 1);
      }
      assert false;
    }
  }

  /** The products of `ps` that satisfy `keep`, in their table order. */
  function Where(ps: seq<Product>, keep: Product -> bool): (r: seq<Product>)
    ensures |r| <= |ps|
    ensures forall p :: p in r <==> p in ps && keep(p)
  {
    if |ps| == 0 then []
    else
      var rest := Where(ps[..|ps| - 1], keep);
      var last := ps[|ps| - 1];
      assert ps == ps[..|ps| - 1] + [last];
      if keep(last) then rest + [last] else rest
  }

  predicate MatchesBrand(p: Product, brand: string) {
    p.brand == brand
  }

  predicate MatchesCategory(p: Product, category: string) {
    p.category == category
  }

  /**
   * The search scope's grouped `orWhere` chain: the term occurs in the name,
   * the description, the brand or the category. A null description matches
   * nothing.
   */
  predicate MatchesSearch(p: Product, term: string) {
    || Contains(p.name, term)
    || (p.description.Some? && Contains(p.description.value, term))
    || Contains(p.brand, term)
    || Contains(p.category, term)
  }

  function BrandFilter(brand: string): Product -> bool {
    p => MatchesBrand(p, brand)
  }

  function CategoryFilter(category: string): Product -> bool {
    p => MatchesCategory(p, category)
  }

  function SearchFilter(term: string): Product -> bool {
    p => MatchesSearch(p, term)
  }

  /** `scopeBrand`. */
  function ScopeBrand(ps: seq<Product>, brand: Option<string>): (r: seq<Product>)
    ensures Falsy(brand) ==> r == ps
    ensures !Falsy(brand) ==> forall p :: p in r <==> p in ps && p.brand == brand.value
  {
    if Falsy(brand) then ps else Where(ps, BrandFilter(brand.value))
  }

  /** `scopeCategory`. */
  function ScopeCategory(ps: seq<Product>, category: Option<string>): (r: seq<Product>)
    ensures Falsy(category) ==> r == ps
    ensures !Falsy(category) ==> forall p :: p in r <==> p in ps && p.category == category.value
  {
    if Falsy(category) then ps else Where(ps, CategoryFilter(category.value))
  }

  /** `scopeSearch`. */
  function ScopeSearch(ps: seq<Product>, search: Option<string>): (r: seq<Product>)
    ensures Falsy(search) ==> r == ps
    ensures !Falsy(search) ==> forall p :: p in r <==> p in ps && MatchesSearch(p, search.value)
  {
    if Falsy(search) then ps else Where(ps, SearchFilter(search.value))
  }

  /** A non-empty search term is found in a product exactly when it is a substring of one of the four searched fields. */
  lemma SearchFindsSubstrings(p: Product, term: string)
    ensures MatchesSearch(p, term) <==>
      || (exists i :: OccursAt(p.name, term, i))
      || (p.description.Some? && exists i :: OccursAt(p.description.value, term, i))
      || (exists i :: OccursAt(p.brand, term, i))
      || (exists i :: OccursAt(p.category, term, i))
  {
    ContainsIsSubstring(p.name, term);
    if p.description.Some? {
      ContainsIsSubstring(p.description.value, term);
    }
    ContainsIsSubstring(p.brand, term);
    ContainsIsSubstring(p.category, term);
  }
}
