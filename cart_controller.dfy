/**
 * The session cart and its controller actions: add a product variant, list
 * the cart with its subtotal, change a line's quantity, remove a line, and
 * check out some or all lines into pending orders.
 *
 * The session array is the `Cart` object: `keys` is the insertion order that
 * PHP arrays keep and `lines` maps each key to its line. The products and
 * orders tables are the `Tables` object passed in.
 */
module CartController {
  import opened Models
  import opened CartSpec
  import opened Database

  /** One row of the cart page: a line tagged with its key. */
  datatype Item = Item(key: Key, line: Line)

  class Cart {
    var keys: seq<Key>
    var lines: map<Key, Line>

    ghost predicate Valid()
      reads this
    {
      WellFormed(keys, lines)
    }

    /** A session that has no cart yet reads as an empty cart. */
    constructor ()
      ensures Valid() && keys == [] && lines == map[]
    {
      keys := [];
      lines := map[];
    }

    /**
     * Add `quantity` units of one variant. Rejected when the product does not
     * exist, a field is missing, the quantity is below one, or the product's
     * stock is below the quantity asked for now. An existing line for the
     * variant grows by `quantity` (the combined quantity is not checked
     * against stock); otherwise a new line snapshotting the product goes at
     * the end.
     */
    method Add(db: Tables, productId: ProductId, size: string, color: string, quantity: int) returns (r: Outcome)
      requires Valid()
      modifies this
      ensures Valid()
      ensures r == ValidationError <==> !(productId in db.products && Filled(size) && Filled(color) && quantity >= 1)
      ensures r == OutOfStock <==>
        productId in db.products && Filled(size) && Filled(color) && quantity >= 1 && db.products[productId].stock < quantity
      ensures r == Ok || r == ValidationError || r == OutOfStock
      ensures r != Ok ==> keys == old(keys) && lines == old(lines)
      ensures r == Ok && Key(productId, size, color) in old(lines) ==>
        var k := Key(productId, size, color);
        keys == old(keys) && lines == old(lines)[k := old(lines)[k].(quantity := old(lines)[k].quantity + quantity)]
      ensures r == Ok && Key(productId, size, color) !in old(lines) ==>
        var p := db.products[productId];
        && keys == old(keys) + [Key(productId, size, color)]
        && lines == old(lines)[Key(productId, size, color) := Line(productId, p.name, p.price, p.imageUrl, size, color, quantity)]
      ensures r == Ok ==> Count(keys, lines) == old(Count(keys, lines)) + quantity
    {
      if !(productId in db.products && Filled(size) && Filled(color) && quantity >= 1) {
        return ValidationError;
      }
      var product := db.products[productId];
      if product.stock < quantity {
        return OutOfStock;
      }
      var key := Key(productId, size, color);
      if key in lines {
        var line := lines[key];
        AddToLine(keys, lines, key, quantity);
        lines := lines[key := line.(quantity := line.quantity + quantity)];
      } else {
        var line := Line(productId, product.name, product.price, product.imageUrl, size, color, quantity);
        AddNewLine(keys, lines, line);
        keys := keys + [key];
        lines := lines[key := line];
      }
      r := Ok;
    }

    /** The cart page: every line once, in cart order, tagged with its key, and the subtotal over all of them. */
    method Index() returns (items: seq<Item>, subtotal: int)
      requires Valid()
      ensures |items| == |keys|
      ensures forall i :: 0 <= i < |items| ==> items[i] == Item(keys[i], lines[keys[i]])
      ensures subtotal == Subtotal(keys, lines) && subtotal >= 0
    {
      items := [];
      var i := 0;
      while i < |keys|
        invariant 0 <= i <= |keys|
        invariant |items| == i
        invariant forall j :: 0 <= j < i ==> items[j] == Item(keys[j], lines[keys[j]])
      {
        items := items + [Item(keys[i], lines[keys[i]])];
        i := i + 1;
      }
      subtotal := 0;
      var j := 0;
      while j < |items|
        invariant 0 <= j <= |items|
        invariant subtotal == Subtotal(keys[..j], lines)
      {
        subtotal := subtotal + items[j].line.price * items[j].line.quantity;
        assert keys[..j + 1][..j] == keys[..j];
        j := j + 1;
      }
      assert keys[..|keys|] == keys;
      SubtotalNonNegative(keys, lines);
    }

    /**
     * Set one line's quantity. Rejected when the quantity is below one, the
     * key is not in the cart, the line's product no longer exists, or its
     * stock is below the new quantity; otherwise only that line's quantity
     * changes.
     */
    method Update(db: Tables, key: Key, quantity: int) returns (r: Outcome)
      requires Valid()
      modifies this
      ensures Valid()
      ensures r == ValidationError <==> quantity < 1
      ensures r == LineNotFound <==> quantity >= 1 && key !in old(lines)
      ensures r == NotFound <==> quantity >= 1 && key in old(lines) && old(lines)[key].productId !in db.products
      ensures r == OutOfStock <==> quantity >= 1 && key in old(lines) && old(lines)[key].productId in db.products
                                   && db.products[old(lines)[key].productId].stock < quantity
      ensures r == Ok || r == ValidationError || r == LineNotFound || r == NotFound || r == OutOfStock
      ensures r != Ok ==> keys == old(keys) && lines == old(lines)
      ensures r == Ok ==> keys == old(keys) && lines == old(lines)[key := old(lines)[key].(quantity := quantity)]
      ensures r == Ok ==> Count(keys, lines) == old(Count(keys, lines)) - old(lines)[key].quantity + quantity
    {
      if quantity < 1 {
        return ValidationError;
      }
      if key !in lines {
        return LineNotFound;
      }
      var productId := lines[key].productId;
      if productId !in db.products {
        return NotFound;
      }
      if db.products[productId].stock < quantity {
        return OutOfStock;
      }
      SetLineQuantity(keys, lines, key, quantity);
      lines := lines[key := lines[key].(quantity := quantity)];
      r := Ok;
    }

    /** Drop the line with `key`; a key that is not in the cart changes nothing. */
    method Remove(key: Key)
      requires Valid()
      modifies this
      ensures Valid()
      ensures key !in old(lines) ==> keys == old(keys) && lines == old(lines)
      ensures key in old(lines) ==> keys == Without(old(keys), {key}) && lines == old(lines) - {key}
      ensures key in old(lines) ==> Count(keys, lines) == old(Count(keys, lines)) - old(lines)[key].quantity
    {
      if key in lines {
        RemoveLine(keys, lines, key);
        keys := Without(keys, {key});
        lines := lines - {key};
      }
    }

    /**
     * Check out the selected lines (all lines when `selected` is None).
     * Validation, an empty cart, an empty target set and a failed pre-flight
     * stock check each change nothing. On success every target line becomes
     * one pending order, its product's stock drops by the line's quantity,
     * and exactly the target lines leave the cart.
     */
    method Checkout(db: Tables, details: OrderDetails, selected: Option<seq<Key>>, userId: nat) returns (r: Outcome)
      requires Valid() && db.Valid()
      modifies this, db
      ensures Valid() && db.Valid()
      ensures r == CheckoutOutcome(details, selected, old(keys), old(lines), old(db.products))
      ensures db.nextId == old(db.nextId)
      ensures r != Ok ==>
        && keys == old(keys) && lines == old(lines)
        && db.products == old(db.products) && db.orders == old(db.orders)
      ensures r == Ok ==>
        var t := CheckoutTargets(selected, old(keys), old(lines));
        && db.orders == old(db.orders) + OrdersFor(t, old(lines), details, userId)
        && db.products == Debit(old(db.products), t, old(lines))
        && keys == Without(old(keys), Elems(t))
        && lines == old(lines) - Elems(t)
      ensures r == Ok ==>
        var t := CheckoutTargets(selected, old(keys), old(lines));
        Count(keys, lines) + OrderedUnits(OrdersFor(t, old(lines), details, userId)) == old(Count(keys, lines))
      ensures r == Ok && DistinctProducts(CheckoutTargets(selected, old(keys), old(lines)), old(lines))
                      && (forall id :: id in old(db.products) ==> old(db.products)[id].stock >= 0) ==>
        forall id :: id in db.products ==> db.products[id].stock >= 0
    {
      if !ValidDetails(details) {
        return ValidationError;
      }
      if lines == map[] {
        return EmptyCart;
      }
      var targets := SelectTargets(Requested(selected, keys), lines);
      if targets == [] {
        return NoValidSelection;
      }
      var covered := StockCheck(db, targets, lines);
      if !covered {
        return InsufficientStock;
      }
      Place(db, targets, details, userId);
      r := Ok;
    }

    /** The commit half of checkout, once every target line has passed the stock pre-flight. */
    method Place(db: Tables, targets: seq<Key>, details: OrderDetails, userId: nat)
      requires Valid() && db.Valid() && ValidDetails(details) && Distinct(targets)
      requires forall k :: k in targets ==> k in lines && lines[k].productId in db.products
      requires Preflight(db.products, targets, lines)
      modifies this, db
      ensures Valid() && db.Valid() && db.nextId == old(db.nextId)
      ensures db.orders == old(db.orders) + OrdersFor(targets, old(lines), details, userId)
      ensures db.products == Debit(old(db.products), targets, old(lines))
      ensures keys == Without(old(keys), Elems(targets))
      ensures lines == old(lines) - Elems(targets)
      ensures Count(keys, lines) + OrderedUnits(OrdersFor(targets, old(lines), details, userId)) == old(Count(keys, lines))
      ensures DistinctProducts(targets, old(lines)) && (forall id :: id in old(db.products) ==> old(db.products)[id].stock >= 0) ==>
        forall id :: id in db.products ==> db.products[id].stock >= 0
    {
      CheckoutCommitted(keys, lines, db.products, targets, details, userId);
      keys, lines := Commit(db, targets, keys, lines, details, userId);
    }
  }

  /**
   * The commit phase, run on the session's cart array: for each target line
   * in order, create its pending order, decrement its product's stock and
   * unset the line; the remaining cart is returned to be stored back.
   */
  method Commit(db: Tables, targets: seq<Key>, cartKeys: seq<Key>, cart: map<Key, Line>, details: OrderDetails, userId: nat)
    returns (keys: seq<Key>, lines: map<Key, Line>)
    requires db.Valid() && ValidDetails(details)
    requires forall k :: k in targets ==> k in cart && cart[k].productId in db.products
    modifies db
    ensures db.Valid() && db.nextId == old(db.nextId)
    ensures db.orders == old(db.orders) + OrdersFor(targets, cart, details, userId)
    ensures db.products == Debit(old(db.products), targets, cart)
    ensures keys == Without(cartKeys, Elems(targets))
    ensures lines == cart - Elems(targets)
  {
    ghost var orders0, products0 := db.orders, db.products;
    keys, lines := cartKeys, cart;
    CommitProgressStart(products0, orders0, cartKeys, cart, targets, details, userId);
    var n := 0;
    while n < |targets|
      invariant db.Valid() && db.nextId == old(db.nextId)
      invariant CommitProgress(products0, orders0, cartKeys, cart, targets, details, userId, n, db.products, db.orders, keys, lines)
    {
      keys, lines := CommitNext(db, targets, n, cartKeys, cart, keys, lines, details, userId, products0, orders0);
      n := n + 1;
    }
    CommitProgressEnd(products0, orders0, cartKeys, cart, targets, details, userId, db.products, db.orders, keys, lines);
  }

  /** Commit target line `n`, carrying the commit loop's invariant from `n` to `n + 1`. */
  method CommitNext(db: Tables, targets: seq<Key>, n: nat, cartKeys: seq<Key>, cart: map<Key, Line>,
                    keys: seq<Key>, lines: map<Key, Line>, details: OrderDetails, userId: nat,
                    ghost products0: map<ProductId, Product>, ghost orders0: seq<Order>)
    returns (keys': seq<Key>, lines': map<Key, Line>)
    requires db.Valid() && n < |targets|
    requires CommitProgress(products0, orders0, cartKeys, cart, targets, details, userId, n, db.products, db.orders, keys, lines)
    modifies db
    ensures db.Valid() && db.nextId == old(db.nextId)
    ensures CommitProgress(products0, orders0, cartKeys, cart, targets, details, userId, n + 1, db.products, db.orders, keys', lines')
  {
    var key := targets[n];
    var line := cart[key];
    ghost var orders, products := db.orders, db.products;
    keys', lines' := CommitLine(db, key, line, keys, lines, details, userId);
    OrdersDoneStep(products0, orders0, cart, targets, details, userId, n, orders, line, db.orders);
    StockDoneStep(products0, cart, targets, details, n, products, line, db.products);
    CartDoneStep(cartKeys, cart, targets, n, keys, lines, keys', lines');
  }

  /** One pass of the commit loop: create the line's order, decrement its product's stock, unset its key. */
  method CommitLine(db: Tables, key: Key, line: Line, keys: seq<Key>, lines: map<Key, Line>, details: OrderDetails, userId: nat)
    returns (keys': seq<Key>, lines': map<Key, Line>)
    requires db.Valid() && ValidDetails(details)
    requires line.productId in db.products
    modifies db
    ensures db.Valid() && db.nextId == old(db.nextId)
    ensures db.orders == old(db.orders)
      + [MakeOrder(userId, details, line.productId, line.price * line.quantity, line.size, line.color, line.quantity)]
    ensures db.products == old(db.products)[line.productId :=
      old(db.products)[line.productId].(stock := old(db.products)[line.productId].stock - line.quantity)]
    ensures keys' == Without(keys, {key}) && lines' == lines - {key}
  {
    db.CreateOrder(MakeOrder(userId, details, line.productId, line.price * line.quantity,
                             line.size, line.color, line.quantity));
    db.DecrementStock(line.productId, line.quantity);
    keys', lines' := Without(keys, {key}), lines - {key};
  }

  /** The requested keys that are in the cart, each once, in the order first requested. */
  method SelectTargets(requested: seq<Key>, lines: map<Key, Line>) returns (targets: seq<Key>)
    ensures targets == Targets(requested, lines.Keys)
    ensures Distinct(targets)
    ensures forall k :: k in targets <==> k in requested && k in lines
  {
    targets := [];
    var i := 0;
    while i < |requested|
      invariant 0 <= i <= |requested|
      invariant targets == Targets(requested[..i], lines.Keys)
    {
      assert requested[..i + 1][..i] == requested[..i];
      if requested[i] in lines && requested[i] !in targets {
        targets := targets + [requested[i]];
      }
      i := i + 1;
    }
    assert requested[..|requested|] == requested;
  }

  /** The pre-flight loop: stops at the first target line whose product is gone or short of stock. */
  method StockCheck(db: Tables, targets: seq<Key>, lines: map<Key, Line>) returns (covered: bool)
    requires forall k :: k in targets ==> k in lines
    ensures covered <==> Preflight(db.products, targets, lines)
  {
    var j := 0;
    while j < |targets|
      invariant 0 <= j <= |targets|
      invariant forall k :: k in targets[..j] ==> Covered(db.products, lines[k])
    {
      var line := lines[targets[j]];
      if line.productId !in db.products || db.products[line.productId].stock < line.quantity {
        assert targets[j] in targets;
        return false;
      }
      assert targets[..j + 1] == targets[..j] + [targets[j]];
      j := j + 1;
    }
    assert targets[..|targets|] == targets;
    covered := true;
  }
}

