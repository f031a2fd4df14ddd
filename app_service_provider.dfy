/**
 * The `cartCount` value shared with every page: the number of units in the
 * session cart.
 */
module AppServiceProvider {
  import opened Models
  import opened CartSpec
  import opened CartController

  /** The `cartCount` closure: add up the lines' quantities in cart order. */
  method CartCount(cart: Cart) returns (count: int)
    requires cart.Valid()
    ensures count == Count(cart.keys, cart.lines)
    ensures count >= |cart.keys|
    ensures cart.keys == [] ==> count == 0
  {
    var keys, lines := cart.keys, cart.lines;
    count := 0;
    var i := 0;
    while i < |keys|
      invariant 0 <= i <= |keys|
      invariant count == Count(keys[..i], lines)
    {
      assert keys[..i + 1][..i] == keys[..i];
      count := count + lines[keys[i]].quantity;
      i := i + 1;
    }
    assert keys[..i] == keys;
    CountAtLeastLines(keys, lines);
  }
}
