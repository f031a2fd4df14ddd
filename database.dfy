/**
 * The persistent tables the controllers read and write: products (with their
 * mutable stock counters) and the append-only list of orders. An order's id
 * is its position in `orders`; new products get the next auto-increment id.
 */
module Database {
  import opened Models

  class Tables {
    var products: map<ProductId, Product>
    var orders: seq<Order>
    var nextId: ProductId

    /** Every product is stored under its own id, and ids already handed out lie below `nextId`. */
    ghost predicate Valid()
      reads this
    {
      forall id :: id in products ==> products[id].id == id && id < nextId
    }

    constructor (products: map<ProductId, Product>, nextId: ProductId)
      requires forall id :: id in products ==> products[id].id == id && id < nextId
      ensures Valid()
      ensures this.products == products && orders == [] && this.nextId == nextId
    {
      this.products := products;
      this.orders := [];
      this.nextId := nextId;
    }

    /** Eloquent's `decrement('stock', amount)` on one product row. */
    method DecrementStock(id: ProductId, amount: int)
      requires Valid() && id in products
      modifies this
      ensures Valid()
      ensures products == old(products)[id := old(products)[id].(stock := old(products)[id].stock - amount)]
      ensures orders == old(orders) && nextId == old(nextId)
    {
      products := products[id := products[id].(stock := products[id].stock - amount)];
    }

    /** `Order::create`: append one order. */
    method CreateOrder(o: Order)
      requires Valid()
      modifies this
      ensures Valid()
      ensures orders == old(orders) + [o]
      ensures products == old(products) && nextId == old(nextId)
    {
      orders := orders + [o];
    }
  }
}
