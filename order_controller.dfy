/**
 * The single-item "buy now" order: validate the request, check the one
 * product's stock, record a pending order and decrement the stock.
 */
module OrderController {
  import opened Models
  import opened Database

  /** The fields of a buy-now request. */
  datatype OrderRequest = OrderRequest(
    details: OrderDetails,
    totalAmount: int,
    productId: ProductId,
    size: string,
    color: string,
    quantity: int)

  /** The `store` validation rules, `exists:products,id` included. */
  predicate ValidRequest(products: map<ProductId, Product>, q: OrderRequest) {
    && ValidDetails(q.details)
    && q.totalAmount >= 0
    && q.productId in products
    && Filled(q.size) && Filled(q.color)
    && q.quantity >= 1
  }

  /** The order a valid request records: the caller's own total, not price times quantity. */
  function RequestedOrder(userId: nat, q: OrderRequest): (o: Order)
    requires ValidDetails(q.details)
    ensures o.status == Pending && o.userId == userId && o.productId == q.productId
    ensures o.totalAmount == q.totalAmount && o.quantity == q.quantity
    ensures o.size == q.size && o.color == q.color
    ensures PaymentMethodName(o.paymentMethod) == q.details.paymentMethod
  {
    MakeOrder(userId, q.details, q.productId, q.totalAmount, q.size, q.color, q.quantity)
  }

  /** `store`. */
  method Store(db: Tables, q: OrderRequest, userId: nat) returns (r: Outcome)
    requires db.Valid()
    modifies db
    ensures db.Valid() && db.nextId == old(db.nextId)
    ensures r == ValidationError <==> !ValidRequest(old(db.products), q)
    ensures r == OutOfStock <==>
      ValidRequest(old(db.products), q) && old(db.products)[q.productId].stock < q.quantity
    ensures r == Ok || r == ValidationError || r == OutOfStock
    ensures r != Ok ==> db.products == old(db.products) && db.orders == old(db.orders)
    ensures r == Ok ==>
      var p := old(db.products)[q.productId];
      && db.orders == old(db.orders) + [RequestedOrder(userId, q)]
      && db.products == old(db.products)[q.productId := p.(stock := p.stock - q.quantity)]
      && 0 <= db.products[q.productId].stock < p.stock
  {
    if !ValidRequest(db.products, q) {
      return ValidationError;
    }
    if db.products[q.productId].stock < q.quantity {
      return OutOfStock;
    }
    db.CreateOrder(RequestedOrder(userId, q));
    db.DecrementStock(q.productId, q.quantity);
    r := Ok;
  }
}
