/**
 * The records of the storefront: catalogue products, session cart lines,
 * orders, the order details a customer types in, and the typed outcome
 * every controller action reports. Money is held in integer cents.
 */
module Models {

  datatype Option<+T> = None | Some(value: T)

  type ProductId = nat

  /** A row of the products table. Nullable columns are `Option`s. */
  datatype Product = Product(
    id: ProductId,
    name: string,
    brand: string,
    category: string,
    description: Option<string>,
    price: nat,
    imageUrl: Option<string>,
    size: Option<string>,
    color: Option<string>,
    stock: int)

  /**
   * Identity of a cart line: the product and the chosen variant. The source
   * joins the three parts into one string with '|' separators; the model
   * keeps them apart, assuming size and colour never contain a '|'.
   */
  datatype Key = Key(productId: ProductId, size: string, color: string)

  /** A cart line: a snapshot of the product taken when it was first added. */
  datatype Line = Line(
    productId: ProductId,
    name: string,
    price: nat,
    imageUrl: Option<string>,
    size: string,
    color: string,
    quantity: int)

  function KeyOf(l: Line): Key {
    Key(l.productId, l.size, l.color)
  }

  datatype PaymentMethod = CreditCard | EWallet | CashOnDelivery

  datatype OrderStatus = Pending

  /** A row of the orders table. */
  datatype Order = Order(
    userId: nat,
    productId: ProductId,
    paymentMethod: PaymentMethod,
    deliveryAddress: string,
    customerName: string,
    contactNumber: string,
    totalAmount: int,
    size: string,
    color: string,
    quantity: int,
    status: OrderStatus)

  /** Delivery and payment fields of a checkout request, as submitted. */
  datatype OrderDetails = OrderDetails(
    paymentMethod: string,
    deliveryAddress: string,
    customerName: string,
    contactNumber: string)

  /** What a controller action reports back to the page. */
  datatype Outcome =
    | Ok
    | ValidationError
    | OutOfStock
    | NotFound
    | LineNotFound
    | EmptyCart
    | NoValidSelection
    | InsufficientStock

  /** Laravel's `required` on a string: present and not empty. */
  predicate Filled(s: string) {
    |s| > 0
  }

  /** The wire names accepted by the `in:credit_card,e_wallet,cod` rule. */
  function PaymentMethodName(m: PaymentMethod): string {
    match m
    case CreditCard => "credit_card"
    case EWallet => "e_wallet"
    case CashOnDelivery => "cod"
  }

  function ParsePaymentMethod(s: string): (r: Option<PaymentMethod>)
    ensures r.Some? ==> PaymentMethodName(r.value) == s
    ensures r.None? ==> s != "credit_card" && s != "e_wallet" && s != "cod"
  {
    if s == "credit_card" then Some(CreditCard)
    else if s == "e_wallet" then Some(EWallet)
    else if s == "cod" then Some(CashOnDelivery)
    else None
  }

  lemma PaymentMethodRoundTrip(m: PaymentMethod)
    ensures ParsePaymentMethod(PaymentMethodName(m)) == Some(m)
  {
  }

  /** The validation rules shared by cart checkout and the buy-now order. */
  predicate ValidDetails(d: OrderDetails) {
    && ParsePaymentMethod(d.paymentMethod).Some?
    && Filled(d.deliveryAddress)
    && Filled(d.customerName) && |d.customerName| <= 255
    && Filled(d.contactNumber) && |d.contactNumber| <= 20
  }

  /** An order as both order paths record it: status pending. */
  function MakeOrder(userId: nat, d: OrderDetails, productId: ProductId, totalAmount: int,
                     size: string, color: string, quantity: int): (o: Order)
    requires ValidDetails(d)
    ensures o.status == Pending && o.quantity == quantity && o.totalAmount == totalAmount
    ensures PaymentMethodName(o.paymentMethod) == d.paymentMethod
  {
    Order(userId, productId, ParsePaymentMethod(d.paymentMethod).value, d.deliveryAddress,
          d.customerName, d.contactNumber, totalAmount, size, color, quantity, Pending)
  }
}
