/**
 * The shared record shapes and enumerations of the storefront: users,
 * products with their reviews and ratings, orders with their line items and
 * shipping address. Enumerations carry their wire names and a parser from
 * the wire name, so that "exactly these strings" is a checked statement.
 */
module Types {
  import opened Wrappers

  type UserId = nat
  type ProductId = nat
  type OrderId = nat
  /** Milliseconds since the epoch, as `Date.now()` gives them. */
  type Timestamp = int

  datatype Role = Customer | Admin

  function RoleName(r: Role): string {
    match r
    case Customer => "user"
    case Admin => "admin"
  }

  /** A role is exactly `'user' | 'admin'`. */
  function ParseRole(s: string): (r: Option<Role>)
    ensures r.Some? <==> s == "user" || s == "admin"
    ensures r.Some? ==> RoleName(r.value) == s
  {
    if s == "user" then Some(Customer)
    else if s == "admin" then Some(Admin)
    else None
  }

  datatype OrderStatus = Pending | Processing | Shipped | Delivered | Cancelled

  function StatusName(st: OrderStatus): string {
    match st
    case Pending => "pending"
    case Processing => "processing"
    case Shipped => "shipped"
    case Delivered => "delivered"
    case Cancelled => "cancelled"
  }

  const StatusNames: seq<string> := ["pending", "processing", "shipped", "delivered", "cancelled"]

  /** An order status is exactly one of the five lifecycle names. */
  function ParseStatus(s: string): (r: Option<OrderStatus>)
    ensures r.Some? <==> s in StatusNames
    ensures r.Some? ==> StatusName(r.value) == s
  {
    if s == "pending" then Some(Pending)
    else if s == "processing" then Some(Processing)
    else if s == "shipped" then Some(Shipped)
    else if s == "delivered" then Some(Delivered)
    else if s == "cancelled" then Some(Cancelled)
    else None
  }

  datatype PaymentMethod = CreditCard | DebitCard | Paypal | CashOnDelivery

  function PaymentMethodName(m: PaymentMethod): string {
    match m
    case CreditCard => "credit_card"
    case DebitCard => "debit_card"
    case Paypal => "paypal"
    case CashOnDelivery => "cash_on_delivery"
  }

  const PaymentMethodNames: seq<string> := ["credit_card", "debit_card", "paypal", "cash_on_delivery"]

  /** A payment method is exactly one of four names. */
  function ParsePaymentMethod(s: string): (r: Option<PaymentMethod>)
    ensures r.Some? <==> s in PaymentMethodNames
    ensures r.Some? ==> PaymentMethodName(r.value) == s
  {
    if s == "credit_card" then Some(CreditCard)
    else if s == "debit_card" then Some(DebitCard)
    else if s == "paypal" then Some(Paypal)
    else if s == "cash_on_delivery" then Some(CashOnDelivery)
    else None
  }

  datatype PaymentStatus = PaymentPending | PaymentPaid | PaymentFailed

  function PaymentStatusName(p: PaymentStatus): string {
    match p
    case PaymentPending => "pending"
    case PaymentPaid => "paid"
    case PaymentFailed => "failed"
  }

  /** A payment status is exactly pending, paid or failed. */
  function ParsePaymentStatus(s: string): (r: Option<PaymentStatus>)
    ensures r.Some? <==> s == "pending" || s == "paid" || s == "failed"
    ensures r.Some? ==> PaymentStatusName(r.value) == s
  {
    if s == "pending" then Some(PaymentPending)
    else if s == "paid" then Some(PaymentPaid)
    else if s == "failed" then Some(PaymentFailed)
    else None
  }

  /** Every enumeration value survives a trip through its wire name. */
  lemma EnumerationRoundTrips(r: Role, st: OrderStatus, m: PaymentMethod, p: PaymentStatus)
    ensures ParseRole(RoleName(r)) == Some(r)
    ensures ParseStatus(StatusName(st)) == Some(st)
    ensures ParsePaymentMethod(PaymentMethodName(m)) == Some(m)
    ensures ParsePaymentStatus(PaymentStatusName(p)) == Some(p)
  {
  }

  datatype Address = Address(street: string, city: string, state: string, zipCode: string, country: string)

  datatype User = User(
    id: UserId,
    name: string,
    email: string,
    password: string,
    role: Role,
    address: seq<Address>,
    ip: string,
    createdAt: Timestamp,
    updatedAt: Timestamp)

  datatype Review = Review(userId: UserId, rating: real, comment: string, createdAt: Timestamp)

  datatype Ratings = Ratings(average: real, count: int)

  datatype Product = Product(
    id: ProductId,
    name: string,
    description: string,
    price: real,
    category: string,
    brand: string,
    stock: int,
    images: seq<string>,
    ratings: Ratings,
    reviews: seq<Review>,
    createdAt: Timestamp,
    updatedAt: Timestamp)

  /** A line of a placed order: a copy of the product's id, name and price, not a live reference. */
  datatype OrderItem = OrderItem(product: ProductId, name: string, quantity: int, price: real)

  datatype Order = Order(
    id: OrderId,
    user: UserId,
    items: seq<OrderItem>,
    totalAmount: real,
    status: OrderStatus,
    shippingAddress: Address,
    paymentMethod: PaymentMethod,
    paymentStatus: PaymentStatus,
    orderDate: Timestamp,
    trackingUrl: string,
    createdAt: Timestamp,
    updatedAt: Timestamp)

  /** A snapshot of `p` for an order line of `quantity` units. */
  function Snapshot(p: Product, quantity: int): (item: OrderItem)
    ensures item.product == p.id && item.name == p.name && item.price == p.price
    ensures item.quantity == quantity
  {
    OrderItem(p.id, p.name, quantity, p.price)
  }

  /** What the client is shown of a user in the register and login responses. */
  datatype PublicUser = PublicUser(id: UserId, name: string, email: string, role: Role)

  function PublicView(u: User): (v: PublicUser)
    ensures v.id == u.id && v.name == u.name && v.email == u.email && v.role == u.role
  {
    PublicUser(u.id, u.name, u.email, u.role)
  }

  /** A user as loaded with the password deselected, which is what the middleware attaches. */
  datatype Principal = Principal(
    id: UserId,
    name: string,
    email: string,
    role: Role,
    address: seq<Address>,
    ip: string,
    createdAt: Timestamp,
    updatedAt: Timestamp)

  function WithoutPassword(u: User): (p: Principal)
    ensures p.id == u.id && p.role == u.role && p.name == u.name && p.email == u.email
    ensures p.address == u.address && p.ip == u.ip
    ensures p.createdAt == u.createdAt && p.updatedAt == u.updatedAt
  {
    Principal(u.id, u.name, u.email, u.role, u.address, u.ip, u.createdAt, u.updatedAt)
  }
}
