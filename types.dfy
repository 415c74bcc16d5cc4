/** The entity records and the two enumerations of the restaurant's database. Money is kept
    in integer paise (hundredths of a rupee), so the two-decimal columns are exact; timestamps
    are abstract ticks of a clock that only moves forward. */
module Types {
  import opened Common

  /** An amount of money in paise. */
  type Paise = int

  /** A point in time: a tick of the database clock. */
  type Timestamp = nat

  datatype OrderStatus = Pending | Preparing | Ready | Delivered | Cancelled

  datatype OrderType = DineIn | Takeaway

  /** The five statuses in the order the status union type lists them. */
  const AllStatuses: seq<OrderStatus> := [Pending, Preparing, Ready, Delivered, Cancelled]

  /** The text the database and the JSON bodies use for a status. */
  function StatusName(s: OrderStatus): string
  {
    match s
    case Pending => "pending"
    case Preparing => "preparing"
    case Ready => "ready"
    case Delivered => "delivered"
    case Cancelled => "cancelled"
  }

  /** Reads a status from its text; any other text is no status. */
  function ParseStatus(t: string): (r: Option<OrderStatus>)
    ensures r.Some? ==> StatusName(r.value) == t
  {
    if t == "pending" then Some(Pending)
    else if t == "preparing" then Some(Preparing)
    else if t == "ready" then Some(Ready)
    else if t == "delivered" then Some(Delivered)
    else if t == "cancelled" then Some(Cancelled)
    else None
  }

  function TypeName(t: OrderType): string
  {
    match t
    case DineIn => "dine-in"
    case Takeaway => "takeaway"
  }

  function ParseType(t: string): (r: Option<OrderType>)
    ensures r.Some? ==> TypeName(r.value) == t
  {
    if t == "dine-in" then Some(DineIn)
    else if t == "takeaway" then Some(Takeaway)
    else None
  }

  /** OrderStatus has exactly five values, each listed once in AllStatuses, and their names
      are exactly the five strings ParseStatus accepts. */
  lemma StatusesExactlyFive()
    ensures |AllStatuses| == 5
    ensures forall i, j :: 0 <= i < j < 5 ==> AllStatuses[i] != AllStatuses[j]
    ensures forall s: OrderStatus :: s in AllStatuses
    ensures forall s: OrderStatus :: ParseStatus(StatusName(s)) == Some(s)
    ensures forall t :: ParseStatus(t).Some? <==> t in {"pending", "preparing", "ready", "delivered", "cancelled"}
  {
    forall s: OrderStatus ensures s in AllStatuses {
      match s
      case Pending => assert AllStatuses[0] == s;
      case Preparing => assert AllStatuses[1] == s;
      case Ready => assert AllStatuses[2] == s;
      case Delivered => assert AllStatuses[3] == s;
      case Cancelled => assert AllStatuses[4] == s;
    }
  }

  /** OrderType has exactly two values, and ParseType accepts exactly their names. */
  lemma TypesExactlyTwo()
    ensures forall t: OrderType :: t.DineIn? || t.Takeaway?
    ensures DineIn != Takeaway
    ensures forall t: OrderType :: ParseType(TypeName(t)) == Some(t)
    ensures forall t :: ParseType(t).Some? <==> t == "dine-in" || t == "takeaway"
  {
  }

  /** A row of `categories`. */
  datatype Category = Category(
    categoryId: nat,
    name: string,
    description: Option<string>,
    createdAt: Timestamp)

  /** A row of `menu_items`; it references one category. */
  datatype MenuItem = MenuItem(
    menuItemId: nat,
    categoryId: int,
    name: string,
    description: Option<string>,
    price: Paise,
    isAvailable: bool,
    createdAt: Timestamp,
    updatedAt: Timestamp)

  /** A row of `customers`. */
  datatype Customer = Customer(
    customerId: nat,
    name: string,
    phone: string,
    email: Option<string>,
    createdAt: Timestamp)

  /** A row of `orders`; it references one customer. The order type is kept as the text the
      request carried, because order creation does not check it against OrderType. */
  datatype Order = Order(
    orderId: nat,
    customerId: int,
    orderDate: Timestamp,
    totalAmount: Paise,
    status: OrderStatus,
    orderType: string,
    notes: Option<string>,
    createdAt: Timestamp,
    updatedAt: Timestamp)

  /** A row of `order_items`; it references one order and one menu item. */
  datatype OrderItem = OrderItem(
    orderItemId: nat,
    orderId: int,
    menuItemId: int,
    quantity: int,
    unitPrice: Paise,
    subtotal: Paise)
}
