/** The record types of the client vault: users, clients, orders with their
    items, custom-field definitions and the dashboard statistics.
    Money (prices, totals, revenue) is an integer number of cents; timestamps
    and ids are opaque strings supplied by the caller. */
module Types {

  datatype Option<+T> = None | Some(value: T) {
    function GetOr(default: T): T {
      match this
      case Some(v) => v
      case None => default
    }
  }

  datatype User = User(id: string, username: string, passwordHash: string, createdAt: string)

  datatype FieldType = Text | Number | Date | Email | Phone | Select | Checkbox

  datatype EntityType = ClientEntity | OrderEntity

  datatype CustomField = CustomField(
    id: string,
    name: string,
    fieldType: FieldType,
    entityType: EntityType,
    required: bool,
    options: Option<seq<string>>,
    description: Option<string>,
    createdAt: string)

  /** A value stored in a record's custom-field mapping (untyped in the source). */
  datatype FieldValue = TextValue(s: string) | NumberValue(n: int) | BoolValue(b: bool)

  datatype Client = Client(
    id: string,
    name: string,
    email: string,
    phone: string,
    address: Option<string>,
    city: Option<string>,
    state: Option<string>,
    zipCode: Option<string>,
    notes: Option<string>,
    createdAt: string,
    updatedAt: string,
    customFields: map<string, FieldValue>)

  datatype OrderStatus = Pending | Processing | Completed | Cancelled | Delivered

  datatype OrderItem = OrderItem(
    id: string,
    name: string,
    quantity: int,
    price: int,
    description: Option<string>)

  datatype Order = Order(
    id: string,
    clientId: string,
    orderNumber: string,
    status: OrderStatus,
    items: seq<OrderItem>,
    total: int,
    notes: Option<string>,
    createdAt: string,
    updatedAt: string,
    customFields: map<string, FieldValue>)

  datatype TopClient = TopClient(name: string, orders: nat, revenue: int)

  datatype DashboardStats = DashboardStats(
    totalClients: nat,
    totalOrders: nat,
    totalRevenue: int,
    pendingOrders: nat,
    completedOrders: nat,
    topClients: seq<TopClient>)

  /** Id accessors, passed to the generic by-id helpers of module Records. */
  function ClientIdOf(c: Client): string { c.id }
  function OrderIdOf(o: Order): string { o.id }
  function OrderClientIdOf(o: Order): string { o.clientId }
  function CustomFieldIdOf(f: CustomField): string { f.id }
}
