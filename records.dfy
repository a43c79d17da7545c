/**
 * The rows of the relational store, as values. Instants are whole minutes since the epoch
 * and days are day numbers: day `d` starts at minute `d * 1440`.
 */
module Records {
  import opened Wrappers

  const MinutesPerDay: int := 1440

  type Instant = int
  type Day = int

  function DayStart(day: Day): Instant {
    day * MinutesPerDay
  }

  /** `getHours()` of an instant. */
  function HourOf(t: Instant): int {
    (t % MinutesPerDay) / 60
  }

  /** `getMinutes()` of an instant. */
  function MinuteOf(t: Instant): int {
    t % 60
  }

  /** The five appointment states of the `state` enum column. */
  datatype State = PENDING | CONFIRMED | CANCELED | COMPLETED | NOT_ASSISTED

  function StateName(st: State): string {
    match st
    case PENDING => "PENDING"
    case CONFIRMED => "CONFIRMED"
    case CANCELED => "CANCELED"
    case COMPLETED => "COMPLETED"
    case NOT_ASSISTED => "NOT_ASSISTED"
  }

  /** The enum column accepts exactly the five names; anything else is refused by the store. */
  function ParseState(s: string): (r: Option<State>)
    ensures r.Some? ==> StateName(r.value) == s
  {
    if s == "PENDING" then Some(PENDING)
    else if s == "CONFIRMED" then Some(CONFIRMED)
    else if s == "CANCELED" then Some(CANCELED)
    else if s == "COMPLETED" then Some(COMPLETED)
    else if s == "NOT_ASSISTED" then Some(NOT_ASSISTED)
    else None
  }

  lemma ParseStateName(st: State)
    ensures ParseState(StateName(st)) == Some(st)
  {
  }

  /** The user `role` enum column. */
  datatype Role = ADMIN | CUSTOMER

  function RoleName(r: Role): string {
    match r
    case ADMIN => "ADMIN"
    case CUSTOMER => "CUSTOMER"
  }

  function ParseRole(s: string): (r: Option<Role>)
    ensures r.Some? ==> RoleName(r.value) == s
  {
    if s == "ADMIN" then Some(ADMIN) else if s == "CUSTOMER" then Some(CUSTOMER) else None
  }

  /** A booked session: a day bucket, an absolute [start, end) range, its client and its service. */
  datatype Appointment = Appointment(
    date: Day,
    start: Instant,
    end: Instant,
    clientId: int,
    serviceId: int,
    state: State,
    sessionType: string)

  /** A blocked day (`fullDay`, no times) or a blocked window of a day. */
  datatype BlockedSlot = BlockedSlot(
    date: Day,
    fullDay: bool,
    start: Option<Instant>,
    end: Option<Instant>,
    reason: Option<string>)

  datatype Service = Service(name: string, description: Option<string>, disabled: bool)

  /** A stored password is a hash; the hash function itself is not part of this model. */
  datatype Password = Hashed(plain: string)

  datatype User = User(name: string, email: string, password: Password, role: Role)

  datatype RefreshToken = RefreshToken(userId: int)

  datatype Product = Product(name: string)

  datatype Order = Order(userId: int)

  datatype OrderProduct = OrderProduct(orderId: int, productId: int, quantity: int)

  /** The decoded access token that authentication attaches to a request (`req.user`). */
  datatype Principal = Principal(userId: int, role: string)

  /** The ids of the table below `n`, ascending. */
  function IdsBelow<V>(m: map<int, V>, n: nat): (r: seq<int>)
    ensures forall k :: 0 <= k < |r| ==> r[k] in m && 0 <= r[k] < n
    ensures forall id :: id in m && 0 <= id < n ==> id in r
    ensures forall i, j :: 0 <= i < j < |r| ==> r[i] < r[j]
  {
    if n == 0 then []
    else if n - 1 in m then IdsBelow(m, n - 1) + [n - 1]
    else IdsBelow(m, n - 1)
  }

  /** Every key of a table is a natural number below its auto-increment counter. */
  predicate KeysBelow<V>(m: map<int, V>, next: int) {
    0 <= next && forall id :: id in m ==> 0 <= id < next
  }
}

/** The relational store, one table per field, each keyed by its auto-increment id. */
module Store {
  import opened Records

  class Db {
    var appointments: map<int, Appointment>
    var blocks: map<int, BlockedSlot>
    var services: map<int, Service>
    var users: map<int, User>
    var refreshTokens: map<int, RefreshToken>
    var products: map<int, Product>
    var orders: map<int, Order>
    var orderProducts: map<int, OrderProduct>
    var nextAppointmentId: int
    var nextBlockId: int
    var nextServiceId: int
    var nextOrderId: int
    var nextOrderProductId: int
    var nextUserId: int

    /** Auto-increment counters stay ahead of every stored id. */
    ghost predicate Counters()
      reads this
    {
      && KeysBelow(appointments, nextAppointmentId)
      && KeysBelow(blocks, nextBlockId)
      && KeysBelow(services, nextServiceId)
      && KeysBelow(orders, nextOrderId)
      && KeysBelow(orderProducts, nextOrderProductId)
      && KeysBelow(users, nextUserId)
    }

    constructor ()
      ensures Counters()
      ensures appointments == map[] && blocks == map[] && services == map[] && users == map[]
      ensures refreshTokens == map[] && products == map[] && orders == map[] && orderProducts == map[]
    {
      appointments, blocks, services, users := map[], map[], map[], map[];
      refreshTokens, products, orders, orderProducts := map[], map[], map[], map[];
      nextAppointmentId, nextBlockId, nextServiceId, nextOrderId, nextOrderProductId, nextUserId := 1, 1, 1, 1, 1, 1;
    }
  }
}
