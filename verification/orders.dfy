/** The order record shared by the backend and the frontend, its status
    enumeration, and the per-status tallies both statistics views are built on. */
module Orders {
  import opened Options
  import opened Seqs

  /** A `LocalDateTime`, abstracted to a point on a line: the model only needs
      its order (`>=`, `<=`, `ORDER BY ... DESC`) and its formatted text. */
  type Timestamp = int

  /** The six order states, in declaration order. */
  datatype Status = PENDING | CONFIRMED | PROCESSING | SHIPPED | DELIVERED | CANCELLED

  /** `status.toString()`: the constant's own name. */
  function StatusName(s: Status): (name: string)
    ensures |name| >= 7
    ensures forall i :: 0 <= i < |name| ==> 'A' <= name[i] <= 'Z'
  {
    match s
    case PENDING => "PENDING"
    case CONFIRMED => "CONFIRMED"
    case PROCESSING => "PROCESSING"
    case SHIPPED => "SHIPPED"
    case DELIVERED => "DELIVERED"
    case CANCELLED => "CANCELLED"
  }

  /** `OrderStatus.valueOf(name)`, with `None` where Java throws. */
  function ParseStatus(name: string): (r: Option<Status>)
    ensures r.Some? ==> StatusName(r.value) == name
    ensures r.None? ==> forall st: Status :: StatusName(st) != name
  {
    if name == "PENDING" then Some(PENDING)
    else if name == "CONFIRMED" then Some(CONFIRMED)
    else if name == "PROCESSING" then Some(PROCESSING)
    else if name == "SHIPPED" then Some(SHIPPED)
    else if name == "DELIVERED" then Some(DELIVERED)
    else if name == "CANCELLED" then Some(CANCELLED)
    else None
  }

  /** A status name reads back as that status, and only status names are read. */
  lemma StatusNameRoundTrip(s: Status, name: string)
    ensures ParseStatus(StatusName(s)) == Some(s)
    ensures ParseStatus(name).Some? ==> StatusName(ParseStatus(name).value) == name
  {
  }

  /** One order. `None` is a `null` column / an absent optional property.
      `totalAmount` is the scale-2 decimal amount counted in cents. */
  datatype Order = Order(
    id: Option<int>,
    orderNumber: string,
    customerName: string,
    customerEmail: Option<string>,
    customerPhone: Option<string>,
    totalAmount: int,
    status: Status,
    orderDate: Timestamp,
    description: Option<string>,
    productDetails: Option<string>,
    createdAt: Option<Timestamp>,
    updatedAt: Option<Timestamp>)

  /** 1 for an order in state `st`, 0 otherwise (`o.getStatus() == st ? 1 : 0`). */
  function StatusIndicator(st: Status): Order -> int {
    (o: Order) => if o.status == st then 1 else 0
  }

  function AmountOf(o: Order): int {
    o.totalAmount
  }

  /** The statuses of `orders`, position by position. */
  function Statuses(orders: seq<Order>): (r: seq<Status>)
    ensures |r| == |orders|
    ensures forall i :: 0 <= i < |orders| ==> r[i] == orders[i].status
  {
    seq(|orders|, i requires 0 <= i < |orders| => orders[i].status)
  }

  /** How many of `orders` are in state `st`. */
  function CountStatus(orders: seq<Order>, st: Status): (n: nat)
    ensures n <= |orders|
  {
    SumOfBounds(orders, StatusIndicator(st), 0, 1);
    SumOf(orders, StatusIndicator(st))
  }

  /** The sum of the amounts of `orders`, exactly (no floating point). */
  function TotalAmount(orders: seq<Order>): int {
    SumOf(orders, AmountOf)
  }

  /** The tally is the multiplicity of `st` among the orders' statuses. */
  lemma {:induction false} CountStatusIsMultiplicity(orders: seq<Order>, st: Status)
    ensures CountStatus(orders, st) == multiset(Statuses(orders))[st]
  {
    if |orders| > 0 {
      CountStatusIsMultiplicity(orders[1..], st);
      assert Statuses(orders) == [orders[0].status] + Statuses(orders[1..]);
    } else {
      assert Statuses(orders) == [];
    }
  }

  /** Tallies over a concatenation add up. */
  lemma CountStatusAppend(a: seq<Order>, b: seq<Order>, st: Status)
    ensures CountStatus(a + b, st) == CountStatus(a, st) + CountStatus(b, st)
  {
    SumOfAppend(a, b, StatusIndicator(st));
  }

  /** Reordering the orders changes neither a tally nor the money total. */
  lemma PermutationKeepsTallies(a: seq<Order>, b: seq<Order>)
    requires multiset(a) == multiset(b)
    ensures forall st :: CountStatus(a, st) == CountStatus(b, st)
    ensures TotalAmount(a) == TotalAmount(b)
  {
    forall st ensures CountStatus(a, st) == CountStatus(b, st) {
      SumOfPermutation(a, b, StatusIndicator(st));
    }
    SumOfPermutation(a, b, AmountOf);
  }

  /** Every order is in exactly one of the six states. */
  lemma {:induction false} StatusPartition(orders: seq<Order>)
    ensures CountStatus(orders, PENDING) + CountStatus(orders, CONFIRMED)
          + CountStatus(orders, PROCESSING) + CountStatus(orders, SHIPPED)
          + CountStatus(orders, DELIVERED) + CountStatus(orders, CANCELLED) == |orders|
  {
    if |orders| > 0 {
      StatusPartition(orders[1..]);
    }
  }

  /** A state has a zero tally exactly when no order is in it. */
  lemma {:induction false} CountStatusZero(orders: seq<Order>, st: Status)
    ensures CountStatus(orders, st) == 0 <==> forall i :: 0 <= i < |orders| ==> orders[i].status != st
  {
    if |orders| > 0 {
      CountStatusZero(orders[1..], st);
      assert forall i :: 1 <= i < |orders| ==> orders[i] == orders[1..][i - 1];
    }
  }
}
