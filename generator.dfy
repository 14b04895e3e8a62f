/**
 * The unit of work of the generator: for each of `ordersPerTask` orders, a
 * fresh `Order`, its New Order Single, then Execution Reports until the
 * order is complete, every message appended to one list of rows.
 *
 * The random draws of each order are a parameter. The driver's precondition
 * asks that every order's draws drain it, which is how a run of the inner
 * loop that stops looks; the model makes no claim about runs that do not stop.
 */
module Generator {
  import opened FixEncoding
  import opened OrderSpec
  import opened Orders
  import opened Lifecycle

  /**
   * One call of the flat-map function, with an unbounded counter: the rows
   * are the wire texts of the events of every order, order after order.
   */
  method GenerateFIXMessages(ordersPerTask: int, draws: seq<OrderDraw>) returns (messages: seq<Row>)
    requires |draws| == (if ordersPerTask > 0 then ordersPerTask else 0)
    requires AllValid(draws)
    requires forall i :: 0 <= i < |draws| ==> Terminating(draws[i])
    ensures messages == RenderAll(TaskEvents(draws))
  {
    messages := [];
    var i := 0;
    while i < ordersPerTask
      invariant 0 <= i <= |draws|
      invariant messages == RenderAll(TaskEvents(draws[..i]))
      decreases ordersPerTask - i
    {
      var ms := OrderMessages(draws[i]);
      TaskEventsSnoc(draws, i);
      RenderAllAppend(TaskEvents(draws[..i]), OrderEvents(draws[i]));
      messages := messages + ms;
      i := i + 1;
    }
    assert draws[..i] == draws;
  }

  /**
   * The body of the outer loop: a new `Order` and its New Order Single,
   * then the reports until it is complete.
   */
  method OrderMessages(d: OrderDraw) returns (messages: seq<Row>)
    requires Terminating(d)
    ensures messages == RenderAll(OrderEvents(d))
  {
    var order := new Order(d.clordid, d.orderid, d.qty, d.symbolIndex, d.clock);
    var m := order.NewOrderSingleFIX(d.newOrderTimeStep);
    var reports := ReportsUntilComplete(order, d.reports);
    OrderRows(d, m, reports);
    messages := [Row(m)] + reports;
  }

  /** `while (!newOrder.isComplete())`: one Execution Report per draw, until nothing is left. */
  method ReportsUntilComplete(order: Order, ds: seq<ReportDraw>) returns (messages: seq<Row>)
    requires order.Valid() && ValidReports(ds) && Drains(order.State(), ds)
    modifies order
    ensures order.Valid() && order.IsComplete()
    ensures order.State() == AfterReports(old(order.State()), ds)
    ensures messages == RenderAll(ReportsFrom(old(order.State()), ds))
  {
    ghost var first := order.State();
    ghost var events: seq<Event> := [];
    messages := [];
    assert ds[..0] == [];
    var j := 0;
    while !order.IsComplete()
      invariant 0 <= j <= |ds|
      invariant order.Valid() && order.State() == AfterReports(first, ds[..j])
      invariant Drains(order.State(), ds[j..])
      invariant events == ReportsFrom(first, ds[..j])
      invariant messages == RenderAll(events)
      decreases |ds| - j
    {
      ghost var e := ReportEvent(order.State(), ds[j]);
      assert ds[..j + 1] == ds[..j] + [ds[j]];
      assert ds[j..][1..] == ds[j + 1..];
      ReportsFromSnoc(first, ds[..j], ds[j]);
      var m := order.NextExecutionReportFIX(ds[j]);
      RenderAllSnoc(messages, events, m, e);
      messages := messages + [Row(m)];
      events := events + [e];
      j := j + 1;
    }
    assert ds[..j] == ds;
  }

  // ----- The counter as written -----

  const Int32Min: int := -0x8000_0000
  const Int32Max: int := 0x7fff_ffff

  /** The value of a Java `int` counter started at 0 after `n` increments, with two's-complement wrap-around. */
  function Int32CounterAfter(n: nat): (c: int)
    ensures Int32Min <= c <= Int32Max
    ensures n <= Int32Max ==> c == n
  {
    (n + 0x8000_0000) % 0x1_0000_0000 - 0x8000_0000
  }

  /**
   * The loop compares an `int` counter with a `long` bound: once the bound
   * exceeds the largest `int`, the guard holds after every number of
   * iterations, so the loop never exits.
   */
  lemma AsWrittenCounterNeverExits(ordersPerTask: int, n: nat)
    requires ordersPerTask > Int32Max
    ensures Int32CounterAfter(n) < ordersPerTask
  {
  }

  /** After 2^31 increments the counter is negative, far from the bound. */
  lemma AsWrittenCounterWraps()
    ensures Int32CounterAfter(Int32Max) == Int32Max
    ensures Int32CounterAfter(Int32Max + 1) == Int32Min
  {
  }
}
