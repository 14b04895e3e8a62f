/**
 * The lifecycle of an order as a sequence of events, given every random
 * draw the generator makes for it, and what that sequence is like: one New
 * Order Single first, then Execution Reports whose quantities add up, whose
 * leaves quantity never grows and whose times strictly increase, the last of
 * them reporting the order filled.
 *
 * Whether the generator stops for an order depends on the draws: a fill of
 * zero leaves the order as it was. `Drains` holds of exactly the draw
 * sequences that a run which stops consumes; nothing here claims that every
 * run stops.
 */
module Lifecycle {
  import opened Wrappers
  import opened Decimal
  import opened FixEncoding
  import opened OrderSpec

  /** Every draw the generator makes for one order, in the order it makes them. */
  datatype OrderDraw = OrderDraw(
    clordid: string,            // UUID.randomUUID()
    orderid: string,            // UUID.randomUUID()
    qty: int,                   // random.nextInt(10000)
    symbolIndex: int,           // random.nextInt(Symbol.values().length)
    clock: int,                 // System.currentTimeMillis()
    newOrderTimeStep: int,      // random.nextInt(10) + 1 in newOrderSingleFIX
    reports: seq<ReportDraw>)   // the draws of each nextExecutionReportFIX call

  predicate ValidReports(ds: seq<ReportDraw>) {
    forall i :: 0 <= i < |ds| ==> ValidReportDraw(ds[i])
  }

  predicate ValidOrderDraw(d: OrderDraw) {
    0 <= d.qty < MaxOrderQty && 0 <= d.symbolIndex < |Symbols|
    && ValidTimeStep(d.newOrderTimeStep) && ValidReports(d.reports)
  }

  /** The reports emitted from state `s` on, one per draw. */
  function ReportsFrom(s: OrderState, ds: seq<ReportDraw>): (es: seq<Event>)
    requires Inv(s) && ValidReports(ds)
    ensures |es| == |ds| && forall k :: 0 <= k < |es| ==> es[k].ExecutionReport?
    decreases |ds|
  {
    if ds == [] then []
    else [ReportEvent(s, ds[0])] + ReportsFrom(AfterReport(s, ds[0]), ds[1..])
  }

  /** The state after the reports of `ds`. */
  function AfterReports(s: OrderState, ds: seq<ReportDraw>): (r: OrderState)
    requires Inv(s) && ValidReports(ds)
    ensures Inv(r) && r.orderqty == s.orderqty && r.leavesqty <= s.leavesqty
    decreases |ds|
  {
    if ds == [] then s else AfterReports(AfterReport(s, ds[0]), ds[1..])
  }

  /**
   * `while (!isComplete())` consumes exactly `ds`: the order is open before
   * each draw and complete after the last.
   */
  predicate Drains(s: OrderState, ds: seq<ReportDraw>)
    requires Inv(s) && ValidReports(ds)
    decreases |ds|
  {
    if ds == [] then s.leavesqty == 0
    else s.leavesqty > 0 && Drains(AfterReport(s, ds[0]), ds[1..])
  }

  /** The state the constructor leaves. */
  function Start(d: OrderDraw): OrderState
    requires ValidOrderDraw(d)
  {
    Create(d.clordid, d.orderid, d.qty, d.symbolIndex, d.clock)
  }

  /** The state after the New Order Single. */
  function Opened(d: OrderDraw): (s: OrderState)
    requires ValidOrderDraw(d)
    ensures Inv(s) && s.leavesqty == s.orderqty == d.qty
  {
    AfterTimeStep(Start(d), d.newOrderTimeStep)
  }

  /** The events of one order: the New Order Single, then one report per draw. */
  function OrderEvents(d: OrderDraw): seq<Event>
    requires ValidOrderDraw(d)
  {
    [NewOrderEvent(Start(d))] + ReportsFrom(Opened(d), d.reports)
  }

  /** The draws of an order for which the generator's inner loop stops. */
  predicate Terminating(d: OrderDraw) {
    ValidOrderDraw(d) && Drains(Opened(d), d.reports)
  }

  predicate AllValid(ds: seq<OrderDraw>) {
    forall i :: 0 <= i < |ds| ==> ValidOrderDraw(ds[i])
  }

  /** The events of a unit of work: each order's events, order after order. */
  function TaskEvents(ds: seq<OrderDraw>): seq<Event>
    requires AllValid(ds)
  {
    if ds == [] then [] else OrderEvents(ds[0]) + TaskEvents(ds[1..])
  }

  /** A row of the output: `RowFactory.create(message)`, one string column. */
  datatype Row = Row(message: string)

  /** The rows of the output: one wire text per event. */
  function RenderAll(es: seq<Event>): (ms: seq<Row>)
    ensures |ms| == |es|
  {
    seq(|es|, i requires 0 <= i < |es| => RowOf(es[i]))
  }

  // ----- Properties of the reports of one order -----

  /** One more draw adds one report, taken from the state the earlier draws left. */
  lemma {:induction false} ReportsFromSnoc(s: OrderState, ds: seq<ReportDraw>, x: ReportDraw)
    requires Inv(s) && ValidReports(ds) && ValidReportDraw(x)
    ensures ValidReports(ds + [x])
    ensures ReportsFrom(s, ds + [x]) == ReportsFrom(s, ds) + [ReportEvent(AfterReports(s, ds), x)]
    ensures AfterReports(s, ds + [x]) == AfterReport(AfterReports(s, ds), x)
    decreases |ds|
  {
    if ds == [] {
      assert ([] + [x])[1..] == [];
      assert [] + [x] == [x];
    } else {
      assert (ds + [x])[1..] == ds[1..] + [x];
      ReportsFromSnoc(AfterReport(s, ds[0]), ds[1..], x);
    }
  }

  /** Every report keeps the identity, accounts for the whole quantity and states its status truthfully. */
  lemma {:induction false} ReportsAccount(s: OrderState, ds: seq<ReportDraw>)
    requires Inv(s) && ValidReports(ds)
    ensures forall k :: 0 <= k < |ds| ==>
      var e := ReportsFrom(s, ds)[k];
      e.ExecutionReport? &&
      e.orderid == s.orderid && e.clordid == s.clordid && e.symbol == s.symbol &&
      e.leavesqty + e.cumqty == s.orderqty &&
      0 <= e.leavesqty <= s.leavesqty && 0 <= e.cumqty <= s.orderqty &&
      (e.ordstatus == Filled <==> e.leavesqty == 0) &&
      s.transacttime + k <= e.transacttime <= s.transacttime + MaxTimeStep * k &&
      e.execid == ds[k].execid && e.avgpx == ds[k].avgpx
    decreases |ds|
  {
    if ds != [] {
      var s' := AfterReport(s, ds[0]);
      ReportsAccount(s', ds[1..]);
      var es := ReportsFrom(s, ds);
      forall k | 0 <= k < |ds|
        ensures var e := es[k];
          e.ExecutionReport? &&
          e.orderid == s.orderid && e.clordid == s.clordid && e.symbol == s.symbol &&
          e.leavesqty + e.cumqty == s.orderqty &&
          0 <= e.leavesqty <= s.leavesqty && 0 <= e.cumqty <= s.orderqty &&
          (e.ordstatus == Filled <==> e.leavesqty == 0) &&
          s.transacttime + k <= e.transacttime <= s.transacttime + MaxTimeStep * k &&
          e.execid == ds[k].execid && e.avgpx == ds[k].avgpx
      {
        if k > 0 {
          assert es[k] == ReportsFrom(s', ds[1..])[k - 1];
          assert ds[1..][k - 1] == ds[k];
        }
      }
    }
  }

  /** Across the reports, the leaves quantity never grows and the time strictly increases. */
  lemma {:induction false} ReportsMonotone(s: OrderState, ds: seq<ReportDraw>)
    requires Inv(s) && ValidReports(ds)
    ensures forall j, k :: 0 <= j < k < |ds| ==>
      ReportsFrom(s, ds)[k].leavesqty <= ReportsFrom(s, ds)[j].leavesqty &&
      ReportsFrom(s, ds)[j].transacttime < ReportsFrom(s, ds)[k].transacttime
    decreases |ds|
  {
    if ds != [] {
      var s' := AfterReport(s, ds[0]);
      var es := ReportsFrom(s, ds);
      var rest := ReportsFrom(s', ds[1..]);
      ReportsMonotone(s', ds[1..]);
      ReportsAccount(s', ds[1..]);
      forall j, k | 0 <= j < k < |ds|
        ensures es[k].leavesqty <= es[j].leavesqty && es[j].transacttime < es[k].transacttime
      {
        assert es[k] == rest[k - 1];
        if j > 0 {
          assert es[j] == rest[j - 1];
        }
      }
    }
  }

  /** When the draws drain the order, only the last report says Filled, with nothing left. */
  lemma {:induction false} DrainedReportsEnd(s: OrderState, ds: seq<ReportDraw>)
    requires Inv(s) && ValidReports(ds) && Drains(s, ds)
    ensures ds == [] <==> s.leavesqty == 0
    ensures forall k :: 0 <= k < |ds| ==>
      (ReportsFrom(s, ds)[k].leavesqty == 0 <==> k == |ds| - 1) &&
      (ReportsFrom(s, ds)[k].ordstatus == Filled <==> k == |ds| - 1)
    decreases |ds|
  {
    if ds != [] {
      var s' := AfterReport(s, ds[0]);
      var es := ReportsFrom(s, ds);
      DrainedReportsEnd(s', ds[1..]);
      forall k | 0 <= k < |ds|
        ensures (es[k].leavesqty == 0 <==> k == |ds| - 1) && (es[k].ordstatus == Filled <==> k == |ds| - 1)
      {
        if k > 0 {
          assert es[k] == ReportsFrom(s', ds[1..])[k - 1];
        }
      }
    }
  }

  /** A draining sequence has at least one draw per 2999 units of quantity: a fill is below 3000. */
  lemma {:induction false} DrainsNeedsDraws(s: OrderState, ds: seq<ReportDraw>)
    requires Inv(s) && ValidReports(ds) && Drains(s, ds)
    ensures s.leavesqty <= (MaxFillQty - 1) * |ds|
    decreases |ds|
  {
    if ds != [] {
      DrainsNeedsDraws(AfterReport(s, ds[0]), ds[1..]);
    }
  }

  /** Fills of zero change nothing: an open order stays open after any number of them. */
  lemma {:induction false} StalledOrderNeverDrains(s: OrderState, ds: seq<ReportDraw>)
    requires Inv(s) && ValidReports(ds)
    requires forall i :: 0 <= i < |ds| ==> ds[i].fillQty == 0
    ensures AfterReports(s, ds).leavesqty == s.leavesqty
    ensures s.leavesqty > 0 ==> !Drains(s, ds)
    decreases |ds|
  {
    if ds != [] {
      StalledOrderNeverDrains(AfterReport(s, ds[0]), ds[1..]);
    }
  }

  /** `n` copies of `d`. */
  function Repeat(d: ReportDraw, n: nat): (ds: seq<ReportDraw>)
    ensures |ds| == n && forall i :: 0 <= i < n ==> ds[i] == d
  {
    if n == 0 then [] else [d] + Repeat(d, n - 1)
  }

  /** The number of reports is not bounded: any number of zero fills may come before the last one. */
  lemma {:induction false} ReportCountUnbounded(s: OrderState, stall: ReportDraw, last: ReportDraw, n: nat)
    requires Inv(s) && 0 < s.leavesqty
    requires ValidReportDraw(stall) && stall.fillQty == 0
    requires ValidReportDraw(last) && s.leavesqty <= last.fillQty
    ensures ValidReports(Repeat(stall, n) + [last])
    ensures Drains(s, Repeat(stall, n) + [last])
    ensures |ReportsFrom(s, Repeat(stall, n) + [last])| == n + 1
    decreases n
  {
    var ds := Repeat(stall, n) + [last];
    if n > 0 {
      var s' := AfterReport(s, stall);
      assert ds[1..] == Repeat(stall, n - 1) + [last];
      ReportCountUnbounded(s', stall, last, n - 1);
    } else {
      assert ds == [last];
      assert ds[1..] == [];
    }
  }

  // ----- Properties of one order's events -----

  /**
   * The events of an order: exactly one New Order Single, first, carrying
   * the drawn quantity; then the reports, whose quantities add up to it and
   * whose leaves quantity never grows; times strictly increase throughout.
   */
  lemma OrderEventsOrdered(d: OrderDraw)
    requires ValidOrderDraw(d)
    ensures var es := OrderEvents(d);
      |es| == 1 + |d.reports| &&
      es[0].NewOrderSingle? && es[0].orderqty == d.qty && es[0].clordid == d.clordid &&
      es[0].transacttime == d.clock && es[0].symbol == Symbols[d.symbolIndex] &&
      (forall k :: 1 <= k < |es| ==>
        es[k].ExecutionReport? && es[k].clordid == d.clordid && es[k].orderid == d.orderid &&
        es[k].leavesqty + es[k].cumqty == d.qty && 0 <= es[k].leavesqty <= d.qty) &&
      (forall j, k :: 1 <= j < k < |es| ==> es[k].leavesqty <= es[j].leavesqty) &&
      (forall j, k :: 0 <= j < k < |es| ==> es[j].transacttime < es[k].transacttime)
  {
    var s := Opened(d);
    var es := OrderEvents(d);
    var rs := ReportsFrom(s, d.reports);
    ReportsAccount(s, d.reports);
    ReportsMonotone(s, d.reports);
    assert forall k :: 1 <= k < |es| ==> es[k] == rs[k - 1];
    forall j, k | 0 <= j < k < |es|
      ensures es[j].transacttime < es[k].transacttime
    {
      if j > 0 {
        assert es[j] == rs[j - 1] && es[k] == rs[k - 1];
      } else {
        assert es[k] == rs[k - 1];
        assert s.transacttime + (k - 1) <= rs[k - 1].transacttime;
      }
    }
  }

  /**
   * When the inner loop stops for these draws: an order of quantity 0 gets
   * no report at all; any other order gets at least one, only its last
   * report says Filled (tag 39 = 2) and that one leaves nothing (tag 151 = 0).
   */
  lemma OrderEventsComplete(d: OrderDraw)
    requires Terminating(d)
    ensures var es := OrderEvents(d);
      (d.qty == 0 <==> |es| == 1) &&
      (d.qty > 0 ==>
        |es| >= 2 &&
        es[|es| - 1].ExecutionReport? && es[|es| - 1].leavesqty == 0 && es[|es| - 1].ordstatus == Filled &&
        es[|es| - 1].cumqty == d.qty &&
        forall k :: 1 <= k < |es| - 1 ==>
          es[k].ExecutionReport? && es[k].ordstatus == PartiallyFilled && es[k].leavesqty > 0)
  {
    var s := Opened(d);
    var es := OrderEvents(d);
    var rs := ReportsFrom(s, d.reports);
    DrainedReportsEnd(s, d.reports);
    ReportsAccount(s, d.reports);
    assert forall k :: 1 <= k < |es| ==> es[k] == rs[k - 1];
  }

  // ----- Properties of a unit of work -----

  /** Orders split between units of work give the same events, in the same order, as one unit. */
  lemma {:induction false} TaskEventsConcat(a: seq<OrderDraw>, b: seq<OrderDraw>)
    requires AllValid(a) && AllValid(b)
    ensures AllValid(a + b)
    ensures TaskEvents(a + b) == TaskEvents(a) + TaskEvents(b)
  {
    if a != [] {
      assert (a + b)[1..] == a[1..] + b;
      TaskEventsConcat(a[1..], b);
    } else {
      assert a + b == b;
    }
  }

  /** The events of the orders up to and including the `i`th. */
  lemma TaskEventsSnoc(ds: seq<OrderDraw>, i: int)
    requires AllValid(ds) && 0 <= i < |ds|
    ensures AllValid(ds[..i]) && AllValid(ds[..i + 1])
    ensures TaskEvents(ds[..i + 1]) == TaskEvents(ds[..i]) + OrderEvents(ds[i])
  {
    assert ds[..i + 1] == ds[..i] + [ds[i]];
    assert [ds[i]][1..] == [];
    TaskEventsConcat(ds[..i], [ds[i]]);
  }

  /** The number of New Order Single events in `es`. */
  function NewOrderCount(es: seq<Event>): nat {
    if es == [] then 0 else (if es[0].NewOrderSingle? then 1 else 0) + NewOrderCount(es[1..])
  }

  lemma {:induction false} NewOrderCountAppend(a: seq<Event>, b: seq<Event>)
    ensures NewOrderCount(a + b) == NewOrderCount(a) + NewOrderCount(b)
  {
    if a != [] {
      assert (a + b)[1..] == a[1..] + b;
      NewOrderCountAppend(a[1..], b);
    } else {
      assert a + b == b;
    }
  }

  lemma {:induction false} NoNewOrderInReports(s: OrderState, ds: seq<ReportDraw>)
    requires Inv(s) && ValidReports(ds)
    ensures NewOrderCount(ReportsFrom(s, ds)) == 0
    decreases |ds|
  {
    if ds != [] {
      NoNewOrderInReports(AfterReport(s, ds[0]), ds[1..]);
    }
  }

  /** A unit of work emits exactly one New Order Single per order and at least one row per order. */
  lemma {:induction false} TaskEventsCount(ds: seq<OrderDraw>)
    requires AllValid(ds)
    ensures NewOrderCount(TaskEvents(ds)) == |ds|
    ensures |TaskEvents(ds)| >= |ds|
  {
    if ds != [] {
      var d := ds[0];
      TaskEventsCount(ds[1..]);
      NoNewOrderInReports(Opened(d), d.reports);
      NewOrderCountAppend([NewOrderEvent(Start(d))], ReportsFrom(Opened(d), d.reports));
      NewOrderCountAppend(OrderEvents(d), TaskEvents(ds[1..]));
    }
  }

  /** The row of one event. */
  function RowOf(e: Event): Row {
    Row(Render(e))
  }

  lemma RenderAllAppend(a: seq<Event>, b: seq<Event>)
    ensures RenderAll(a + b) == RenderAll(a) + RenderAll(b)
  {
    MapAppend(RowOf, a, b);
  }

  lemma MapAppend<A, B>(f: A -> B, a: seq<A>, b: seq<A>)
    ensures seq(|a + b|, i requires 0 <= i < |a + b| => f((a + b)[i]))
      == seq(|a|, i requires 0 <= i < |a| => f(a[i])) + seq(|b|, i requires 0 <= i < |b| => f(b[i]))
  {
    var l := seq(|a + b|, i requires 0 <= i < |a + b| => f((a + b)[i]));
    var r := seq(|a|, i requires 0 <= i < |a| => f(a[i])) + seq(|b|, i requires 0 <= i < |b| => f(b[i]));
    forall i | 0 <= i < |l|
      ensures l[i] == r[i]
    {
      if i >= |a| {
        assert (a + b)[i] == b[i - |a|];
      }
    }
  }

  /** The rows of an order: its New Order Single's row, then its reports' rows. */
  lemma OrderRows(d: OrderDraw, m: string, reports: seq<Row>)
    requires ValidOrderDraw(d)
    requires m == Render(NewOrderEvent(Start(d)))
    requires reports == RenderAll(ReportsFrom(Opened(d), d.reports))
    ensures [Row(m)] + reports == RenderAll(OrderEvents(d))
  {
    RenderAllSnoc([], [], m, NewOrderEvent(Start(d)));
    RenderAllAppend([NewOrderEvent(Start(d))], ReportsFrom(Opened(d), d.reports));
  }

  /** Appending the row of `e` to the rows of `es` gives the rows of `es + [e]`. */
  lemma RenderAllSnoc(ms: seq<Row>, es: seq<Event>, m: string, e: Event)
    requires ms == RenderAll(es) && m == Render(e)
    ensures ms + [Row(m)] == RenderAll(es + [e])
  {
    assert [e][1..] == [];
    RenderAllAppend(es, [e]);
  }

}
