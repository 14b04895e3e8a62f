/**
 * The `Order` object of the generator: identity and quantity fixed at
 * construction, `leavesqty` and `transacttime` updated in place by the two
 * message-producing methods. Each method is specified by the step functions
 * and events of OrderSpec; the random draws it would make are parameters.
 */
module Orders {
  import opened FixEncoding
  import opened OrderSpec

  class Order {
    const clordid: string
    const orderid: string
    const orderqty: int
    var leavesqty: int
    const symbol: Symbol
    var transacttime: int

    /** The abstract value of the object. */
    function State(): OrderState
      reads this
    {
      OrderState(clordid, orderid, orderqty, leavesqty, symbol, transacttime)
    }

    ghost predicate Valid()
      reads this
    {
      Inv(State())
    }

    /** `Order()`: the two identifiers, the quantity and symbol draws and the clock are given. */
    constructor (clordidDraw: string, orderidDraw: string, qtyDraw: int, symbolDraw: int, now: int)
      requires 0 <= qtyDraw < MaxOrderQty && 0 <= symbolDraw < |Symbols|
      ensures Valid()
      ensures State() == Create(clordidDraw, orderidDraw, qtyDraw, symbolDraw, now)
    {
      clordid := clordidDraw;
      orderid := orderidDraw;
      orderqty := qtyDraw;
      leavesqty := orderqty;
      symbol := Symbols[symbolDraw];
      transacttime := now;
    }

    /** Emits the New Order Single for the current state, then advances the time. */
    method NewOrderSingleFIX(timeStep: int) returns (message: string)
      requires Valid() && ValidTimeStep(timeStep)
      modifies this
      ensures Valid()
      ensures message == Render(NewOrderEvent(old(State())))
      ensures State() == AfterTimeStep(old(State()), timeStep)
    {
      var event := NewOrderSingle(clordid, symbol, transacttime, orderqty);
      message := NewOrderSingleText(event);

      AdvanceThroughTime(timeStep);
    }

    /** `isComplete`: nothing is left to fill. */
    predicate IsComplete()
      reads this
    {
      leavesqty == 0
    }

    /** Consumes one fill, emits the Execution Report for it, then advances the time. */
    method NextExecutionReportFIX(draw: ReportDraw) returns (message: string)
      requires Valid() && ValidReportDraw(draw)
      modifies this
      ensures Valid()
      ensures message == Render(ReportEvent(old(State()), draw))
      ensures State() == AfterReport(old(State()), draw)
    {
      ghost var before := State();
      var execRptQty := draw.fillQty;
      leavesqty := leavesqty - execRptQty;
      if leavesqty < 0 {
        leavesqty := 0;
      }

      var event := ExecutionReport(
        orderid, clordid, draw.execid, if leavesqty == 0 then Filled else PartiallyFilled,
        symbol, leavesqty, orderqty - leavesqty, draw.avgpx, transacttime);
      assert event == ReportEvent(before, draw);
      message := ExecutionReportText(event);

      AdvanceThroughTime(draw.timeStep);
    }

    /** `advanceThroughTime`: moves the time cursor forward by the drawn step. */
    method AdvanceThroughTime(timeStep: int)
      requires ValidTimeStep(timeStep)
      modifies this`transacttime
      ensures transacttime == old(transacttime) + timeStep
    {
      transacttime := transacttime + timeStep;
    }
  }

  /**
   * The StringBuilder part of `newOrderSingleFIX`: appends the pairs of the
   * snapshot one by one, tag 35 first and tag 10 last.
   */
  method NewOrderSingleText(event: Event) returns (message: string)
    requires event.NewOrderSingle?
    ensures message == Render(event)
  {
    message := "";
    message := message + Kvp("35", "D");
    message := message + Kvp("11", event.clordid);
    message := message + Kvp("21", "2");
    message := message + Kvp("55", SymbolName(event.symbol));
    message := message + Kvp("54", "2");
    message := message + Kvp("60", Decimal.IntToString(event.transacttime));
    message := message + Kvp("38", Decimal.IntToString(event.orderqty));
    message := message + Kvp("40", "2");
    message := message + Kvp("10", "000");
  }

  /**
   * The StringBuilder part of `nextExecutionReportFIX`: appends the pairs of
   * the snapshot one by one, tag 35 first and tag 10 last.
   */
  method ExecutionReportText(event: Event) returns (message: string)
    requires event.ExecutionReport?
    ensures message == Render(event)
  {
    message := "";
    message := message + Kvp("35", "8");
    message := message + Kvp("37", event.orderid);
    message := message + Kvp("11", event.clordid);
    message := message + Kvp("17", event.execid);
    message := message + Kvp("20", "0");
    message := message + Kvp("150", "0");
    message := message + Kvp("39", Decimal.IntToString(event.ordstatus.Code()));
    message := message + Kvp("55", SymbolName(event.symbol));
    message := message + Kvp("54", "1");
    message := message + Kvp("151", Decimal.IntToString(event.leavesqty));
    message := message + Kvp("14", Decimal.IntToString(event.cumqty));
    message := message + Kvp("6", event.avgpx);
    message := message + Kvp("60", Decimal.IntToString(event.transacttime));
    message := message + Kvp("10", "000");
  }
}
