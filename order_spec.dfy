/**
 * The values of one synthesized order: its state (identity, quantities and
 * time cursor), the random draws that drive it, the step functions that say
 * what each operation of the order does to that state, and the two events
 * it emits with their FIX field lists.
 */
module OrderSpec {
  import opened Decimal
  import opened FixEncoding

  /** The instruments an order may be for (`Symbol`). */
  datatype Symbol = AAPL | MSFT | ORCL | VMW | GOOG | AMZN | FB | TWTR

  /** `Symbol.values()`, in declaration order. */
  const Symbols: seq<Symbol> := [AAPL, MSFT, ORCL, VMW, GOOG, AMZN, FB, TWTR]

  /** The exclusive bound of the order quantity draw (`random.nextInt(10000)`). */
  const MaxOrderQty: int := 10000
  /** The exclusive bound of one fill draw (`random.nextInt(3000)`). */
  const MaxFillQty: int := 3000
  /** A time step is `random.nextInt(10) + 1`. */
  const MaxTimeStep: int := 10

  /** The enum constant's name, which is what Java renders for it. */
  function SymbolName(s: Symbol): string {
    match s
    case AAPL => "AAPL"
    case MSFT => "MSFT"
    case ORCL => "ORCL"
    case VMW => "VMW"
    case GOOG => "GOOG"
    case AMZN => "AMZN"
    case FB => "FB"
    case TWTR => "TWTR"
  }

  lemma SymbolNamesDistinct(a: Symbol, b: Symbol)
    ensures SymbolName(a) == SymbolName(b) ==> a == b
  {
  }

  /** The fields of the `Order` object. */
  datatype OrderState = OrderState(
    clordid: string,
    orderid: string,
    orderqty: int,
    leavesqty: int,
    symbol: Symbol,
    transacttime: int)

  /** What holds of every order between two operations. */
  predicate Inv(s: OrderState) {
    0 <= s.leavesqty <= s.orderqty < MaxOrderQty
  }

  predicate ValidTimeStep(step: int) {
    1 <= step <= MaxTimeStep
  }

  /** The draws one execution report consumes, in the order `nextExecutionReportFIX` makes them. */
  datatype ReportDraw = ReportDraw(
    fillQty: int,     // random.nextInt(3000)
    execid: string,   // UUID.randomUUID()
    avgpx: string,    // random.nextFloat(), as rendered
    timeStep: int)    // random.nextInt(10) + 1

  predicate ValidReportDraw(d: ReportDraw) {
    0 <= d.fillQty < MaxFillQty && ValidTimeStep(d.timeStep)
  }

  /** FIX OrdStatus (tag 39). */
  datatype OrdStatus = PartiallyFilled | Filled {
    function Code(): int {
      match this
      case PartiallyFilled => 1
      case Filled => 2
    }
  }

  /** A protocol event: a snapshot of the order at the moment it is emitted. */
  datatype Event =
    | NewOrderSingle(
        clordid: string,
        symbol: Symbol,
        transacttime: int,
        orderqty: int)
    | ExecutionReport(
        orderid: string,
        clordid: string,
        execid: string,
        ordstatus: OrdStatus,
        symbol: Symbol,
        leavesqty: int,
        cumqty: int,
        avgpx: string,
        transacttime: int)

  /** The fields of an event, in the order `newOrderSingleFIX` and `nextExecutionReportFIX` append them. */
  function Fields(e: Event): seq<Field> {
    match e
    case NewOrderSingle(clordid, symbol, transacttime, orderqty) =>
      [ Field("35", "D"),
        Field("11", clordid),
        Field("21", "2"),
        Field("55", SymbolName(symbol)),
        Field("54", "2"),
        Field("60", IntToString(transacttime)),
        Field("38", IntToString(orderqty)),
        Field("40", "2"),
        Field("10", "000") ]
    case ExecutionReport(orderid, clordid, execid, ordstatus, symbol, leavesqty, cumqty, avgpx, transacttime) =>
      [ Field("35", "8"),
        Field("37", orderid),
        Field("11", clordid),
        Field("17", execid),
        Field("20", "0"),
        Field("150", "0"),
        Field("39", IntToString(ordstatus.Code())),
        Field("55", SymbolName(symbol)),
        Field("54", "1"),
        Field("151", IntToString(leavesqty)),
        Field("14", IntToString(cumqty)),
        Field("6", avgpx),
        Field("60", IntToString(transacttime)),
        Field("10", "000") ]
  }

  /**
   * The wire text of an event: `constructKVP` appends one `tag=value<SOH>`
   * pair after another, tag 35 first and tag 10 last.
   */
  function Render(e: Event): string {
    match e
    case NewOrderSingle(clordid, symbol, transacttime, orderqty) =>
      ""
      + Kvp("35", "D")
      + Kvp("11", clordid)
      + Kvp("21", "2")
      + Kvp("55", SymbolName(symbol))
      + Kvp("54", "2")
      + Kvp("60", IntToString(transacttime))
      + Kvp("38", IntToString(orderqty))
      + Kvp("40", "2")
      + Kvp("10", "000")
    case ExecutionReport(orderid, clordid, execid, ordstatus, symbol, leavesqty, cumqty, avgpx, transacttime) =>
      ""
      + Kvp("35", "8")
      + Kvp("37", orderid)
      + Kvp("11", clordid)
      + Kvp("17", execid)
      + Kvp("20", "0")
      + Kvp("150", "0")
      + Kvp("39", IntToString(ordstatus.Code()))
      + Kvp("55", SymbolName(symbol))
      + Kvp("54", "1")
      + Kvp("151", IntToString(leavesqty))
      + Kvp("14", IntToString(cumqty))
      + Kvp("6", avgpx)
      + Kvp("60", IntToString(transacttime))
      + Kvp("10", "000")
  }

  /** The wire text is exactly the encoding of the event's field list, in that order. */
  lemma RenderIsEncode(e: Event)
    ensures Render(e) == Encode(Fields(e))
  {
    if e.NewOrderSingle? {
      NewOrderIsEncode(e);
    } else {
      ReportIsEncode(e);
    }
  }

  lemma NewOrderIsEncode(e: Event)
    requires e.NewOrderSingle?
    ensures Encode(Fields(e)) == ""
      + Kvp("35", "D")
      + Kvp("11", e.clordid)
      + Kvp("21", "2")
      + Kvp("55", SymbolName(e.symbol))
      + Kvp("54", "2")
      + Kvp("60", IntToString(e.transacttime))
      + Kvp("38", IntToString(e.orderqty))
      + Kvp("40", "2")
      + Kvp("10", "000")
  {
    var fs := Fields(e);
    assert fs[..0] == [];
    EncodeStep(fs, 0); EncodeStep(fs, 1); EncodeStep(fs, 2); EncodeStep(fs, 3); EncodeStep(fs, 4);
    EncodeStep(fs, 5); EncodeStep(fs, 6); EncodeStep(fs, 7); EncodeStep(fs, 8);
    assert fs[..9] == fs;
  }

  lemma ReportIsEncode(e: Event)
    requires e.ExecutionReport?
    ensures Encode(Fields(e)) == ""
      + Kvp("35", "8")
      + Kvp("37", e.orderid)
      + Kvp("11", e.clordid)
      + Kvp("17", e.execid)
      + Kvp("20", "0")
      + Kvp("150", "0")
      + Kvp("39", IntToString(e.ordstatus.Code()))
      + Kvp("55", SymbolName(e.symbol))
      + Kvp("54", "1")
      + Kvp("151", IntToString(e.leavesqty))
      + Kvp("14", IntToString(e.cumqty))
      + Kvp("6", e.avgpx)
      + Kvp("60", IntToString(e.transacttime))
      + Kvp("10", "000")
  {
    var fs := Fields(e);
    assert fs[..0] == [];
    EncodeStep(fs, 0); EncodeStep(fs, 1); EncodeStep(fs, 2); EncodeStep(fs, 3); EncodeStep(fs, 4);
    EncodeStep(fs, 5); EncodeStep(fs, 6); EncodeStep(fs, 7); EncodeStep(fs, 8); EncodeStep(fs, 9);
    EncodeStep(fs, 10); EncodeStep(fs, 11); EncodeStep(fs, 12); EncodeStep(fs, 13);
    assert fs[..14] == fs;
  }

  /** The state the constructor sets up from its draws. */
  function Create(clordid: string, orderid: string, qtyDraw: int, symbolDraw: int, now: int): (s: OrderState)
    requires 0 <= qtyDraw < MaxOrderQty && 0 <= symbolDraw < |Symbols|
    ensures Inv(s)
    ensures s.orderqty == qtyDraw && s.leavesqty == s.orderqty
    ensures s.symbol == Symbols[symbolDraw] && s.transacttime == now
    ensures s.clordid == clordid && s.orderid == orderid
  {
    OrderState(clordid, orderid, qtyDraw, qtyDraw, Symbols[symbolDraw], now)
  }

  /** `advanceThroughTime`: only the time cursor moves, and it moves forward. */
  function AfterTimeStep(s: OrderState, step: int): (r: OrderState)
    requires ValidTimeStep(step)
    ensures s.transacttime < r.transacttime <= s.transacttime + MaxTimeStep
    ensures r.transacttime - s.transacttime == step
    ensures r.(transacttime := s.transacttime) == s
  {
    s.(transacttime := s.transacttime + step)
  }

  /** The fill at the head of `nextExecutionReportFIX`: subtract the draw, clamped at zero. */
  function AfterFill(s: OrderState, fillQty: int): (r: OrderState)
    requires Inv(s) && 0 <= fillQty
    ensures Inv(r)
    ensures 0 <= r.leavesqty <= s.leavesqty
    ensures s.leavesqty - r.leavesqty <= fillQty
    ensures r.leavesqty == 0 || s.leavesqty - r.leavesqty == fillQty
    ensures r.(leavesqty := s.leavesqty) == s
  {
    var leaves := s.leavesqty - fillQty;
    s.(leavesqty := if leaves < 0 then 0 else leaves)
  }

  /** The state after `nextExecutionReportFIX`: a fill, then a time step. */
  function AfterReport(s: OrderState, d: ReportDraw): (r: OrderState)
    requires Inv(s) && ValidReportDraw(d)
    ensures Inv(r)
    ensures r.orderqty == s.orderqty && r.clordid == s.clordid && r.orderid == s.orderid && r.symbol == s.symbol
    ensures 0 <= r.leavesqty <= s.leavesqty
    ensures s.transacttime < r.transacttime <= s.transacttime + MaxTimeStep
  {
    AfterTimeStep(AfterFill(s, d.fillQty), d.timeStep)
  }

  /** The snapshot `newOrderSingleFIX` renders (before it advances the time). */
  function NewOrderEvent(s: OrderState): (e: Event)
    ensures e.NewOrderSingle?
    ensures e.clordid == s.clordid && e.symbol == s.symbol
    ensures e.transacttime == s.transacttime && e.orderqty == s.orderqty
  {
    NewOrderSingle(s.clordid, s.symbol, s.transacttime, s.orderqty)
  }

  /** The snapshot `nextExecutionReportFIX` renders: after the fill, before the time step. */
  function ReportEvent(s: OrderState, d: ReportDraw): (e: Event)
    requires Inv(s) && ValidReportDraw(d)
    ensures e.ExecutionReport?
    ensures e.leavesqty == AfterReport(s, d).leavesqty
    ensures e.leavesqty + e.cumqty == s.orderqty
    ensures 0 <= e.cumqty <= s.orderqty && 0 <= e.leavesqty <= s.leavesqty
    ensures e.ordstatus == Filled <==> e.leavesqty == 0
    ensures e.ordstatus.Code() == (if e.leavesqty == 0 then 2 else 1)
    ensures e.transacttime == s.transacttime
    ensures e.orderid == s.orderid && e.clordid == s.clordid && e.symbol == s.symbol
    ensures e.execid == d.execid && e.avgpx == d.avgpx
  {
    var f := AfterFill(s, d.fillQty);
    ExecutionReport(
      f.orderid, f.clordid, d.execid,
      if f.leavesqty == 0 then Filled else PartiallyFilled,
      f.symbol, f.leavesqty, f.orderqty - f.leavesqty, d.avgpx, f.transacttime)
  }
}
