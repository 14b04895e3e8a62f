# FIX order generator — a Dafny model

The generator synthesizes FIX 4.x trading messages for load tests. One unit of
work runs `ordersPerTask` orders. Each order is an `Order` object with:
- two random identifiers (`clordid` and `orderid`);
- a random quantity below 10000;
- one of eight symbols;
- a time cursor started at the wall clock.

The order first emits one New Order Single (message type `D`). It then emits
Execution Reports (message type `8`) until nothing is left to fill. Each
report consumes a random fill below 3000, clamped at zero. Every message
advances the time cursor by a random step of 1 to 10. A message is the
concatenation of `tag=value<SOH>` pairs in a fixed order, and it ends with
the literal checksum field `10=000`.

The model has the source's own shape:
- `Orders.Order` is a class. Its constant identity fields and its mutable
  `leavesqty` and `transacttime` fields are updated in place by
  `NewOrderSingleFIX`, `NextExecutionReportFIX` and `AdvanceThroughTime`.
  Each method is proved against the step functions and events of `OrderSpec`.
- The message text is built by appending one pair after another, like a
  `StringBuilder`. `OrderSpec.Render` is the specification of that text.
- `Generator.GenerateFIXMessages` is the driver's `for` loop. Its inner
  `while (!isComplete())` loop is `Generator.ReportsUntilComplete`. It is
  proved to produce `Lifecycle.RenderAll(Lifecycle.TaskEvents(draws))`.
- Every random draw, UUID and clock reading is an input. `Lifecycle.OrderDraw`
  holds the draws of one order and `OrderSpec.ReportDraw` those of one report,
  each restricted to the source's ranges.
- `FixEncoding.Decode` is the reading direction of the encoding. It is not
  part of the generator and exists as the encoder's inverse: a well-formed
  field list decodes back to itself, and a reader finds the order's figures
  under their tags.

Termination is not claimed. A fill of 0 is a legal draw, and it leaves the
order unchanged. The driver therefore requires draws that drain every order
(`Lifecycle.Drains`, `Lifecycle.Terminating`). `Lifecycle.StalledOrderNeverDrains`
shows that zero fills never finish an order, and `Lifecycle.ReportCountUnbounded`
shows that the number of reports has no bound.

A design for the generator that is natural to expect differs from the code
in a few places; the model follows the code:
- An order of quantity 0 gets no Execution Report: `isComplete()` already
  holds after the New Order Single, so such an order yields 1 row, not a
  New Order Single plus one filled report (2 rows).
  `Lifecycle.OrderEventsComplete` proves the single row.
- There is no worst-case bound on the reports per order: fills of 0 are
  legal draws (`Lifecycle.ReportCountUnbounded`).
- The new order writes `54=2`, `40=2`, `21=2` and the reports `54=1`. In FIX
  these codes mean side sell, type limit and automated handling on the new
  order and side buy on the reports, not a "buy at market" order answered by
  "sell" reports. The model keeps the literal values.
- Nothing refuses a second call of `newOrderSingleFIX`, so the model's
  `NewOrderSingleFIX` has no such guard. The driver calls it once per order.
- Pairs are separated by SOH (character 1), not by a pipe, in the code and
  in the model.

## Model

All source paths are under `src/main/java/com/cloudera/labs/envelope/examples/`.

| member | source | states |
|---|---|---|
| OrderSpec.SymbolNamesDistinct | src/main/java/com/cloudera/labs/envelope/examples/FIXInput.java:98-100 | the eight symbols have distinct names, so tag 55 identifies the symbol |
| OrderSpec.Create | src/main/java/com/cloudera/labs/envelope/examples/FIXInput.java:102-109 | a new order keeps the invariant; leaves quantity equals order quantity equals the draw, below 10000; the symbol is the enum constant at the drawn index; the time is the clock reading; the identifiers are the two UUIDs |
| Orders.Order.constructor | src/main/java/com/cloudera/labs/envelope/examples/FIXInput.java:102-109 | the object's state is `Create` of the draws and satisfies `Valid` |
| OrderSpec.AfterTimeStep | src/main/java/com/cloudera/labs/envelope/examples/FIXInput.java:187-189 | the time cursor grows by exactly the step, which lies in [1,10]; nothing else changes |
| Orders.Order.AdvanceThroughTime | src/main/java/com/cloudera/labs/envelope/examples/FIXInput.java:187-189 | only `transacttime` is written, and it grows by the step |
| OrderSpec.NewOrderEvent | src/main/java/com/cloudera/labs/envelope/examples/FIXInput.java:126-134 | the New Order Single carries the order's identifier, symbol, current time and order quantity |
| Orders.NewOrderSingleText | src/main/java/com/cloudera/labs/envelope/examples/FIXInput.java:124-134 | the appended pairs give exactly the wire text `Render` of the snapshot |
| Orders.Order.NewOrderSingleFIX | src/main/java/com/cloudera/labs/envelope/examples/FIXInput.java:111-139 | returns the wire text of the New Order Single for the state before the call; afterwards only the time has moved, by the step; the invariant is kept |
| OrderSpec.AfterFill | src/main/java/com/cloudera/labs/envelope/examples/FIXInput.java:161-163 | subtracting a fill clamped at zero keeps `0 <= leavesqty <= orderqty`; the leaves quantity never grows and falls by at most the fill; it falls by the whole fill unless it reaches 0; nothing else changes |
| OrderSpec.AfterReport | src/main/java/com/cloudera/labs/envelope/examples/FIXInput.java:161-182 | after one report the invariant holds, identity and quantity are unchanged, leaves has not grown, and time has grown by 1 to 10 |
| OrderSpec.ReportEvent | src/main/java/com/cloudera/labs/envelope/examples/FIXInput.java:167-180 | the report carries leaves after the fill and cum = orderqty - leaves (both in [0, orderqty]) under status Filled (code 2) exactly when leaves is 0 and PartiallyFilled (code 1) otherwise; it carries the time before the step and the order's identity, execution id and price |
| Orders.ExecutionReportText | src/main/java/com/cloudera/labs/envelope/examples/FIXInput.java:165-180 | the appended pairs give exactly the wire text `Render` of the snapshot |
| Orders.Order.NextExecutionReportFIX | src/main/java/com/cloudera/labs/envelope/examples/FIXInput.java:143-185 | returns the wire text of `ReportEvent` for the state before the call and the draws; the new state is `AfterReport`; the invariant is kept |
| OrderSpec.NewOrderIsEncode | src/main/java/com/cloudera/labs/envelope/examples/FIXInput.java:126-134 | the New Order Single is the encoding of its nine fields in the listed tag order, 35 first and 10 last |
| OrderSpec.ReportIsEncode | src/main/java/com/cloudera/labs/envelope/examples/FIXInput.java:167-180 | the Execution Report is the encoding of its fourteen fields in the listed tag order, 35 first and 10 last |
| OrderSpec.RenderIsEncode | src/main/java/com/cloudera/labs/envelope/examples/FIXInput.java:191-193 | every message is the concatenation of its fields' `tag=value<SOH>` pairs |
| FixEncoding.DecodeEncode | src/main/java/com/cloudera/labs/envelope/examples/FIXInput.java:191-193 | a field list whose tags hold no `=`/SOH and whose values hold no SOH decodes back to itself |
| FixEncoding.EncodeCons | src/main/java/com/cloudera/labs/envelope/examples/FIXInput.java:191-193 | encoding a field in front of a list puts its pair in front of the list's encoding |
| FixEncoding.EncodeFraming | src/main/java/com/cloudera/labs/envelope/examples/FIXInput.java:191-193 | an encoding starts with its first field's pair and ends with its last field's pair |
| Decimal.IntRoundTrip | src/main/java/com/cloudera/labs/envelope/examples/FIXInput.java:191-193 | the decimal text of an integer value (Java string concatenation) parses back to that integer |
| Decimal.IntToStringInjective | src/main/java/com/cloudera/labs/envelope/examples/FIXInput.java:191-193 | distinct integers have distinct decimal texts |
| WireFormat.ReadBack | src/main/java/com/cloudera/labs/envelope/examples/FIXInput.java:124-138 | when the UUIDs and the price hold no SOH, decoding a message gives back its field list |
| WireFormat.NewOrderFieldValues | src/main/java/com/cloudera/labs/envelope/examples/FIXInput.java:126-134 | in a New Order Single a reader finds tag 35 = D, tag 11 the client order id, tag 55 the symbol name, tag 60 the time and tag 38 the order quantity, as numbers |
| WireFormat.ReportFieldValues | src/main/java/com/cloudera/labs/envelope/examples/FIXInput.java:167-180 | in an Execution Report a reader finds tag 35 = 8, the identifiers, tag 151 the leaves quantity after the fill, tag 14 the order quantity minus it, tag 39 = 2 exactly when nothing is left (else 1) and tag 60 the time before the step |
| WireFormat.ReportQuantityFields | src/main/java/com/cloudera/labs/envelope/examples/FIXInput.java:176-177 | tags 151 and 14 read back as the report's leaves and cumulative quantities |
| WireFormat.ReportStatusFields | src/main/java/com/cloudera/labs/envelope/examples/FIXInput.java:173-179 | tags 39 and 60 read back as the report's status code and time |
| WireFormat.Framing | src/main/java/com/cloudera/labs/envelope/examples/FIXInput.java:126-134 | every message (New Order Single here, Execution Report at lines 167-180) starts with `35=D<SOH>` or `35=8<SOH>` and ends with `10=000<SOH>` |
| FixEncoding.Kvp | src/main/java/com/cloudera/labs/envelope/examples/FIXInput.java:191-193 | `constructKVP` as a definition (`tag=value<SOH>`) with no contract of its own; its properties are carried by `FixEncoding.DecodeKvp` (hence `FixEncoding.DecodeEncode`), `FixEncoding.EncodeCons` and `FixEncoding.EncodeFraming` |
| OrderSpec.Fields | src/main/java/com/cloudera/labs/envelope/examples/FIXInput.java:126-134 | the field list of a New Order Single (:126-134) and of an Execution Report (:167-180), a definition with no contract of its own; `WireFormat.NewOrderFieldValues` and `WireFormat.ReportFieldValues` state what a reader finds in it |
| OrderSpec.Render | src/main/java/com/cloudera/labs/envelope/examples/FIXInput.java:167-180 | the wire text of an event (:126-134 and :167-180), a definition with no contract of its own; `OrderSpec.RenderIsEncode`, `WireFormat.ReadBack` and `WireFormat.Framing` carry its properties |
| Orders.Order.IsComplete | src/main/java/com/cloudera/labs/envelope/examples/FIXInput.java:141 | `isComplete` as a definition (nothing left to fill) with no contract of its own; `Generator.ReportsUntilComplete` ensures it when the inner loop ends, and `Lifecycle.DrainedReportsEnd` shows it first holds after the last report |
| Lifecycle.OrderEvents | src/main/java/com/cloudera/labs/envelope/examples/FIXInput.java:74-79 | the events of one order, a definition with no contract of its own; `Lifecycle.OrderEventsOrdered` and `Lifecycle.OrderEventsComplete` carry its properties, and `Generator.OrderMessages` produces its rows |
| Lifecycle.TaskEvents | src/main/java/com/cloudera/labs/envelope/examples/FIXInput.java:71-82 | the events of a unit of work, a definition with no contract of its own; `Lifecycle.TaskEventsConcat` and `Lifecycle.TaskEventsCount` carry its properties, and `Generator.GenerateFIXMessages` produces its rows |
| Lifecycle.ReportsFrom | src/main/java/com/cloudera/labs/envelope/examples/FIXInput.java:77-79 | the loop emits one Execution Report per draw it consumes |
| Lifecycle.AfterReports | src/main/java/com/cloudera/labs/envelope/examples/FIXInput.java:77-79 | after any number of reports the invariant holds, the order quantity is unchanged and leaves has not grown |
| Lifecycle.ReportsFromSnoc | src/main/java/com/cloudera/labs/envelope/examples/FIXInput.java:77-79 | one more iteration appends one report, rendered from the state the earlier iterations left |
| Lifecycle.ReportsAccount | src/main/java/com/cloudera/labs/envelope/examples/FIXInput.java:167-180 | in every report of an order: same identity and symbol, leaves + cum = orderqty, leaves within [0, leaves at start], status Filled exactly when leaves is 0, the k-th report's time within [t + k, t + 10k] |
| Lifecycle.ReportsMonotone | src/main/java/com/cloudera/labs/envelope/examples/FIXInput.java:161-189 | across the reports of an order the leaves quantity never grows and the time strictly increases |
| Lifecycle.DrainedReportsEnd | src/main/java/com/cloudera/labs/envelope/examples/FIXInput.java:77-79 | when the loop stops, it emitted no report exactly if the order started complete; otherwise only the last report has leaves 0 and status Filled |
| Lifecycle.DrainsNeedsDraws | src/main/java/com/cloudera/labs/envelope/examples/FIXInput.java:161 | a run that stops needs at least one draw per 2999 units of leaves quantity |
| Lifecycle.StalledOrderNeverDrains | src/main/java/com/cloudera/labs/envelope/examples/FIXInput.java:161-163 | fills of 0 leave the leaves quantity unchanged, so an open order never completes on them |
| Lifecycle.ReportCountUnbounded | src/main/java/com/cloudera/labs/envelope/examples/FIXInput.java:77-79 | for every n, some run of the loop stops after exactly n + 1 reports: the number of reports has no bound |
| Lifecycle.OrderEventsOrdered | src/main/java/com/cloudera/labs/envelope/examples/FIXInput.java:74-79 | an order's events are exactly one New Order Single first (with the drawn quantity, clock and symbol) followed by one report per draw; leaves + cum = quantity in every report; leaves never grows; times strictly increase over all events |
| Lifecycle.OrderEventsComplete | src/main/java/com/cloudera/labs/envelope/examples/FIXInput.java:74-79 | when the loop stops, an order of quantity 0 yields one row and any other at least two; its last report has tag 151 = 0, status Filled and cum = quantity, and every earlier report is PartiallyFilled with leaves above 0 |
| Lifecycle.TaskEventsConcat | src/main/java/com/cloudera/labs/envelope/examples/FIXInput.java:71-82 | the events of a unit of work are the orders' streams concatenated in order, so splitting the orders between units does not change them |
| Lifecycle.TaskEventsSnoc | src/main/java/com/cloudera/labs/envelope/examples/FIXInput.java:71-82 | one more iteration of the outer loop appends that order's stream |
| Lifecycle.TaskEventsCount | src/main/java/com/cloudera/labs/envelope/examples/FIXInput.java:71-82 | a unit of work emits exactly one New Order Single per order, and at least one row per order |
| Lifecycle.NoNewOrderInReports | src/main/java/com/cloudera/labs/envelope/examples/FIXInput.java:77-79 | the inner loop emits no New Order Single |
| Lifecycle.RenderAllAppend | src/main/java/com/cloudera/labs/envelope/examples/FIXInput.java:75-78 | the rows of two event streams in sequence are the rows of each, in sequence |
| Lifecycle.RenderAllSnoc | src/main/java/com/cloudera/labs/envelope/examples/FIXInput.java:78 | `messages.add(RowFactory.create(m))` for the text of an event appends that event's row |
| Lifecycle.OrderRows | src/main/java/com/cloudera/labs/envelope/examples/FIXInput.java:75-79 | an order's rows are its New Order Single's row followed by its reports' rows |
| Generator.ReportsUntilComplete | src/main/java/com/cloudera/labs/envelope/examples/FIXInput.java:77-79 | the loop `while (!isComplete())` over draws that drain the order returns the rows of `ReportsFrom` the state it started from, and leaves the order complete, valid and in state `AfterReports` |
| Generator.OrderMessages | src/main/java/com/cloudera/labs/envelope/examples/FIXInput.java:74-79 | one iteration of the outer loop returns the rows of `OrderEvents` of the order's draws |
| Generator.GenerateFIXMessages | src/main/java/com/cloudera/labs/envelope/examples/FIXInput.java:70-83 | for `ordersPerTask` orders (none when it is not positive) whose draws all stop, the rows are `RenderAll(TaskEvents(draws))` |
| Generator.Int32CounterAfter | src/main/java/com/cloudera/labs/envelope/examples/FIXInput.java:73 | the `int` loop counter after n increments is an `int`, and equals n while n fits |
| Generator.AsWrittenCounterNeverExits | src/main/java/com/cloudera/labs/envelope/examples/FIXInput.java:73 | when `ordersPerTask` exceeds the largest `int`, the guard `i < ordersPerTask` holds after every number of iterations |
| Generator.AsWrittenCounterWraps | src/main/java/com/cloudera/labs/envelope/examples/FIXInput.java:73 | the counter goes from 2147483647 to -2147483648 |

## Left out

- `FIXInput.read` (lines 47-59) is not modelled: `parallelize`, `repartition`, `flatMap` and the DataFrame schema are Spark execution tasks. The model covers one call of the flat-map function. `Lifecycle.TaskEventsConcat` covers dividing orders between units of work.
- `RowFactory.create` is the datatype `Lifecycle.Row` with one string column. The column name and schema are not modelled.
- `configure` (lines 41-44) only reads two configuration values; `ordersPerTask` is a parameter of the driver.
- `java.util.Random`, `UUID.randomUUID()` and `System.currentTimeMillis()` are external sources of values. Their outputs are inputs of the model, restricted to the source's ranges. Their distribution (uniform draws) is not modelled.
- The price of tag 6 comes from `random.nextFloat()`. It is an opaque string input, and Java's float formatting is not modelled.
- The UUIDs are opaque strings. `WireFormat.ReadBack` requires that they and the price hold no SOH, which Java's UUID and float texts satisfy.
- The Java `toString` of `int` and `long` values is modelled as decimals with a leading `-` for negatives (`Decimal.IntToString`). The enum's `toString` is `OrderSpec.SymbolName`.
- `transacttime` is an unbounded integer. The wrap-around of Java's `long` is not modelled, because it needs about 2^63 milliseconds.
- Termination of `while (!newOrder.isComplete())` is not claimed. `Generator.GenerateFIXMessages` requires draws that drain every order. Runs that never stop are outside its precondition, and `Lifecycle.StalledOrderNeverDrains` describes them.
- `Orders.Order.IsComplete` has no contract of its own. Its meaning appears in the `ensures` of `Generator.ReportsUntilComplete` and in `Lifecycle.Drains`.
- Generator.GenerateFIXMessages: returns an unbounded `seq<Row>`, while the Java `ArrayList` of rows cannot hold more than 2147483647 entries; a unit of work whose draws produce more rows ends in the Java with an error that the model does not capture.
- The order methods require `Valid()`, meaning `0 <= leavesqty <= orderqty < 10000`. The constructor establishes it and every method keeps it. The source needs no check because the invariant always holds.
- The checksum field is the literal `000`, as in the source. No checksum is computed.
- `KuduInput.java` is not part of this model. It only passes configuration to an external data source.

## Findings

| source | as written | input that shows it | evidently intended | confidence | as-written member | corrected member |
|---|---|---|---|---|---|---|
| src/main/java/com/cloudera/labs/envelope/examples/FIXInput.java:73 | `for (int i = 0; i < ordersPerTask; i++)` compares an `int` counter with a `long` bound: a latent mismatch, since the wrapped counter alone would never fail the guard | `orders.per.task` = 2147483648: the counter would wrap from 2147483647 to -2147483648 and stay below the bound. In the Java the run does not get there: every order adds at least one row to the `ArrayList` of :71, which throws at 2147483647 entries before the counter can wrap, and a `long` counter fails at the same point | a counter as wide as its bound, so that the loop runs exactly `ordersPerTask` orders | low (not executed): masked by the row list's capacity, so no run tells the two loops apart | Generator.AsWrittenCounterNeverExits | Generator.GenerateFIXMessages |
