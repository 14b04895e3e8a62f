/**
 * What a reader of a generated message gets back: the text decodes to the
 * event's field list, and the tags carry the values of the order at that
 * point; the quantities in an Execution Report add up to the order
 * quantity. Every message starts with tag 35 and ends with tag 10.
 */
module WireFormat {
  import opened Wrappers
  import opened Decimal
  import opened FixEncoding
  import opened OrderSpec

  /** The number a decoded message holds under `tag`. */
  function ReadInt(fields: seq<Field>, tag: string): Option<int> {
    match Lookup(fields, tag)
    case None => None
    case Some(v) => ParseInt(v)
  }

  /** The number in field `k` is what ReadInt finds when no earlier field has its tag. */
  lemma ReadIntAt(fields: seq<Field>, k: nat, i: int)
    requires k < |fields| && fields[k].value == IntToString(i)
    requires forall j :: 0 <= j < k ==> fields[j].tag != fields[k].tag
    ensures ReadInt(fields, fields[k].tag) == Some(i)
  {
    LookupAt(fields, k);
    IntRoundTrip(i);
  }

  /** The free-text values of an event (UUIDs and the price) hold no SOH. */
  predicate TextFree(e: Event) {
    match e
    case NewOrderSingle(clordid, _, _, _) => Soh !in clordid
    case ExecutionReport(orderid, clordid, execid, _, _, _, _, avgpx, _) =>
      Soh !in orderid && Soh !in clordid && Soh !in execid && Soh !in avgpx
  }

  lemma NumberFree(i: int)
    ensures Soh !in IntToString(i)
  {
  }

  lemma FieldsWellFormed(e: Event)
    requires TextFree(e)
    ensures forall i :: 0 <= i < |Fields(e)| ==> WellFormed(Fields(e)[i])
  {
    if e.NewOrderSingle? {
      NewOrderFieldsWellFormed(e);
    } else {
      ReportFieldsWellFormed(e);
    }
  }

  lemma NewOrderFieldsWellFormed(e: Event)
    requires e.NewOrderSingle? && TextFree(e)
    ensures forall i :: 0 <= i < |Fields(e)| ==> WellFormed(Fields(e)[i])
  {
    var fs := Fields(e);
    NumberFree(e.transacttime);
    NumberFree(e.orderqty);
    assert WellFormed(fs[0]) && WellFormed(fs[1]) && WellFormed(fs[2]);
    assert WellFormed(fs[3]) && WellFormed(fs[4]) && WellFormed(fs[5]);
    assert WellFormed(fs[6]) && WellFormed(fs[7]) && WellFormed(fs[8]);
  }

  lemma ReportFieldsWellFormed(e: Event)
    requires e.ExecutionReport? && TextFree(e)
    ensures forall i :: 0 <= i < |Fields(e)| ==> WellFormed(Fields(e)[i])
  {
    var fs := Fields(e);
    NumberFree(e.ordstatus.Code());
    NumberFree(e.leavesqty);
    NumberFree(e.cumqty);
    NumberFree(e.transacttime);
    assert WellFormed(fs[0]) && WellFormed(fs[1]) && WellFormed(fs[2]) && WellFormed(fs[3]);
    assert WellFormed(fs[4]) && WellFormed(fs[5]) && WellFormed(fs[6]) && WellFormed(fs[7]);
    assert WellFormed(fs[8]) && WellFormed(fs[9]) && WellFormed(fs[10]) && WellFormed(fs[11]);
    assert WellFormed(fs[12]) && WellFormed(fs[13]);
  }

  /** Decoding the wire text of an event gives back its field list. */
  lemma ReadBack(e: Event)
    requires TextFree(e)
    ensures Decode(Render(e)) == Some(Fields(e))
  {
    RenderIsEncode(e);
    FieldsWellFormed(e);
    DecodeEncode(Fields(e));
  }

  /**
   * What a reader of a New Order Single finds among its fields (which
   * `ReadBack` says the text decodes to): message type D, and the order's
   * identity, symbol, time and quantity.
   */
  lemma NewOrderFieldValues(s: OrderState)
    ensures var fs := Fields(NewOrderEvent(s));
      Lookup(fs, "35") == Some("D") &&
      Lookup(fs, "11") == Some(s.clordid) &&
      Lookup(fs, "55") == Some(SymbolName(s.symbol)) &&
      ReadInt(fs, "60") == Some(s.transacttime) &&
      ReadInt(fs, "38") == Some(s.orderqty)
  {
    var fs := Fields(NewOrderEvent(s));
    LookupAt(fs, 0);
    LookupAt(fs, 1);
    LookupAt(fs, 3);
    ReadIntAt(fs, 5, s.transacttime);
    ReadIntAt(fs, 6, s.orderqty);
  }

  /** The fields of an Execution Report: message type 8 and the order's identity. */
  lemma ReportIdentityFields(e: Event)
    requires e.ExecutionReport?
    ensures var fs := Fields(e);
      Lookup(fs, "35") == Some("8") &&
      Lookup(fs, "37") == Some(e.orderid) &&
      Lookup(fs, "11") == Some(e.clordid)
  {
    var fs := Fields(e);
    LookupAt(fs, 0);
    LookupAt(fs, 1);
    LookupAt(fs, 2);
  }

  /** The fields of an Execution Report: its quantities, as numbers. */
  lemma ReportQuantityFields(e: Event)
    requires e.ExecutionReport?
    ensures var fs := Fields(e);
      ReadInt(fs, "151") == Some(e.leavesqty) &&
      ReadInt(fs, "14") == Some(e.cumqty)
  {
    var fs := Fields(e);
    ReadIntAt(fs, 9, e.leavesqty);
    ReadIntAt(fs, 10, e.cumqty);
  }

  /** The fields of an Execution Report: its status code and its time, as numbers. */
  lemma ReportStatusFields(e: Event)
    requires e.ExecutionReport?
    ensures var fs := Fields(e);
      ReadInt(fs, "39") == Some(e.ordstatus.Code()) &&
      ReadInt(fs, "60") == Some(e.transacttime)
  {
    var fs := Fields(e);
    ReadIntAt(fs, 6, e.ordstatus.Code());
    ReadIntAt(fs, 12, e.transacttime);
  }

  /**
   * What a reader of an Execution Report finds among its fields (which
   * `ReadBack` says the text decodes to): the leaves quantity after the fill
   * under tag 151 and the rest of the order quantity under tag 14, tag 39 = 2
   * exactly when nothing is left, and the time before the step under tag 60.
   */
  lemma ReportFieldValues(s: OrderState, d: ReportDraw)
    requires Inv(s) && ValidReportDraw(d)
    ensures var fs := Fields(ReportEvent(s, d));
      var leaves := AfterReport(s, d).leavesqty;
      Lookup(fs, "35") == Some("8") &&
      Lookup(fs, "37") == Some(s.orderid) &&
      Lookup(fs, "11") == Some(s.clordid) &&
      ReadInt(fs, "151") == Some(leaves) &&
      ReadInt(fs, "14") == Some(s.orderqty - leaves) &&
      ReadInt(fs, "39") == Some(if leaves == 0 then 2 else 1) &&
      ReadInt(fs, "60") == Some(s.transacttime)
  {
    var e := ReportEvent(s, d);
    ReportIdentityFields(e);
    ReportQuantityFields(e);
    ReportStatusFields(e);
  }

  /** Every message opens with its message type and closes with the constant checksum field. */
  lemma Framing(e: Event)
    ensures var m := Render(e);
      var first := Kvp("35", if e.NewOrderSingle? then "D" else "8");
      var last := Kvp("10", "000");
      |first| + |last| <= |m| && m[..|first|] == first && m[|m| - |last|..] == last
  {
    RenderIsEncode(e);
    EncodeFraming(Fields(e));
  }
}
