/**
 * The FIX tag=value encoding used by the generator: every field is written
 * as `tag=value` followed by the SOH character (code 1), the fields are
 * concatenated in a fixed order and nothing is removed at the end.
 * Decode is the reading direction (split at each SOH, then at the first
 * `=`); it is not part of the generator and serves as the encoder's inverse.
 */
module FixEncoding {
  import opened Wrappers

  /** The field delimiter of the FIX tag=value encoding (`pairDelimiter`). */
  const Soh: char := '\U{1}'
  /** The separator between a tag and its value (`kvDelimiter`). */
  const KvDelimiter: char := '='

  datatype Field = Field(tag: string, value: string)

  /** `constructKVP`: one field in wire form. */
  function Kvp(tag: string, value: string): string {
    tag + [KvDelimiter] + value + [Soh]
  }

  /**
   * A message: its fields' wire forms, concatenated in the given order.
   * Written as a StringBuilder fills up: what the earlier fields gave,
   * then the last pair.
   */
  function Encode(fields: seq<Field>): string {
    if fields == [] then ""
    else
      var last := fields[|fields| - 1];
      Encode(fields[..|fields| - 1]) + Kvp(last.tag, last.value)
  }

  /** A field that survives the round trip: the tag holds neither delimiter, the value no SOH. */
  predicate WellFormed(f: Field) {
    KvDelimiter !in f.tag && Soh !in f.tag && Soh !in f.value
  }

  /** The position of the first `c` in `s`, if any. */
  function IndexOf(s: string, c: char): (r: Option<nat>)
    ensures r.Some? ==> r.value < |s| && s[r.value] == c && c !in s[..r.value]
    ensures r.None? <==> c !in s
  {
    if s == [] then None
    else if s[0] == c then Some(0)
    else match IndexOf(s[1..], c)
      case None => None
      case Some(k) =>
        assert s[..k + 1] == [s[0]] + s[1..][..k];
        Some(k + 1)
  }

  /** One field's text (without its SOH), split at the first `=`. */
  function DecodeField(text: string): Option<Field> {
    match IndexOf(text, KvDelimiter)
    case None => None
    case Some(e) => Some(Field(text[..e], text[e + 1..]))
  }

  /** Splits a message into its fields; None when it is not a sequence of `tag=value` SOH. */
  function Decode(msg: string): Option<seq<Field>>
    decreases |msg|
  {
    if msg == [] then Some([])
    else match IndexOf(msg, Soh)
      case None => None
      case Some(k) =>
        match DecodeField(msg[..k])
        case None => None
        case Some(f) =>
          match Decode(msg[k + 1..])
          case None => None
          case Some(rest) => Some([f] + rest)
  }

  /** The value of the first field carrying `tag`. */
  function Lookup(fields: seq<Field>, tag: string): Option<string> {
    if fields == [] then None
    else if fields[0].tag == tag then Some(fields[0].value)
    else Lookup(fields[1..], tag)
  }

  lemma {:induction false} IndexOfPrefix(s: string, c: char, t: string)
    requires c !in s
    ensures IndexOf(s + [c] + t, c) == Some(|s|)
  {
    if s != [] {
      assert (s + [c] + t)[1..] == s[1..] + [c] + t;
      IndexOfPrefix(s[1..], c, t);
    }
  }

  lemma DecodeFieldText(f: Field)
    requires WellFormed(f)
    ensures DecodeField(f.tag + [KvDelimiter] + f.value) == Some(f)
  {
    var text := f.tag + [KvDelimiter] + f.value;
    IndexOfPrefix(f.tag, KvDelimiter, f.value);
    assert text[..|f.tag|] == f.tag;
    assert text[|f.tag| + 1..] == f.value;
  }

  lemma DecodeKvp(f: Field, rest: string, fs: seq<Field>)
    requires WellFormed(f) && Decode(rest) == Some(fs)
    ensures Decode(Kvp(f.tag, f.value) + rest) == Some([f] + fs)
  {
    var text := f.tag + [KvDelimiter] + f.value;
    var msg := Kvp(f.tag, f.value) + rest;
    assert msg == text + [Soh] + rest;
    assert Soh !in text;
    IndexOfPrefix(text, Soh, rest);
    assert msg[..|text|] == text;
    assert msg[|text| + 1..] == rest;
    DecodeFieldText(f);
  }

  /** Encoding one more field at the front puts its pair in front. */
  lemma {:induction false} EncodeCons(f: Field, fields: seq<Field>)
    ensures Encode([f] + fields) == Kvp(f.tag, f.value) + Encode(fields)
  {
    if fields != [] {
      var n := |fields|;
      assert ([f] + fields)[..n] == [f] + fields[..n - 1];
      EncodeCons(f, fields[..n - 1]);
    }
  }

  /** Decoding an encoded message gives back its fields, in order. */
  lemma {:induction false} DecodeEncode(fields: seq<Field>)
    requires forall i :: 0 <= i < |fields| ==> WellFormed(fields[i])
    ensures Decode(Encode(fields)) == Some(fields)
  {
    if fields != [] {
      DecodeEncode(fields[1..]);
      assert [fields[0]] + fields[1..] == fields;
      EncodeCons(fields[0], fields[1..]);
      DecodeKvp(fields[0], Encode(fields[1..]), fields[1..]);
    }
  }

  /** Appending field `k` to the first `k` fields appends its pair. */
  lemma EncodeStep(fields: seq<Field>, k: nat)
    requires k < |fields|
    ensures Encode(fields[..k + 1]) == Encode(fields[..k]) + Kvp(fields[k].tag, fields[k].value)
  {
    assert fields[..k + 1][..k] == fields[..k];
  }

  /** A message starts with its first field and ends with its last one. */
  lemma EncodeFraming(fields: seq<Field>)
    requires |fields| >= 1
    ensures var first := Kvp(fields[0].tag, fields[0].value);
            var last := Kvp(fields[|fields| - 1].tag, fields[|fields| - 1].value);
            var m := Encode(fields);
            |first| <= |m| && m[..|first|] == first &&
            |last| <= |m| && m[|m| - |last|..] == last
  {
    assert [fields[0]] + fields[1..] == fields;
    EncodeCons(fields[0], fields[1..]);
  }

  /** The field at `k` is the one Lookup finds when no earlier field has its tag. */
  lemma {:induction false} LookupAt(fields: seq<Field>, k: nat)
    requires k < |fields|
    requires forall j :: 0 <= j < k ==> fields[j].tag != fields[k].tag
    ensures Lookup(fields, fields[k].tag) == Some(fields[k].value)
  {
    if k > 0 {
      LookupAt(fields[1..], k - 1);
    }
  }
}
