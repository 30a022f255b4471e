/**
 * `handle_datetimeoffset`, the output converter for SQL Server's datetimeoffset
 * values: a 20-byte little-endian record (`struct` format `<6hI2h`) rendered as
 * `YYYY-MM-DD hh:mm:ss.fffffff +hh:mm`.
 */
module DateTimeOffset {
  import opened Wrappers
  import opened Decimal

  newtype Byte = x: int | 0 <= x < 256

  const RecordSize: nat := 20

  /** The little-endian signed 16-bit integer at `off`. */
  function Int16At(buf: seq<Byte>, off: nat): (v: int)
    requires off + 2 <= |buf|
    ensures -0x8000 <= v < 0x8000
  {
    var u := buf[off] as int + 0x100 * buf[off + 1] as int;
    if u >= 0x8000 then u - 0x1_0000 else u
  }

  /** The little-endian unsigned 32-bit integer at `off`. */
  function UInt32At(buf: seq<Byte>, off: nat): (v: int)
    requires off + 4 <= |buf|
    ensures 0 <= v < 0x1_0000_0000
  {
    buf[off] as int + 0x100 * buf[off + 1] as int + 0x1_0000 * buf[off + 2] as int
    + 0x100_0000 * buf[off + 3] as int
  }

  /** The nine fields `<6hI2h` unpacks to respect their widths. */
  predicate Representable(t: seq<int>) {
    && |t| == 9
    && (forall i :: 0 <= i < 9 && i != 6 ==> -0x8000 <= t[i] < 0x8000)
    && 0 <= t[6] < 0x1_0000_0000
  }

  /** `struct.unpack("<6hI2h", buf)`: None when the buffer is not exactly 20 bytes (`struct.error`). */
  function Unpack(buf: seq<Byte>): (r: Option<seq<int>>)
    ensures r.Some? <==> |buf| == RecordSize
    ensures r.Some? ==> Representable(r.value)
  {
    if |buf| != RecordSize then None
    else Some([Int16At(buf, 0), Int16At(buf, 2), Int16At(buf, 4), Int16At(buf, 6), Int16At(buf, 8),
               Int16At(buf, 10), UInt32At(buf, 12), Int16At(buf, 16), Int16At(buf, 18)])
  }

  /** The two little-endian bytes of a signed 16-bit integer. */
  function Int16Bytes(v: int): (b: seq<Byte>)
    requires -0x8000 <= v < 0x8000
    ensures |b| == 2
  {
    var u := if v < 0 then v + 0x1_0000 else v;
    [(u % 0x100) as Byte, (u / 0x100) as Byte]
  }

  /** The four little-endian bytes of an unsigned 32-bit integer. */
  function UInt32Bytes(v: int): (b: seq<Byte>)
    requires 0 <= v < 0x1_0000_0000
    ensures |b| == 4
  {
    [(v % 0x100) as Byte, (v / 0x100 % 0x100) as Byte, (v / 0x1_0000 % 0x100) as Byte, (v / 0x100_0000) as Byte]
  }

  /** `struct.pack("<6hI2h", *t)`, the inverse of Unpack. */
  function Pack(t: seq<int>): (buf: seq<Byte>)
    requires Representable(t)
    ensures |buf| == RecordSize
  {
    Int16Bytes(t[0]) + Int16Bytes(t[1]) + Int16Bytes(t[2]) + Int16Bytes(t[3]) + Int16Bytes(t[4])
    + Int16Bytes(t[5]) + UInt32Bytes(t[6]) + Int16Bytes(t[7]) + Int16Bytes(t[8])
  }

  lemma Int16RoundTrip(v: int, buf: seq<Byte>, off: nat)
    requires -0x8000 <= v < 0x8000 && off + 2 <= |buf| && buf[off..off + 2] == Int16Bytes(v)
    ensures Int16At(buf, off) == v
  {
    assert buf[off] == Int16Bytes(v)[0] && buf[off + 1] == Int16Bytes(v)[1];
  }

  lemma UInt32RoundTrip(v: int, buf: seq<Byte>, off: nat)
    requires 0 <= v < 0x1_0000_0000 && off + 4 <= |buf| && buf[off..off + 4] == UInt32Bytes(v)
    ensures UInt32At(buf, off) == v
  {
    var b := UInt32Bytes(v);
    assert buf[off] == b[0] && buf[off + 1] == b[1] && buf[off + 2] == b[2] && buf[off + 3] == b[3];
    var q1 := v / 0x100;
    var q2 := v / 0x1_0000;
    assert q2 == q1 / 0x100;
    assert v / 0x100_0000 == q2 / 0x100;
  }

  /** The bytes appended last are the slice after the earlier ones. */
  lemma SliceAfter(a: seq<Byte>, b: seq<Byte>)
    ensures (a + b)[|a|..|a| + |b|] == b
  {
  }

  /** Packing representable fields and unpacking the bytes gives the fields back. */
  lemma UnpackPack(t: seq<int>)
    requires Representable(t)
    ensures Unpack(Pack(t)) == Some(t)
  {
    var buf := Pack(t);
    var front := Int16Bytes(t[0]) + Int16Bytes(t[1]) + Int16Bytes(t[2]) + Int16Bytes(t[3]) + Int16Bytes(t[4])
                 + Int16Bytes(t[5]) + UInt32Bytes(t[6]) + Int16Bytes(t[7]);
    SliceAfter(front, Int16Bytes(t[8]));
    assert buf[0..2] == Int16Bytes(t[0]) && buf[2..4] == Int16Bytes(t[1]) && buf[4..6] == Int16Bytes(t[2]);
    assert buf[6..8] == Int16Bytes(t[3]) && buf[8..10] == Int16Bytes(t[4]) && buf[10..12] == Int16Bytes(t[5]);
    assert buf[12..16] == UInt32Bytes(t[6]) && buf[16..18] == Int16Bytes(t[7]) && buf[18..20] == Int16Bytes(t[8]);
    Int16RoundTrip(t[0], buf, 0);
    Int16RoundTrip(t[1], buf, 2);
    Int16RoundTrip(t[2], buf, 4);
    Int16RoundTrip(t[3], buf, 6);
    Int16RoundTrip(t[4], buf, 8);
    Int16RoundTrip(t[5], buf, 10);
    UInt32RoundTrip(t[6], buf, 12);
    Int16RoundTrip(t[7], buf, 16);
    Int16RoundTrip(t[8], buf, 18);
    assert t == [t[0], t[1], t[2], t[3], t[4], t[5], t[6], t[7], t[8]];
  }

  lemma Int16BytesOf(buf: seq<Byte>, off: nat)
    requires off + 2 <= |buf|
    ensures Int16Bytes(Int16At(buf, off)) == buf[off..off + 2]
  {
    var u := buf[off] as int + 0x100 * buf[off + 1] as int;
    assert u % 0x100 == buf[off] as int && u / 0x100 == buf[off + 1] as int;
  }

  lemma UInt32BytesOf(buf: seq<Byte>, off: nat)
    requires off + 4 <= |buf|
    ensures UInt32Bytes(UInt32At(buf, off)) == buf[off..off + 4]
  {
    var b0, b1, b2, b3 := buf[off] as int, buf[off + 1] as int, buf[off + 2] as int, buf[off + 3] as int;
    var v := UInt32At(buf, off);
    var h1 := b1 + 0x100 * b2 + 0x1_0000 * b3;
    var h2 := b2 + 0x100 * b3;
    assert v == b0 + 0x100 * h1;
    assert v % 0x100 == b0 && v / 0x100 == h1;
    assert h1 == b1 + 0x100 * h2;
    assert h1 % 0x100 == b1 && h1 / 0x100 == h2;
    assert v / 0x1_0000 == h2 by {
      assert v == b0 + 0x100 * b1 + 0x1_0000 * h2;
    }
    assert h2 % 0x100 == b2 && h2 / 0x100 == b3;
    assert v / 0x100_0000 == b3 by {
      assert v == b0 + 0x100 * b1 + 0x1_0000 * b2 + 0x100_0000 * b3;
    }
  }

  /** Every 20-byte record is the packing of what it unpacks to. */
  lemma PackUnpack(buf: seq<Byte>)
    requires |buf| == RecordSize
    ensures Pack(Unpack(buf).value) == buf
  {
    var t := Unpack(buf).value;
    assert t[0] == Int16At(buf, 0) && t[1] == Int16At(buf, 2) && t[2] == Int16At(buf, 4);
    assert t[3] == Int16At(buf, 6) && t[4] == Int16At(buf, 8) && t[5] == Int16At(buf, 10);
    assert t[6] == UInt32At(buf, 12) && t[7] == Int16At(buf, 16) && t[8] == Int16At(buf, 18);
    Int16BytesOf(buf, 0);
    Int16BytesOf(buf, 2);
    Int16BytesOf(buf, 4);
    Int16BytesOf(buf, 6);
    Int16BytesOf(buf, 8);
    Int16BytesOf(buf, 10);
    UInt32BytesOf(buf, 12);
    Int16BytesOf(buf, 16);
    Int16BytesOf(buf, 18);
    assert buf == buf[0..2] + buf[2..4] + buf[4..6] + buf[6..8] + buf[8..10] + buf[10..12]
                  + buf[12..16] + buf[16..18] + buf[18..20];
  }

  /**
   * The list comprehension: field 6 (hundreds of nanoseconds times 100) floor-divided
   * by 100, the others as they are. Field 6 is unsigned, so Dafny's division is the floor.
   */
  function Tweak(t: seq<int>): (r: seq<int>)
    requires |t| == 9 && t[6] >= 0
    ensures |r| == 9 && r[6] == t[6] / 100
    ensures forall i :: 0 <= i < 9 && i != 6 ==> r[i] == t[i]
  {
    t[..6] + [t[6] / 100] + t[7..]
  }

  /** The widths of the nine fields in the format string, and the characters between them. */
  const Widths: seq<nat> := [4, 2, 2, 2, 2, 2, 7, 3, 2]
  const Separators: string := "-- ::. :"

  /** `texts[0] sep[0] texts[1] sep[1] ...`, built from the last field back. */
  function Assemble(texts: seq<string>, seps: string): string
    requires |texts| == |seps| + 1
    decreases |seps|
  {
    if seps == [] then texts[0]
    else Assemble(texts[..|seps|], seps[..|seps| - 1]) + [seps[|seps| - 1]] + texts[|seps|]
  }

  /**
   * The converter's format string: date, time, fraction and offset, each field
   * zero-padded to its width in `Widths`, the time-zone hours always signed.
   */
  function Format(t: seq<int>): (s: string)
    requires |t| == 9
    // no field is narrower than its width, so the text is never shorter than 34 characters
    ensures |s| >= 34
  {
    AssembleNine(FieldTexts(t), Separators);
    Assemble(FieldTexts(t), Separators)
  }

  /** The nine fields as the format string writes them. */
  function FieldTexts(t: seq<int>): (texts: seq<string>)
    requires |t| == 9
    ensures |texts| == 9
    ensures forall i :: 0 <= i < 9 ==> |texts[i]| >= Widths[i]
  {
    [FormatInt(t[0], 4, false), FormatInt(t[1], 2, false), FormatInt(t[2], 2, false),
     FormatInt(t[3], 2, false), FormatInt(t[4], 2, false), FormatInt(t[5], 2, false),
     FormatInt(t[6], 7, false), FormatInt(t[7], 3, true), FormatInt(t[8], 2, false)]
  }

  /** `handle_datetimeoffset(dto_value)`; None when unpacking raises. */
  function HandleDateTimeOffset(buf: seq<Byte>): (r: Option<string>)
    ensures r.Some? <==> |buf| == RecordSize
  {
    match Unpack(buf)
    case None => None
    case Some(t) => Some(Format(Tweak(t)))
  }

  /** Reading the text back: fixed-width numerals at fixed places, separated as the format says. */
  function Split(s: string, widths: seq<nat>, seps: string): Option<seq<int>>
    requires |widths| == |seps| + 1
  {
    match SplitFields(s, widths, seps)
    case None => None
    case Some(fields) => ParseFields(fields)
  }

  /** The fixed-width pieces of the text, from the last one back, each separator where it belongs. */
  function SplitFields(s: string, widths: seq<nat>, seps: string): (r: Option<seq<string>>)
    requires |widths| == |seps| + 1
    ensures r.Some? ==> |r.value| == |widths|
    decreases |seps|
  {
    var w := widths[|seps|];
    if |s| < w then None
    else if seps == [] then (if |s| == w then Some([s]) else None)
    else if |s| > w && s[|s| - w - 1] == seps[|seps| - 1] then
      match SplitFields(s[..|s| - w - 1], widths[..|seps|], seps[..|seps| - 1])
      case None => None
      case Some(fields) => Some(fields + [s[|s| - w..]])
    else None
  }

  /** Every piece read as an integer; None as soon as one is not a numeral. */
  function ParseFields(fields: seq<string>): (r: Option<seq<int>>)
    ensures r.Some? ==> |r.value| == |fields|
  {
    if fields == [] then Some([])
    else match ParseFields(fields[..|fields| - 1])
      case None => None
      case Some(vs) =>
        match ParseInt(fields[|fields| - 1])
        case None => None
        case Some(v) => Some(vs + [v])
  }

  /** Fields of the given widths, joined by the separators, are cut apart again exactly. */
  lemma {:induction false} SplitAssemble(texts: seq<string>, widths: seq<nat>, seps: string)
    requires |texts| == |widths| == |seps| + 1
    requires forall i :: 0 <= i < |texts| ==> |texts[i]| == widths[i]
    ensures SplitFields(Assemble(texts, seps), widths, seps) == Some(texts)
    decreases |seps|
  {
    var s := Assemble(texts, seps);
    var n := |seps|;
    var w := widths[n];
    if seps == [] {
      assert texts == [s];
    } else {
      var texts', widths', seps' := texts[..n], widths[..n], seps[..n - 1];
      var rest := Assemble(texts', seps');
      var head := rest + [seps[n - 1]];
      assert s == head + texts[n];
      assert s[|s| - w..] == texts[n];
      assert s[..|head|] == head;
      assert s[|rest|] == seps[n - 1];
      assert s[..|rest|] == head[..|rest|] == rest;
      assert forall i :: 0 <= i < n ==> texts'[i] == texts[i] && widths'[i] == widths[i];
      SplitAssemble(texts', widths', seps');
      assert texts == texts' + [texts[n]];
    }
  }

  /** Pieces that each read as a number read as the sequence of those numbers. */
  lemma {:induction false} ParseFieldsAll(fields: seq<string>, vs: seq<int>)
    requires |fields| == |vs|
    requires forall i :: 0 <= i < |fields| ==> ParseInt(fields[i]) == Some(vs[i])
    ensures ParseFields(fields) == Some(vs)
    decreases |fields|
  {
    if fields != [] {
      var n := |fields| - 1;
      ParseFieldsAll(fields[..n], vs[..n]);
      assert vs == vs[..n] + [vs[n]];
    }
  }

  /** The ranges a calendar date, a time of day and an offset take; each then fills exactly its width. */
  predicate Calendar(t: seq<int>) {
    && |t| == 9
    && 0 <= t[0] < 10000
    && (forall i :: 1 <= i < 6 ==> 0 <= t[i] < 100)
    && 0 <= t[6] < 10_000_000
    && -100 < t[7] < 100
    && 0 <= t[8] < 100
  }

  /** For calendar values every field sits at its fixed place in the text and reads back as it was. */
  lemma FormatReadsBack(t: seq<int>)
    requires Calendar(t)
    ensures |Format(t)| == 34
    ensures Split(Format(t), Widths, Separators) == Some(t)
  {
    var texts := FieldTexts(t);
    FieldWidths(t);
    SplitAssemble(texts, Widths, Separators);
    AssembleNine(texts, Separators);
    FieldsReadBack(t);
    ParseFieldsAll(texts, t);
  }

  /** For calendar values each field fills exactly its width. */
  lemma FieldWidths(t: seq<int>)
    requires Calendar(t)
    ensures forall i :: 0 <= i < 9 ==> |FieldTexts(t)[i]| == Widths[i]
  {
    FormatIntWidth(t[0], 4, false);
    FormatIntWidth(t[1], 2, false);
    FormatIntWidth(t[2], 2, false);
    FormatIntWidth(t[3], 2, false);
    FormatIntWidth(t[4], 2, false);
    FormatIntWidth(t[5], 2, false);
    FormatIntWidth(t[6], 7, false);
    FormatSignedWidth(t[7]);
    FormatIntWidth(t[8], 2, false);
  }

  /** Each field reads back as its value. */
  lemma FieldsReadBack(t: seq<int>)
    requires |t| == 9
    ensures forall i :: 0 <= i < 9 ==> ParseInt(FieldTexts(t)[i]) == Some(t[i])
  {
    forall i | 0 <= i < 9
      ensures ParseInt(FieldTexts(t)[i]) == Some(t[i])
    {
      FieldText(t, i);
      FormatIntReadsBack(t[i], Widths[i], i == 7);
    }
  }

  /** Field i is written at its width, signed only for the offset hours. */
  lemma FieldText(t: seq<int>, i: nat)
    requires |t| == 9 && i < 9
    ensures FieldTexts(t)[i] == FormatInt(t[i], Widths[i], i == 7)
  {
  }

  /**
   * Decoding a record whose fields are a calendar value (fraction in nanoseconds,
   * below 10^9) gives a text that reads back as the unpacked fields with the
   * fraction in units of 100 ns.
   */
  lemma DecodeReadsBack(raw: seq<int>)
    requires Representable(raw) && Calendar(raw[6 := 0]) && raw[6] < 1_000_000_000
    ensures Split(HandleDateTimeOffset(Pack(raw)).value, Widths, Separators) == Some(Tweak(raw))
  {
    UnpackPack(raw);
    var t := Tweak(raw);
    assert Calendar(t) by {
      assert forall i :: 0 <= i < 9 && i != 6 ==> t[i] == raw[6 := 0][i];
    }
    FormatReadsBack(t);
  }

  /** The record of the converter's own comment: 2017-03-16 10:35:18 at offset -06:00. */
  lemma Example()
    ensures HandleDateTimeOffset([0xE1, 0x07, 0x03, 0x00, 0x10, 0x00, 0x0A, 0x00, 0x23, 0x00,
                                  0x12, 0x00, 0x00, 0x00, 0x00, 0x00, 0xFA, 0xFF, 0x00, 0x00])
         == Some("2017-03-16 10:35:18.0000000 -06:00")
  {
    var buf: seq<Byte> := [0xE1, 0x07, 0x03, 0x00, 0x10, 0x00, 0x0A, 0x00, 0x23, 0x00,
                           0x12, 0x00, 0x00, 0x00, 0x00, 0x00, 0xFA, 0xFF, 0x00, 0x00];
    var t := [2017, 3, 16, 10, 35, 18, 0, -6, 0];
    assert Int16At(buf, 0) == 2017;
    assert Int16At(buf, 16) == -6;
    assert Unpack(buf) == Some(t);
    assert Tweak(t) == t;
    ExampleText();
  }

  lemma ExampleText()
    ensures Format([2017, 3, 16, 10, 35, 18, 0, -6, 0]) == "2017-03-16 10:35:18.0000000 -06:00"
  {
    ExampleYear();
    TwoDigits(3); TwoDigits(16); TwoDigits(10); TwoDigits(35); TwoDigits(18); TwoDigits(0);
    ExampleFraction();
    ExampleOffset();
    assert [FormatInt(2017, 4, false), FormatInt(3, 2, false), FormatInt(16, 2, false),
            FormatInt(10, 2, false), FormatInt(35, 2, false), FormatInt(18, 2, false),
            FormatInt(0, 7, false), FormatInt(-6, 3, true), FormatInt(0, 2, false)]
        == ["2017", "03", "16", "10", "35", "18", "0000000", "-06", "00"];
    ExampleAssembled();
  }

  lemma ExampleYear()
    ensures FormatInt(2017, 4, false) == "2017"
  {
    assert NatDigits(20) == "20";
    assert NatDigits(201) == "201";
    assert NatDigits(2017) == "2017";
  }

  lemma ExampleFraction()
    ensures FormatInt(0, 7, false) == "0000000"
  {
  }

  lemma ExampleOffset()
    ensures FormatInt(-6, 3, true) == "-06"
  {
  }

  lemma ExampleAssembled()
    ensures Assemble(["2017", "03", "16", "10", "35", "18", "0000000", "-06", "00"], Separators)
         == "2017-03-16 10:35:18.0000000 -06:00"
  {
    var texts := ["2017", "03", "16", "10", "35", "18", "0000000", "-06", "00"];
    AssembleNine(texts, Separators);
    assert "2017" + "-" + "03" + "-" + "16" + " " + "10" + ":" + "35" == "2017-03-16 10:35";
    assert "2017-03-16 10:35" + ":" + "18" + "." + "0000000" + " " + "-06" + ":" + "00"
        == "2017-03-16 10:35:18.0000000 -06:00";
  }

  /** One more field on a prefix of the fields. */
  lemma AssemblePrefix(texts: seq<string>, seps: string, k: nat)
    requires |texts| == |seps| + 1 && 1 <= k <= |seps|
    ensures Assemble(texts[..k + 1], seps[..k]) == Assemble(texts[..k], seps[..k - 1]) + [seps[k - 1]] + texts[k]
  {
    assert texts[..k + 1][..k] == texts[..k];
    assert seps[..k][..k - 1] == seps[..k - 1];
  }

  /** Nine fields written out. */
  lemma AssembleNine(texts: seq<string>, seps: string)
    requires |texts| == 9 && |seps| == 8
    ensures Assemble(texts, seps) == texts[0] + [seps[0]] + texts[1] + [seps[1]] + texts[2] + [seps[2]]
      + texts[3] + [seps[3]] + texts[4] + [seps[4]] + texts[5] + [seps[5]] + texts[6] + [seps[6]]
      + texts[7] + [seps[7]] + texts[8]
  {
    assert Assemble(texts[..1], seps[..0]) == texts[0];
    AssemblePrefix(texts, seps, 1);
    AssemblePrefix(texts, seps, 2);
    AssemblePrefix(texts, seps, 3);
    AssemblePrefix(texts, seps, 4);
    AssemblePrefix(texts, seps, 5);
    AssemblePrefix(texts, seps, 6);
    AssemblePrefix(texts, seps, 7);
    AssemblePrefix(texts, seps, 8);
    assert texts[..9] == texts && seps[..8] == seps;
  }
}
