/** The text-record scanner for legacy .ppt streams: `PptReader._extract_text_records` of
    `pipeline/steps/parser/ppt.py`. A record, by section 2.3.1 of [MS-PPT], is a 2-byte version and
    instance, a 2-byte type (the marker), a little-endian 4-byte length and that many bytes of data. */
module Ppt {
  import opened Wrappers

  type Byte = b: int | 0 <= b < 256

  datatype Marker = Marker(low: Byte, high: Byte)

  /** TextCharsAtom and TextBytesAtom. */
  const TEXT_RECORD_MARKERS: seq<Marker> := [Marker(0xA0, 0x0F), Marker(0xD0, 0x0F)]

  datatype Slice = Slice(start: nat, end: nat)

  predicate MarkerAt(content: seq<Byte>, marker: Marker, pos: nat) {
    pos + 1 < |content| && content[pos] == marker.low && content[pos + 1] == marker.high
  }

  predicate IsMarker(content: seq<Byte>, pos: nat) {
    MarkerAt(content, TEXT_RECORD_MARKERS[0], pos) || MarkerAt(content, TEXT_RECORD_MARKERS[1], pos)
  }

  /** `content.find(marker, pos)`. */
  function Find(content: seq<Byte>, marker: Marker, pos: nat): (found: Option<nat>)
    ensures found.Some? ==> pos <= found.value && MarkerAt(content, marker, found.value)
    ensures forall k :: pos <= k && (found.Some? ==> k < found.value) ==> !MarkerAt(content, marker, k)
    decreases |content| - pos
  {
    if pos >= |content| then None
    else if MarkerAt(content, marker, pos) then Some(pos)
    else Find(content, marker, pos + 1)
  }

  /** `m` is the first text marker from `pos` on. */
  ghost predicate IsFirstMarker(content: seq<Byte>, pos: nat, m: Option<nat>) {
    && (m.Some? ==> pos <= m.value && IsMarker(content, m.value))
    && forall k :: pos <= k && (m.Some? ==> k < m.value) ==> !IsMarker(content, k)
  }

  function FirstMarker(content: seq<Byte>, pos: nat): (m: Option<nat>)
    ensures IsFirstMarker(content, pos, m)
    decreases |content| - pos
  {
    if pos >= |content| then None
    else if IsMarker(content, pos) then Some(pos)
    else FirstMarker(content, pos + 1)
  }

  function LittleEndian(content: seq<Byte>, at: nat): nat
    requires at + 4 <= |content|
  {
    var b0: int, b1: int, b2: int, b3: int := content[at], content[at + 1], content[at + 2], content[at + 3];
    b0 + 0x100 * b1 + 0x1_0000 * b2 + 0x100_0000 * b3
  }

  /** The data slices a scan from `pos` takes. */
  function Slices(content: seq<Byte>, pos: nat): seq<Slice>
    decreases |content| - pos
  {
    match FirstMarker(content, pos)
    case None => []
    case Some(m) =>
      if m < 2 || m + 6 > |content| then []
      else
        var end := m + 6 + LittleEndian(content, m + 2);
        if end > |content| then Slices(content, m + 1) else [Slice(m + 6, end)] + Slices(content, end)
  }

  function Data(content: seq<Byte>, s: Slice): seq<Byte> {
    if s.start <= s.end <= |content| then content[s.start..s.end] else []
  }

  function Payloads(content: seq<Byte>, slices: seq<Slice>): seq<seq<Byte>> {
    seq(|slices|, i requires 0 <= i < |slices| => Data(content, slices[i]))
  }

  /** The stripped texts, without the empty ones. */
  function Texts(decode: seq<Byte> -> string, payloads: seq<seq<Byte>>): seq<string> {
    if payloads == [] then []
    else
      Texts(decode, payloads[..|payloads| - 1])
      + (if decode(payloads[|payloads| - 1]) == "" then [] else [decode(payloads[|payloads| - 1])])
  }

  // ---------------------------------------------------------------- the scan

  method FindMarker(content: seq<Byte>, pos: nat) returns (m: Option<nat>)
    ensures m == FirstMarker(content, pos)
  {
    hide FirstMarker, Find;
    m := None;
    for i := 0 to |TEXT_RECORD_MARKERS|
      invariant m.Some? ==> pos <= m.value && IsMarker(content, m.value)
      invariant forall j, k :: 0 <= j < i && pos <= k && (m.Some? ==> k < m.value) ==> !MarkerAt(content, TEXT_RECORD_MARKERS[j], k)
    {
      var found := Find(content, TEXT_RECORD_MARKERS[i], pos);
      if found.Some? && (m.None? || found.value < m.value) {
        m := found;
      }
    }
    FirstMarkerUnique(content, pos, m, FirstMarker(content, pos));
  }

  lemma FirstMarkerUnique(content: seq<Byte>, pos: nat, m: Option<nat>, m': Option<nat>)
    requires IsFirstMarker(content, pos, m) && IsFirstMarker(content, pos, m')
    ensures m == m'
  {
  }

  /** `decode` stands for the UTF-16 decoding that ignores errors, followed by the two strips. */
  method ExtractTextRecords(content: seq<Byte>, decode: seq<Byte> -> string) returns (records: seq<string>)
    ensures records == Texts(decode, Payloads(content, Slices(content, 0)))
  {
    hide FirstMarker, LittleEndian, Texts, Payloads, Slices, IsMarker;
    records := [];
    ghost var taken: seq<Slice> := [];
    var pos := 0;
    NoTexts(content, decode, taken);
    while pos < |content|
      invariant Slices(content, 0) == taken + Slices(content, pos)
      invariant records == Texts(decode, Payloads(content, taken))
      decreases |content| - pos
    {
      var markerPos := FindMarker(content, pos);
      ScanStep(content, pos);
      if markerPos.None? || markerPos.value < 2 || markerPos.value + 6 > |content| {
        break;
      }
      var recLen := LittleEndian(content, markerPos.value + 2);
      var dataStart := markerPos.value + 6;
      var dataEnd := dataStart + recLen;
      if dataEnd > |content| {
        pos := markerPos.value + 1;
        continue;
      }
      var text := decode(content[dataStart..dataEnd]);
      TakeOne(content, decode, taken, Slice(dataStart, dataEnd));
      assert taken + ([Slice(dataStart, dataEnd)] + Slices(content, dataEnd)) == (taken + [Slice(dataStart, dataEnd)]) + Slices(content, dataEnd);
      taken := taken + [Slice(dataStart, dataEnd)];
      if text != "" {
        records := records + [text];
      }
      pos := dataEnd;
    }
    NothingLeft(content, pos);
    assert taken + [] == taken;
  }

  lemma NoTexts(content: seq<Byte>, decode: seq<Byte> -> string, taken: seq<Slice>)
    requires taken == []
    ensures Texts(decode, Payloads(content, taken)) == []
  {
  }

  lemma ScanStep(content: seq<Byte>, pos: nat)
    ensures var m := FirstMarker(content, pos);
      if m.None? || m.value < 2 || m.value + 6 > |content| then Slices(content, pos) == []
      else
        var end := m.value + 6 + LittleEndian(content, m.value + 2);
        Slices(content, pos) ==
          if end > |content| then Slices(content, m.value + 1) else [Slice(m.value + 6, end)] + Slices(content, end)
  {
    hide FirstMarker, LittleEndian, IsMarker;
  }

  lemma NothingLeft(content: seq<Byte>, pos: nat)
    ensures pos >= |content| ==> Slices(content, pos) == []
  {
  }

  lemma TakeOne(content: seq<Byte>, decode: seq<Byte> -> string, taken: seq<Slice>, s: Slice)
    ensures Texts(decode, Payloads(content, taken + [s])) ==
      Texts(decode, Payloads(content, taken)) + (if decode(Data(content, s)) == "" then [] else [decode(Data(content, s))])
  {
    var all := Payloads(content, taken + [s]);
    assert all[..|all| - 1] == Payloads(content, taken);
  }

  // ---------------------------------------------------------------- slices are well placed

  /** A slice follows a marker and the length it spans. */
  ghost predicate IsRecord(content: seq<Byte>, s: Slice) {
    && 8 <= s.start <= s.end <= |content|
    && IsMarker(content, s.start - 6)
    && s.end - s.start == LittleEndian(content, s.start - 4)
  }

  /** Every slice is a record inside the content, and records, headers included, come one after the other. */
  lemma {:induction false} SlicesAreRecords(content: seq<Byte>, pos: nat)
    ensures forall i :: 0 <= i < |Slices(content, pos)| ==> IsRecord(content, Slices(content, pos)[i]) && pos <= Slices(content, pos)[i].start - 6
    ensures forall i, j :: 0 <= i < j < |Slices(content, pos)| ==> Slices(content, pos)[i].end <= Slices(content, pos)[j].start - 6
    decreases |content| - pos
  {
    hide FirstMarker, LittleEndian, IsMarker;
    var m := FirstMarker(content, pos);
    if m.Some? && 2 <= m.value && m.value + 6 <= |content| {
      var end := m.value + 6 + LittleEndian(content, m.value + 2);
      if end > |content| {
        SlicesAreRecords(content, m.value + 1);
      } else {
        SlicesAreRecords(content, end);
      }
    }
  }

  /** A marker in the first two bytes ends the scan with nothing, whatever follows it. */
  lemma EarlyMarkerStopsScan(content: seq<Byte>)
    requires IsMarker(content, 0) || IsMarker(content, 1)
    ensures Slices(content, 0) == []
  {
    hide IsMarker;
  }

  // ---------------------------------------------------------------- the printer

  /** What is written for one text: `gap`, the 2-byte header with whatever other records come before
      it, then marker, length and payload. */
  datatype Record = Record(gap: seq<Byte>, kind: bool, payload: seq<Byte>)

  function U32(n: nat): seq<Byte> {
    [n % 0x100, n / 0x100 % 0x100, n / 0x1_0000 % 0x100, n / 0x100_0000 % 0x100]
  }

  function EncodeRecord(r: Record): seq<Byte> {
    var marker := TEXT_RECORD_MARKERS[if r.kind then 0 else 1];
    r.gap + [marker.low, marker.high] + U32(|r.payload|) + r.payload
  }

  function Encode(records: seq<Record>): seq<Byte> {
    if records == [] then [] else EncodeRecord(records[0]) + Encode(records[1..])
  }

  ghost predicate NoMarker(bytes: seq<Byte>) {
    forall k :: 0 <= k ==> !IsMarker(bytes, k)
  }

  /** Gaps hold no marker and every length fits in 32 bits; a payload may hold anything. */
  ghost predicate Printable(records: seq<Record>) {
    forall i :: 0 <= i < |records| ==> |records[i].gap| >= 2 && NoMarker(records[i].gap) && |records[i].payload| < 0x1_0000_0000
  }

  function PayloadsOf(records: seq<Record>): seq<seq<Byte>> {
    seq(|records|, i requires 0 <= i < |records| => records[i].payload)
  }

  lemma U32RoundTrip(n: nat)
    requires n < 0x1_0000_0000
    ensures LittleEndian(U32(n), 0) == n
  {
    assert n / 0x1_0000 == n / 0x100 / 0x100;
    assert n / 0x100_0000 == n / 0x1_0000 / 0x100;
  }

  lemma TakesRecord(content: seq<Byte>, pos: nat, m: nat)
    requires IsFirstMarker(content, pos, Some(m)) && 2 <= m && m + 6 <= |content|
    requires m + 6 + LittleEndian(content, m + 2) <= |content|
    ensures var end := m + 6 + LittleEndian(content, m + 2);
      Slices(content, pos) == [Slice(m + 6, end)] + Slices(content, end)
  {
    hide IsMarker, LittleEndian, FirstMarker;
    FirstMarkerUnique(content, pos, Some(m), FirstMarker(content, pos));
  }

  lemma EncodedLength(r: Record)
    ensures |EncodeRecord(r)| == |r.gap| + 6 + |r.payload|
  {
    hide U32;
    assert |U32(|r.payload|)| == 4 by { LengthOfU32(|r.payload|); }
  }

  lemma LengthOfU32(n: nat)
    ensures |U32(n)| == 4
  {
  }

  /** The bytes of `r` stand at `pos`. */
  ghost predicate RecordAt(content: seq<Byte>, pos: nat, r: Record) {
    && pos + |EncodeRecord(r)| <= |content|
    && forall k :: 0 <= k < |EncodeRecord(r)| ==> content[pos + k] == EncodeRecord(r)[k]
  }

  /** Scanning at the start of an encoded record takes its payload and goes on right behind it. */
  lemma ScanOne(content: seq<Byte>, pos: nat, r: Record)
    requires |r.gap| >= 2 && NoMarker(r.gap) && |r.payload| < 0x1_0000_0000 && RecordAt(content, pos, r)
    ensures var end := pos + |r.gap| + 6 + |r.payload|;
      end <= |content| && Slices(content, pos) == [Slice(end - |r.payload|, end)] + Slices(content, end)
  {
    hide IsFirstMarker, NoMarker, LittleEndian, EncodeRecord, Slices;
    EncodedLength(r);
    GapIsSkipped(content, pos, r);
    LengthIsRead(content, pos, r);
    TakesRecord(content, pos, pos + |r.gap|);
  }

  lemma GapIsSkipped(content: seq<Byte>, pos: nat, r: Record)
    requires NoMarker(r.gap) && RecordAt(content, pos, r)
    ensures IsFirstMarker(content, pos, Some(pos + |r.gap|))
  {
    hide U32;
    var bytes, m := EncodeRecord(r), pos + |r.gap|;
    assert content[m] == bytes[|r.gap|] && content[m + 1] == bytes[|r.gap| + 1];
    forall k | pos <= k < m
      ensures !IsMarker(content, k)
    {
      assert content[k] == bytes[k - pos] == r.gap[k - pos];
      assert content[k + 1] == bytes[k + 1 - pos];
      assert k + 1 < m ==> bytes[k + 1 - pos] == r.gap[k + 1 - pos];
      assert !IsMarker(r.gap, k - pos);
    }
  }

  lemma LengthIsRead(content: seq<Byte>, pos: nat, r: Record)
    requires |r.payload| < 0x1_0000_0000 && RecordAt(content, pos, r)
    ensures pos + |r.gap| + 6 <= |content| && LittleEndian(content, pos + |r.gap| + 2) == |r.payload|
  {
    var bytes, at := EncodeRecord(r), |r.gap| + 2;
    EncodedLength(r);
    forall k | 0 <= k < 4
      ensures content[pos + at + k] == U32(|r.payload|)[k]
    {
      assert content[pos + (at + k)] == bytes[at + k];
    }
    SameBytes(content, pos + at, U32(|r.payload|));
    U32RoundTrip(|r.payload|);
  }

  lemma SameBytes(content: seq<Byte>, at: nat, bytes: seq<Byte>)
    requires at + 4 <= |content| && |bytes| == 4 && forall k :: 0 <= k < 4 ==> content[at + k] == bytes[k]
    ensures LittleEndian(content, at) == LittleEndian(bytes, 0)
  {
  }

  /** The scan undoes the printer: behind any prefix, encoded records give back exactly their
      payloads, in order, even where a payload holds marker bytes. */
  lemma {:induction false} ScanUndoesEncode(before: seq<Byte>, records: seq<Record>, after: seq<Byte>)
    requires Printable(records) && NoMarker(after)
    ensures var content := before + Encode(records) + after;
      Payloads(content, Slices(content, |before|)) == PayloadsOf(records)
    decreases |records|
  {
    hide NoMarker, IsMarker, EncodeRecord, Slices, Payloads, PayloadsOf, Encode;
    if records == [] {
      NothingEncoded(content := before + Encode(records) + after, before := before, records := records, after := after);
    } else {
      var r, content := records[0], before + Encode(records) + after;
      var first := before + EncodeRecord(r);
      EncodeCons(before, records, after);
      ScanUndoesEncode(first, records[1..], after);
      ScanOne(content, |before|, r);
      ConsPayloads(content, Slice(|first| - |r.payload|, |first|), Slices(content, |first|), records);
    }
  }

  lemma NothingEncoded(content: seq<Byte>, before: seq<Byte>, records: seq<Record>, after: seq<Byte>)
    requires records == [] && content == before + Encode(records) + after && NoMarker(after)
    ensures Payloads(content, Slices(content, |before|)) == PayloadsOf(records)
  {
    hide NoMarker, Slices;
    assert content == before + after;
    TailIsSkipped(before, after);
  }

  lemma EncodeCons(before: seq<Byte>, records: seq<Record>, after: seq<Byte>)
    requires records != []
    ensures var r, content := records[0], before + Encode(records) + after;
      && content == (before + EncodeRecord(r)) + Encode(records[1..]) + after
      && RecordAt(content, |before|, r) && |EncodeRecord(r)| == |r.gap| + 6 + |r.payload|
      && Data(content, Slice(|before| + |r.gap| + 6, |before| + |EncodeRecord(r)|)) == r.payload
  {
    hide EncodeRecord;
    var r := records[0];
    EncodedLength(r);
    PayloadIsSuffix(r);
    Regroup(before, EncodeRecord(r), Encode(records[1..]), after);
    StandsAt(before, EncodeRecord(r), Encode(records[1..]) + after, |r.gap| + 6);
  }

  lemma Regroup(a: seq<Byte>, b: seq<Byte>, c: seq<Byte>, d: seq<Byte>)
    ensures a + (b + c) + d == (a + b) + c + d == (a + b) + (c + d)
  {
  }

  lemma StandsAt(a: seq<Byte>, b: seq<Byte>, c: seq<Byte>, i: nat)
    requires i <= |b|
    ensures var content := (a + b) + c;
      (forall k :: 0 <= k < |b| ==> content[|a| + k] == b[k]) && content[|a| + i..|a| + |b|] == b[i..]
  {
  }

  lemma PayloadIsSuffix(r: Record)
    ensures |EncodeRecord(r)| == |r.gap| + 6 + |r.payload| && EncodeRecord(r)[|r.gap| + 6..] == r.payload
  {
    hide U32;
    EncodedLength(r);
  }

  lemma TailIsSkipped(before: seq<Byte>, after: seq<Byte>)
    requires NoMarker(after)
    ensures Slices(before + after, |before|) == []
  {
    hide FirstMarker;
    var content := before + after;
    forall k | |before| <= k
      ensures !IsMarker(content, k)
    {
      assert !IsMarker(after, k - |before|);
    }
  }

  lemma ConsPayloads(content: seq<Byte>, s: Slice, slices: seq<Slice>, records: seq<Record>)
    requires |records| > 0 && Data(content, s) == records[0].payload && Payloads(content, slices) == PayloadsOf(records[1..])
    ensures Payloads(content, [s] + slices) == PayloadsOf(records)
  {
    assert |slices| == |records| - 1;
    forall i | 0 <= i < |records|
      ensures Payloads(content, [s] + slices)[i] == records[i].payload
    {
      if i > 0 {
        assert Payloads(content, slices)[i - 1] == PayloadsOf(records[1..])[i - 1];
      }
    }
  }

  /** A whole stream of records reads back as the decoded texts of its payloads. */
  lemma EncodedTextsReadBack(records: seq<Record>, after: seq<Byte>, decode: seq<Byte> -> string)
    requires Printable(records) && NoMarker(after)
    ensures var content := Encode(records) + after;
      Texts(decode, Payloads(content, Slices(content, 0))) == Texts(decode, PayloadsOf(records))
  {
    ScanUndoesEncode([], records, after);
    assert [] + Encode(records) + after == Encode(records) + after;
  }

  /** The texts are those of the payloads in order, without the empty ones. */
  lemma {:induction false} TextsConcat(decode: seq<Byte> -> string, a: seq<seq<Byte>>, b: seq<seq<Byte>>)
    ensures Texts(decode, a + b) == Texts(decode, a) + Texts(decode, b)
  {
    if b == [] {
      assert a + b == a;
    } else {
      assert (a + b)[..|a + b| - 1] == a + b[..|b| - 1];
      TextsConcat(decode, a, b[..|b| - 1]);
    }
  }

  lemma TextOfOne(decode: seq<Byte> -> string, payload: seq<Byte>)
    ensures Texts(decode, [payload]) == if decode(payload) == "" then [] else [decode(payload)]
  {
    assert [payload][..0] == [];
  }

  /** Byte by byte: a header, either marker, the length 2 with its low byte first, and two bytes of text. */
  lemma SmallRecordReads(low: Byte, a: Byte, b: Byte)
    requires low == 0xA0 || low == 0xD0
    ensures var content: seq<Byte> := [0, 0, low, 0x0F, 2, 0, 0, 0, a, b];
      Payloads(content, Slices(content, 0)) == [[a, b]]
  {
    var content: seq<Byte> := [0, 0, low, 0x0F, 2, 0, 0, 0, a, b];
    assert !IsMarker(content, 0) && !IsMarker(content, 1) && IsMarker(content, 2);
    assert IsFirstMarker(content, 0, Some(2));
    assert LittleEndian(content, 4) == 2;
    TakesRecord(content, 0, 2);
    NothingAtTheEnd(content);
    assert Slices(content, 0) == [Slice(8, 10)];
    assert Data(content, Slice(8, 10)) == [a, b];
  }

  lemma NothingAtTheEnd(content: seq<Byte>)
    ensures Slices(content, |content|) == []
  {
  }
}
