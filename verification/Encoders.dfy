/**
 The encoders: append with placeholders, then patch. Each is proved to append
 exactly the bytes the layout prescribes.
 */
module Encoders {
  import opened Wrappers
  import opened Bytes
  import opened Frames
  import opened Layout
  import opened Table
  import opened NodeDraft
  import opened TableDraft
  import opened Entries
  import opened ByteBuffers

  /** A table head written in two runs: the vtable, then the table's own fields. */
  lemma HeadSplit(t: Table, vtable: seq<Field>, fields: seq<Field>)
    requires vtable == [U16(4 + 2 * |t.slots|), U16(t.size)] + SlotFields(t.slots) + [Zeros(t.pad)]
    requires fields == [U32(TableOff(t))] + t.body
    ensures Inline(vtable) + Inline(fields) == Inline(TableHead(t))
    ensures |Inline(vtable)| == TableOff(t)
  {
    hide Inline, Off;
    InlineConcat(vtable, fields);
    assert vtable + fields == TableHead(t);
    InlineLength(vtable);
    BodyOff(t, 0);
    OffPrefix(vtable, TableHead(t), |vtable|);
  }

  /** Both runs written after `pre`: the draft of the table begins. */
  lemma HeadWritten(pre: seq<byte>, t: Table, vtable: seq<Field>, fields: seq<Field>)
    requires Sound(t)
    requires vtable == [U16(4 + 2 * |t.slots|), U16(t.size)] + SlotFields(t.slots) + [Zeros(t.pad)]
    requires fields == [U32(TableOff(t))] + t.body
    ensures pre + Inline(vtable) + Inline(fields) == DraftOf(pre, t, 0, 0)
    ensures |Inline(vtable)| == TableOff(t)
  {
    hide Inline, Off, TableHead, DraftOf, Sound;
    HeadSplit(t, vtable, fields);
    TableStart(pre, t);
    Assoc(pre, Inline(vtable), Inline(fields));
  }

  ghost predicate VtableOf(t: Table, vtable: seq<Field>) {
    vtable == [U16(4 + 2 * |t.slots|), U16(t.size)] + SlotFields(t.slots) + [Zeros(t.pad)]
  }

  /** The vtable, then the table with its distance back to the vtable. */
  method WriteHead(buf: ByteBuffer, ghost t: Table, vtable: seq<Field>, body: seq<Field>) returns (tableStart: nat)
    requires Sound(t) && VtableOf(t, vtable) && body == t.body
    modifies buf
    ensures buf.bytes == DraftOf(old(buf.bytes), t, 0, 0)
    ensures tableStart == |old(buf.bytes)| + TableOff(t)
  {
    hide Inline, Off, DraftOf, TableOff, Sound;
    ghost var pre := buf.bytes;
    HeadWritten(pre, t, vtable, [U32(TableOff(t))] + body);
    var vtableStart := |buf.bytes|;
    buf.WriteFields(vtable);
    tableStart := |buf.bytes|;
    buf.WriteFields([U32(tableStart - vtableStart)] + body);
  }

  // ---- Events ----

  ghost predicate Started(start: Option<nat>, pre: nat, t: Table, j: nat)
    requires j < |t.parts|
  {
    && (start.Some? <==> t.parts[j].kid.Some?)
    && (start.Some? ==> start.value == StartOf(pre, t, j) + t.parts[j].kid.value.root)
  }

  method WriteEventParts(buf: ByteBuffer, e: Event, ghost pre: seq<byte>)
    returns (deviceId: Option<nat>, sessionId: Option<nat>, service: Option<nat>, eventName: Option<nat>,
        payload: Option<nat>)
    requires Sound(EventTable(e)) && buf.bytes == DraftOf(pre, EventTable(e), 0, 0)
    modifies buf
    ensures buf.bytes == DraftOf(pre, EventTable(e), 0, 5)
    ensures var t := EventTable(e);
      && Started(deviceId, |pre|, t, 0) && Started(sessionId, |pre|, t, 1) && Started(service, |pre|, t, 2)
      && Started(eventName, |pre|, t, 3) && Started(payload, |pre|, t, 4)
  {
    hide Off, DraftOf, PartPad, KidBytes, PartAt, Sound, BlobBytes, TextBytes, SlotIf;
    ghost var t := EventTable(e);
    PartWritten(pre, t, 0);
    deviceId := buf.WriteBlobPart(e.deviceId);
    PartWritten(pre, t, 1);
    sessionId := buf.WriteBlobPart(e.sessionId);
    PartWritten(pre, t, 2);
    service := buf.WriteTextPart(e.service);
    PartWritten(pre, t, 3);
    eventName := buf.WriteTextPart(e.eventName);
    PartWritten(pre, t, 4);
    payload := buf.WriteBlobPart(e.payload);
  }

  lemma EventLinks(e: Event)
    ensures var t := EventTable(e);
      && |t.links| == |t.parts| == 5
      && (forall i :: 0 <= i < 5 ==> t.links[i] <= |t.body|)
      && LinkAt(t, 0) == 4 && LinkAt(t, 1) == 8 && LinkAt(t, 2) == 32 && LinkAt(t, 3) == 12 && LinkAt(t, 4) == 16
  {
    hide Off, BlobPart, TextPart;
    EventOffsets(e);
  }

  method PatchEventParts(buf: ByteBuffer, e: Event, ghost pre: seq<byte>, tableStart: nat, deviceId: Option<nat>,
                         sessionId: Option<nat>, service: Option<nat>, eventName: Option<nat>, payload: Option<nat>)
    requires Sound(EventTable(e)) && buf.bytes == DraftOf(pre, EventTable(e), 0, 5)
    requires tableStart == |pre| + TableOff(EventTable(e))
    requires var t := EventTable(e);
      && Started(deviceId, |pre|, t, 0) && Started(sessionId, |pre|, t, 1) && Started(service, |pre|, t, 2)
      && Started(eventName, |pre|, t, 3) && Started(payload, |pre|, t, 4)
    modifies buf
    ensures buf.bytes == DraftOf(pre, EventTable(e), 5, 5)
  {
    hide DraftOf, StartOf, Sound, Patched, EventTable, LinkAt, TableOff;
    ghost var t := EventTable(e);
    EventLinks(e);
    PartPatched(pre, t, 0, deviceId);
    buf.PatchPart(tableStart + 4, deviceId);
    PartPatched(pre, t, 1, sessionId);
    buf.PatchPart(tableStart + 8, sessionId);
    PartPatched(pre, t, 2, service);
    buf.PatchPart(tableStart + 32, service);
    PartPatched(pre, t, 3, eventName);
    buf.PatchPart(tableStart + 12, eventName);
    PartPatched(pre, t, 4, payload);
    buf.PatchPart(tableStart + 16, payload);
  }

  method EncodeEventInto(buf: ByteBuffer, e: Event)
    modifies buf
    ensures buf.bytes == old(buf.bytes) + EntryAt(EventEntry(e), |old(buf.bytes)|)
  {
    hide Inline, Off, BlobPart, TextPart, DraftOf, LE32, Patched, PartAt, TableBytes, Sound;
    ghost var before := buf.bytes;
    ghost var t := EventTable(e);
    EventOffsets(e);
    var rootPos := |buf.bytes|;
    buf.Write(U32(0));
    ghost var pre := buf.bytes;
    var tableStart := WriteHead(buf, t,
      [U16(4 + 7 * 2), U16(4 + 32), U16(28), U16(20), U16(SlotIf(e.service.Some?, 32)),
       U16(SlotIf(e.deviceId.Some?, 4)), U16(SlotIf(e.sessionId.Some?, 8)), U16(SlotIf(e.eventName.Some?, 12)),
       U16(SlotIf(e.payload.Some?, 16)), Zeros(2)],
      [U32(0), U32(0), U32(0), U32(0), U64(e.timestamp), U8(e.eventType), Zeros(3), U32(0)]);
    var deviceId, sessionId, service, eventName, payload := WriteEventParts(buf, e, pre);
    RootPatched(before, t, tableStart - rootPos, 0);
    buf.PatchU32(rootPos, tableStart - rootPos);
    PatchEventParts(buf, e, before + LE32(AsU32(24)), tableStart, deviceId, sessionId, service, eventName, payload);
    EntryDone(before, t);
  }

  // ---- Log entries ----

  method WriteLogParts(buf: ByteBuffer, l: LogLine, ghost pre: seq<byte>)
    returns (sessionId: Option<nat>, source: Option<nat>, service: Option<nat>, payload: Option<nat>)
    requires Sound(LogTable(l)) && buf.bytes == DraftOf(pre, LogTable(l), 0, 0)
    modifies buf
    ensures buf.bytes == DraftOf(pre, LogTable(l), 0, 4)
    ensures var t := LogTable(l);
      && Started(sessionId, |pre|, t, 0) && Started(source, |pre|, t, 1)
      && Started(service, |pre|, t, 2) && Started(payload, |pre|, t, 3)
  {
    hide Off, DraftOf, PartPad, KidBytes, PartAt, Sound, BlobBytes, TextBytes, SlotIf;
    ghost var t := LogTable(l);
    PartWritten(pre, t, 0);
    sessionId := buf.WriteBlobPart(l.sessionId);
    PartWritten(pre, t, 1);
    source := buf.WriteTextPart(l.source);
    PartWritten(pre, t, 2);
    service := buf.WriteTextPart(l.service);
    PartWritten(pre, t, 3);
    payload := buf.WriteBlobPart(l.payload);
  }

  lemma LogLinks(l: LogLine)
    ensures var t := LogTable(l);
      && |t.links| == |t.parts| == 4
      && (forall i :: 0 <= i < 4 ==> t.links[i] <= |t.body|)
      && LinkAt(t, 0) == 4 && LinkAt(t, 1) == 8 && LinkAt(t, 2) == 12 && LinkAt(t, 3) == 16
  {
    hide Off, BlobPart, TextPart;
    LogOffsets(l);
  }

  method PatchLogParts(buf: ByteBuffer, l: LogLine, ghost pre: seq<byte>, tableStart: nat, sessionId: Option<nat>,
                       source: Option<nat>, service: Option<nat>, payload: Option<nat>)
    requires Sound(LogTable(l)) && buf.bytes == DraftOf(pre, LogTable(l), 0, 4)
    requires tableStart == |pre| + TableOff(LogTable(l))
    requires var t := LogTable(l);
      && Started(sessionId, |pre|, t, 0) && Started(source, |pre|, t, 1)
      && Started(service, |pre|, t, 2) && Started(payload, |pre|, t, 3)
    modifies buf
    ensures buf.bytes == DraftOf(pre, LogTable(l), 4, 4)
  {
    hide DraftOf, StartOf, Sound, Patched, LogTable, LinkAt, TableOff;
    ghost var t := LogTable(l);
    LogLinks(l);
    PartPatched(pre, t, 0, sessionId);
    buf.PatchPart(tableStart + 4, sessionId);
    PartPatched(pre, t, 1, source);
    buf.PatchPart(tableStart + 8, source);
    PartPatched(pre, t, 2, service);
    buf.PatchPart(tableStart + 12, service);
    PartPatched(pre, t, 3, payload);
    buf.PatchPart(tableStart + 16, payload);
  }

  method EncodeLogEntryInto(buf: ByteBuffer, l: LogLine)
    modifies buf
    ensures buf.bytes == old(buf.bytes) + EntryAt(LogEntry(l), |old(buf.bytes)|)
  {
    hide Inline, Off, BlobPart, TextPart, DraftOf, LE32, Patched, PartAt, TableBytes, Sound;
    ghost var before := buf.bytes;
    ghost var t := LogTable(l);
    LogOffsets(l);
    var rootPos := |buf.bytes|;
    buf.Write(U32(0));
    ghost var pre := buf.bytes;
    var tableStart := WriteHead(buf, t,
      [U16(4 + 7 * 2), U16(4 + 28), U16(28), U16(SlotIf(l.sessionId.Some?, 4)), U16(29), U16(20),
       U16(SlotIf(l.source.Some?, 8)), U16(SlotIf(l.service.Some?, 12)), U16(SlotIf(l.payload.Some?, 16)), Zeros(2)],
      [U32(0), U32(0), U32(0), U32(0), U64(l.timestamp), U8(l.eventType), U8(l.level), Zeros(2)]);
    var sessionId, source, service, payload := WriteLogParts(buf, l, pre);
    RootPatched(before, t, tableStart - rootPos, 0);
    buf.PatchU32(rootPos, tableStart - rootPos);
    PatchLogParts(buf, l, before + LE32(AsU32(24)), tableStart, sessionId, source, service, payload);
    EntryDone(before, t);
  }

  // ---- Vectors of tables ----

  lemma OneMoreField(fs: seq<Field>, f: Field)
    ensures Inline(fs + [f]) == Inline(fs) + FieldBytes(f)
  {
    hide FieldBytes;
    assert (fs + [f])[..|fs|] == fs;
  }

  lemma OneField(f: Field)
    ensures |Inline([f])| == Width(f)
  {
    hide FieldBytes;
    OneMoreField([], f);
    assert [] + [f] == [f];
  }

  /** The count and a zero slot per element. */
  method WriteVectorHeader(buf: ByteBuffer, ghost kids: seq<Kid>, count: nat)
    requires count == |kids|
    modifies buf
    ensures buf.bytes == VectorDraft(old(buf.bytes), kids, 0, 0)
    ensures |buf.bytes| == |old(buf.bytes)| + 4 + 4 * count
  {
    hide FieldBytes, VectorDraft, Inline;
    ghost var pre := buf.bytes;
    VectorStart(pre, kids);
    buf.WriteFields([U32(count)]);
    var i := 0;
    assert [U32(count)] + seq(0, _ => U32(0)) == [U32(count)];
    OneField(U32(count));
    while i < count
      invariant i <= count
      invariant buf.bytes == pre + Inline([U32(count)] + seq(i, _ => U32(0)))
      invariant |buf.bytes| == |pre| + 4 + 4 * i
    {
      buf.Write(U32(0));
      OneMoreField([U32(count)] + seq(i, _ => U32(0)), U32(0));
      assert ([U32(count)] + seq(i, _ => U32(0))) + [U32(0)] == [U32(count)] + seq(i + 1, _ => U32(0));
      Assoc(pre, Inline([U32(count)] + seq(i, _ => U32(0))), FieldBytes(U32(0)));
      i := i + 1;
    }
  }

  /** Where the tables of the first `n` elements of a vector at `start` are. */
  ghost predicate Positions(positions: seq<nat>, start: nat, kids: seq<Kid>, n: nat)
    requires n <= |kids|
  {
    |positions| == n && forall j :: 0 <= j < n ==> positions[j] == ElementStart(start, kids, j) + kids[j].root
  }

  /** Padding after the slots that is not yet the first element's; what is left of it if there is no element. */
  ghost function SlotPad(pre: seq<byte>, kids: seq<Kid>, written: nat): seq<byte>
    requires written <= |kids|
  {
    if written == 0 then Pad(|VectorDraft(pre, kids, 0, 0)|) else []
  }

  /** Fills in every slot of a vector whose elements are all written. */
  method PatchSlots(buf: ByteBuffer, ghost pre: seq<byte>, ghost kids: seq<Kid>, slotsStart: nat, positions: seq<nat>)
    requires slotsStart == |pre| + 4
    requires buf.bytes == VectorDraft(pre, kids, 0, |kids|) + SlotPad(pre, kids, |kids|)
    requires Positions(positions, |pre|, kids, |kids|)
    modifies buf
    ensures buf.bytes == pre + VectorAt(kids, |pre|) + SlotPad(pre, kids, |kids|)
  {
    hide VectorDraft, Patched, ElementStart, VectorAt, Pad;
    ghost var pad := SlotPad(pre, kids, |kids|);
    var i := 0;
    while i < |positions|
      invariant i <= |positions| && buf.bytes == VectorDraft(pre, kids, i, |kids|) + pad
    {
      ElementPatched(pre, kids, i);
      assert VectorDraft(pre, kids, i, |kids|) + [] == VectorDraft(pre, kids, i, |kids|);
      buf.PatchOffset(slotsStart + i * 4, positions[i]);
      assert VectorDraft(pre, kids, i + 1, |kids|) + [] == VectorDraft(pre, kids, i + 1, |kids|);
      i := i + 1;
    }
    VectorDone(pre, kids);
  }

  /** Aligning twice is aligning once. */
  lemma PadOnce(x: seq<byte>)
    ensures Pad(|x + Pad(|x|)|) == []
    ensures |x + Pad(|x|)| % 4 == 0
  {
  }

  // ---- Labels ----

  method EncodeLabel(buf: ByteBuffer, l: Label) returns (tableStart: nat)
    requires |buf.bytes| % 4 == 0
    modifies buf
    ensures buf.bytes == old(buf.bytes) + LabelKid(l).bytes
    ensures tableStart == |old(buf.bytes)| + LabelKid(l).root
  {
    hide Inline, Off, DraftOf, Patched, PartAt, PartPad, KidBytes, TextBytes, Sound, TableOff;
    ghost var pre := buf.bytes;
    ghost var t := LabelTable(l);
    LabelOffsets(l);
    tableStart := WriteHead(buf, t, [U16(8), U16(12), U16(4), U16(8), Zeros(0)], [U32(0), U32(0)]);
    PartWritten(pre, t, 0);
    var key := buf.WriteTextPart(Some(l.key));
    PartWritten(pre, t, 1);
    var value := buf.WriteTextPart(Some(l.value));
    PartPatched(pre, t, 0, key);
    buf.PatchPart(tableStart + 4, key);
    PartPatched(pre, t, 1, value);
    buf.PatchPart(tableStart + 8, value);
    TableDone(pre, t);
    TableMod(t, |pre|, 0);
  }

  method EncodeLabels(buf: ByteBuffer, labels: seq<Label>) returns (start: nat)
    modifies buf
    ensures start == |old(buf.bytes)|
    ensures buf.bytes
         == old(buf.bytes) + VectorAt(LabelKids(labels), start) + if labels == [] then Pad(start + 4) else []
  {
    hide VectorDraft, LabelKid, ElementStart, VectorAt, Pad;
    ghost var pre := buf.bytes;
    ghost var kids := LabelKids(labels);
    start := |buf.bytes|;
    WriteVectorHeader(buf, kids, |labels|);
    buf.Align4();
    var positions: seq<nat> := [];
    var i := 0;
    while i < |labels|
      invariant i <= |labels| && buf.bytes == VectorDraft(pre, kids, 0, i) + SlotPad(pre, kids, i)
      invariant Positions(positions, |pre|, kids, i)
      invariant |VectorDraft(pre, kids, 0, 0)| == start + 4 + 4 * |labels|
    {
      ghost var d := VectorDraft(pre, kids, 0, i);
      ElementWritten(pre, kids, i);
      PadOnce(d);
      assert d + [] == d && d + Pad(|d|) + [] == d + Pad(|d|);
      buf.Align4();
      assert buf.bytes == d + Pad(|d|);
      var tableStart := EncodeLabel(buf, labels[i]);
      positions := positions + [tableStart];
      i := i + 1;
      assert VectorDraft(pre, kids, 0, i) + [] == VectorDraft(pre, kids, 0, i);
    }
    PatchSlots(buf, pre, kids, start + 4, positions);
  }

  lemma NoPad(pos: nat)
    requires pos % 4 == 0
    ensures Pad(pos) == []
  {
  }

  lemma AlignedAfter(pos: nat)
    ensures (pos + |Pad(pos)|) % 4 == 0
  {
  }

  // ---- Histograms ----

  method EncodeBucket(buf: ByteBuffer, k: Bucket) returns (tableStart: nat)
    requires |buf.bytes| % 4 == 0
    modifies buf
    ensures buf.bytes == old(buf.bytes) + BucketKid(k).bytes
    ensures tableStart == |old(buf.bytes)| + BucketKid(k).root
    ensures |buf.bytes| == |old(buf.bytes)| + 28
  {
    hide Inline, Off, DraftOf, Sound, TableOff, Pad;
    ghost var pre := buf.bytes;
    ghost var t := BucketTable(k);
    BucketOffsets(k);
    TableStart(pre, t);
    tableStart := WriteHead(buf, t, [U16(8), U16(20), U16(4), U16(12), Zeros(0)], [U64(k.upperBound), U64(k.count)]);
    NoPad(|buf.bytes|);
    buf.Align4();
    TableDone(pre, t);
    TableMod(t, |pre|, 0);
  }

  method EncodeBuckets(buf: ByteBuffer, buckets: seq<Bucket>) returns (start: nat)
    modifies buf
    ensures start == |old(buf.bytes)|
    ensures buf.bytes
         == old(buf.bytes) + VectorAt(BucketKids(buckets), start) + if buckets == [] then Pad(start + 4) else []
  {
    hide VectorDraft, BucketKid, ElementStart, VectorAt, Pad;
    ghost var pre := buf.bytes;
    ghost var kids := BucketKids(buckets);
    start := |buf.bytes|;
    WriteVectorHeader(buf, kids, |buckets|);
    PadOnce(buf.bytes);
    buf.Align4();
    var positions: seq<nat> := [];
    var i := 0;
    while i < |buckets|
      invariant i <= |buckets| && buf.bytes == VectorDraft(pre, kids, 0, i) + SlotPad(pre, kids, i)
      invariant |buf.bytes| % 4 == 0
      invariant Positions(positions, |pre|, kids, i)
      invariant |VectorDraft(pre, kids, 0, 0)| == start + 4 + 4 * |buckets|
    {
      ghost var d := VectorDraft(pre, kids, 0, i);
      ElementWritten(pre, kids, i);
      if i > 0 {
        assert d + [] == d;
        NoPad(|d|);
      }
      assert buf.bytes == d + Pad(|d|);
      var tableStart := EncodeBucket(buf, buckets[i]);
      positions := positions + [tableStart];
      i := i + 1;
      assert VectorDraft(pre, kids, 0, i) + [] == VectorDraft(pre, kids, 0, i);
    }
    PatchSlots(buf, pre, kids, start + 4, positions);
  }

  lemma SevenSlots(vtable: seq<Field>)
    requires |vtable| == 7 && forall i :: 0 <= i < 7 ==> vtable[i].U16?
    ensures |Inline(vtable)| == 14
  {
    hide Inline;
    InlineLength(vtable);
    assert Off(vtable, 1) == 2;
    assert Off(vtable, 2) == 4;
    assert Off(vtable, 3) == 6;
    assert Off(vtable, 4) == 8;
    assert Off(vtable, 5) == 10;
    assert Off(vtable, 6) == 12;
  }

  /** Aligning is the same as one more zero field. */
  lemma PadField(fs: seq<Field>, pre: seq<byte>)
    ensures var pad := Pad(|pre + Inline(fs)|);
      pre + Inline(fs) + pad == pre + Inline(fs + [Zeros(|pad|)])
  {
    hide Inline;
    var pad := Pad(|pre + Inline(fs)|);
    OneMoreField(fs, Zeros(|pad|));
    Assoc(pre, Inline(fs), pad);
  }

  method WriteHistogramHead(buf: ByteBuffer, h: Histogram) returns (tableStart: nat)
    requires Sound(HistogramTable(h, |buf.bytes|))
    modifies buf
    ensures buf.bytes == DraftOf(old(buf.bytes), HistogramTable(h, |old(buf.bytes)|), 0, 0)
    ensures tableStart == |old(buf.bytes)| + TableOff(HistogramTable(h, |old(buf.bytes)|))
  {
    hide Inline, Off, DraftOf, Sound, TableOff, VectorOrNone, FieldBytes, Pad;
    ghost var pre := buf.bytes;
    ghost var t := HistogramTable(h, |pre|);
    HistogramOffsets(h, |pre|);
    var vtable := [U16(14), U16(40), U16(4), U16(12), U16(SlotIf(h.buckets != [], 20)), U16(24), U16(32)];
    var fields := [U64(h.count), U64(h.sum), U32(0), U64(h.min), U64(h.max)];
    HeadWritten(pre, t, vtable + [Zeros(|Pad(|pre| + 14)|)], [U32(TableOff(t))] + fields);
    SevenSlots(vtable);
    PadField(vtable, pre);
    var vtableStart := |buf.bytes|;
    buf.WriteFields(vtable);
    buf.Align4();
    tableStart := |buf.bytes|;
    buf.WriteFields([U32(tableStart - vtableStart)] + fields);
  }

  lemma AlignedHistogram(pos: nat)
    ensures (pos + 14 + |Pad(pos + 14)| + 40) % 4 == 0
  {
  }

  /** The vtable is not aligned; the table after it is. */
  method EncodeHistogram(buf: ByteBuffer, h: Histogram) returns (tableStart: nat)
    modifies buf
    ensures var kid := HistogramPart(Some(h), |old(buf.bytes)|).kid.value;
      buf.bytes == old(buf.bytes) + kid.bytes && tableStart == |old(buf.bytes)| + kid.root
  {
    hide Inline, Off, DraftOf, Sound, TableOff, Patched, Pad, PartAt, VectorBytes, VectorAt, BucketKids;
    ghost var pre := buf.bytes;
    ghost var t := HistogramTable(h, |pre|);
    HistogramOffsets(h, |pre|);
    TableStart(pre, t);
    tableStart := WriteHistogramHead(buf, h);
    AlignedHistogram(|pre|);
    NoPad(|buf.bytes|);
    PartWritten(pre, t, 0);
    buf.Align4();
    var buckets := None;
    if h.buckets != [] {
      ghost var at, vector := buf.bytes, VectorBytes(BucketKids(h.buckets));
      VectorMod(BucketKids(h.buckets), |at|);
      var start := EncodeBuckets(buf, h.buckets);
      assert (at + vector) + [] == at + vector;
      buckets := Some(start);
    }
    PartPatched(pre, t, 0, buckets);
    buf.PatchPart(tableStart + 20, buckets);
    TableDone(pre, t);
  }

  // ---- Metrics ----

  lemma FiveParts(m: Metric)
    ensures |LeadingParts(m)| == 5
  {
  }

  lemma BodySize(m: Metric, pos: nat)
    ensures TableSize(MetricTable(m, pos)) == 52
  {
    hide Off, LeadingParts, HistogramPart;
    MetricOffsets(m, pos);
  }

  /** Where the histogram goes is where the layout says. */
  lemma HistogramPlace(pre: seq<byte>, m: Metric)
    requires Sound(MetricTable(m, |pre|))
    ensures |DraftOf(pre, MetricTable(m, |pre|), 0, 5)| == HistogramPos(m, |pre|)
  {
    hide TableHead, Off, Inline, Tail, Linked, WellLinked, HistogramPart, LeadingParts;
    var t := MetricTable(m, |pre|);
    MetricOffsets(m, |pre|);
    NodeWellFormed(t);
    var n := TableNode(t);
    DraftLength(pre, n, 0, 5);
    assert t.parts[..5] == LeadingParts(m) by {
      assert |LeadingParts(m)| == 5 by {
        FiveParts(m);
      }
    }
    assert HeadSize(n) == 80 by {
      BodySize(m, |pre|);
    }
  }

  method WriteMetricTexts(buf: ByteBuffer, m: Metric, ghost pre: seq<byte>)
    returns (name: Option<nat>, source: Option<nat>, service: Option<nat>, sessionId: Option<nat>)
    requires Sound(MetricTable(m, |pre|)) && buf.bytes == DraftOf(pre, MetricTable(m, |pre|), 0, 0)
    modifies buf
    ensures buf.bytes == DraftOf(pre, MetricTable(m, |pre|), 0, 4)
    ensures var t := MetricTable(m, |pre|);
      && Started(name, |pre|, t, 0) && Started(source, |pre|, t, 1)
      && Started(service, |pre|, t, 2) && Started(sessionId, |pre|, t, 3)
  {
    hide Off, DraftOf, PartPad, KidBytes, PartAt, Sound, BlobBytes, TextBytes, SlotIf, HistogramPart, HistogramPos,
        VectorOrNone;
    ghost var t := MetricTable(m, |pre|);
    PartWritten(pre, t, 0);
    name := buf.WriteTextPart(Some(m.name));
    PartWritten(pre, t, 1);
    source := buf.WriteTextPart(m.source);
    PartWritten(pre, t, 2);
    service := buf.WriteTextPart(m.service);
    PartWritten(pre, t, 3);
    sessionId := buf.WriteBlobPart(m.sessionId);
  }

  lemma PackedHistogram(h: Option<Histogram>, pos: nat, at: nat)
    ensures PartPad(HistogramPart(h, pos), at) == []
    ensures h.None? ==> KidBytes(HistogramPart(h, pos)) == []
    ensures h.Some? ==> KidBytes(HistogramPart(h, pos)) == HistogramPart(h, pos).kid.value.bytes
  {
  }

  method WriteMetricTables(buf: ByteBuffer, m: Metric, ghost pre: seq<byte>)
    returns (labels: Option<nat>, histogram: Option<nat>)
    requires Sound(MetricTable(m, |pre|)) && buf.bytes == DraftOf(pre, MetricTable(m, |pre|), 0, 4)
    modifies buf
    ensures buf.bytes == DraftOf(pre, MetricTable(m, |pre|), 0, 6)
    ensures Started(labels, |pre|, MetricTable(m, |pre|), 4) && Started(histogram, |pre|, MetricTable(m, |pre|), 5)
  {
    hide Off, DraftOf, PartAt, Sound, BlobPart, TextPart, SlotIf, HistogramPart, HistogramPos, VectorBytes, Pad,
        VectorAt, LabelKids;
    ghost var t := MetricTable(m, |pre|);
    PartWritten(pre, t, 4);
    AlignedAfter(|buf.bytes|);
    buf.Align4();
    labels := None;
    if m.labels != [] {
      ghost var at, vector := buf.bytes, VectorBytes(LabelKids(m.labels));
      VectorMod(LabelKids(m.labels), |at|);
      var start := EncodeLabels(buf, m.labels);
      assert (at + vector) + [] == at + vector;
      labels := Some(start);
    }
    PartWritten(pre, t, 5);
    HistogramPlace(pre, m);
    assert buf.bytes == DraftOf(pre, t, 0, 5);
    PackedHistogram(m.histogram, HistogramPos(m, |pre|), |buf.bytes|);
    histogram := None;
    if m.histogram.Some? {
      var start := EncodeHistogram(buf, m.histogram.value);
      histogram := Some(start);
    }
  }

  lemma MetricLinks(m: Metric, pos: nat)
    ensures var t := MetricTable(m, pos);
      && |t.links| == |t.parts| == 6
      && (forall i :: 0 <= i < 6 ==> t.links[i] <= |t.body|)
      && LinkAt(t, 0) == 4 && LinkAt(t, 1) == 8 && LinkAt(t, 2) == 12
      && LinkAt(t, 3) == 28 && LinkAt(t, 4) == 16 && LinkAt(t, 5) == 24
  {
    hide Off, HistogramPart, HistogramPos, BlobPart, TextPart, VectorOrNone;
    MetricOffsets(m, pos);
  }

  method PatchMetricParts(buf: ByteBuffer, m: Metric, ghost pre: seq<byte>, tableStart: nat, name: Option<nat>,
                          source: Option<nat>, service: Option<nat>, sessionId: Option<nat>,
                          labels: Option<nat>, histogram: Option<nat>)
    requires Sound(MetricTable(m, |pre|)) && buf.bytes == DraftOf(pre, MetricTable(m, |pre|), 0, 6)
    requires tableStart == |pre| + TableOff(MetricTable(m, |pre|))
    requires var t := MetricTable(m, |pre|);
      && Started(name, |pre|, t, 0) && Started(source, |pre|, t, 1) && Started(service, |pre|, t, 2)
      && Started(sessionId, |pre|, t, 3) && Started(labels, |pre|, t, 4) && Started(histogram, |pre|, t, 5)
    modifies buf
    ensures buf.bytes == DraftOf(pre, MetricTable(m, |pre|), 6, 6)
  {
    hide DraftOf, StartOf, Sound, Patched, MetricTable, LinkAt, TableOff;
    ghost var t := MetricTable(m, |pre|);
    MetricLinks(m, |pre|);
    PartPatched(pre, t, 0, name);
    buf.PatchPart(tableStart + 4, name);
    PartPatched(pre, t, 1, source);
    buf.PatchPart(tableStart + 8, source);
    PartPatched(pre, t, 2, service);
    buf.PatchPart(tableStart + 12, service);
    PartPatched(pre, t, 3, sessionId);
    buf.PatchPart(tableStart + 28, sessionId);
    PartPatched(pre, t, 4, labels);
    buf.PatchPart(tableStart + 16, labels);
    PartPatched(pre, t, 5, histogram);
    buf.PatchPart(tableStart + 24, histogram);
  }

  method EncodeMetricEntryInto(buf: ByteBuffer, m: Metric)
    modifies buf
    ensures buf.bytes == old(buf.bytes) + EntryAt(MetricEntry(m), |old(buf.bytes)|)
  {
    hide Inline, Off, LeadingParts, HistogramPart, HistogramPos, DraftOf, LE32, Patched, PartAt, TableBytes, Sound;
    ghost var before := buf.bytes;
    var rootPos := |buf.bytes|;
    buf.Write(U32(0));
    ghost var pre := buf.bytes;
    ghost var t := MetricTable(m, |pre|);
    MetricOffsets(m, |pre|);
    FiveParts(m);
    var tableStart := WriteHead(buf, t,
      [U16(4 + 11 * 2), U16(52), U16(48), U16(32), U16(4), U16(40), U16(SlotIf(m.source.Some?, 8)),
       U16(SlotIf(m.service.Some?, 12)), U16(SlotIf(m.labels != [], 16)), U16(49), U16(SlotIf(m.histogram.Some?, 24)),
       U16(SlotIf(m.sessionId.Some?, 28)), U16(0), Zeros(2)],
      [U32(0), U32(0), U32(0), U32(0), U32(0), U32(0), U32(0), U64(m.timestamp), U64(m.value),
       U8(m.metricType), U8(m.temporality), Zeros(2)]);
    var name, source, service, sessionId := WriteMetricTexts(buf, m, pre);
    var labels, histogram := WriteMetricTables(buf, m, pre);
    RootPatched(before, t, tableStart - rootPos, 0);
    buf.PatchU32(rootPos, tableStart - rootPos);
    PatchMetricParts(buf, m, before + LE32(AsU32(32)), tableStart, name, source, service, sessionId, labels, histogram);
    EntryDone(before, t);
  }
}
