/**
 Lists of entries as one FlatBuffer: the two-pass form, which copies entries
 encoded beforehand, and the zero-copy form, which encodes them in place.
 */
module Data {
  import opened Wrappers
  import opened Bytes
  import opened Frames
  import opened Reader
  import opened Layout
  import opened Table
  import opened TableDraft
  import opened Entries
  import opened ByteBuffers
  import opened Encoders

  /** An encoded entry: its first four bytes say where its table is. */
  function Encoded(x: seq<byte>): Kid {
    Kid(x, if |x| >= 4 then U32At(x, 0) else 0)
  }

  function EncodedKids(xs: seq<seq<byte>>): (ks: seq<Kid>)
    ensures |ks| == |xs|
  {
    seq(|xs|, i requires 0 <= i < |xs| => Encoded(xs[i]))
  }

  ghost function EntriesBytes(es: seq<Entry>): (xs: seq<seq<byte>>)
    ensures |xs| == |es|
  {
    seq(|es|, i requires 0 <= i < |es| => EntryBytes(es[i]))
  }

  ghost function DataTable(xs: seq<seq<byte>>): Table {
    Table([4], 8, 2, [U32(0)], [0], [Part(false, Some(Kid(VectorBytes(EncodedKids(xs)), 0)))])
  }

  lemma DataOffsets(xs: seq<seq<byte>>)
    ensures Sound(DataTable(xs)) && TableOff(DataTable(xs)) == 8
    ensures Off(DataTable(xs).body, 0) == 0 && TableSize(DataTable(xs)) == 8
  {
    hide VectorBytes;
    assert Off(DataTable(xs).body, 1) == 4;
  }

  /** The bytes of the list when its first byte stands at `pos`. */
  ghost function DataBytes(xs: seq<seq<byte>>, pos: nat): seq<byte> {
    DataOffsets(xs);
    Rooted32(DataTable(xs), pos)
  }

  /** Only the alignment of the start matters. */
  lemma DataMod(xs: seq<seq<byte>>, pos: nat, pos': nat)
    requires pos % 4 == pos' % 4
    ensures DataBytes(xs, pos) == DataBytes(xs, pos')
  {
    hide TableBytes, Sound, LE32, DataTable;
    DataOffsets(xs);
    assert (pos + 4) % 4 == (pos' + 4) % 4;
    TableMod(DataTable(xs), pos + 4, pos' + 4);
  }

  lemma EntryRoot(b: seq<byte>, s: nat, e: Entry)
    requires At(b, s, EntryBytes(e))
    ensures s + 4 <= |b| && U32At(b, s) == Encoded(EntryBytes(e)).root
    ensures Encoded(EntryBytes(e)) == Kid(EntryBytes(e), 4 + TableOff(EntryTable(e, 4)))
    ensures Encoded(EntryBytes(e)).root <= |EntryBytes(e)|
  {
    hide TableBytes, EntryTable, LE32, Sound, Stands, At, TableOff, U32At;
    RootReached(b, s, EntryTable(e, 4), 0);
    AtSelf(EntryBytes(e));
    RootReached(EntryBytes(e), 0, EntryTable(e, 4), 0);
    TableKidRooted(EntryTable(e, 4));
    TableMod(EntryTable(e, 4), 0, 4);
  }

  // ---- Writing ----

  method EncodeEntryInto(buf: ByteBuffer, e: Entry)
    modifies buf
    ensures buf.bytes == old(buf.bytes) + EntryAt(e, |old(buf.bytes)|)
  {
    match e
    case EventEntry(event) => EncodeEventInto(buf, event);
    case LogEntry(log) => EncodeLogEntryInto(buf, log);
    case MetricEntry(metric) => EncodeMetricEntryInto(buf, metric);
  }

  /** An entry in a buffer of its own. */
  method EncodeEntry(e: Entry) returns (bytes: seq<byte>)
    ensures bytes == EntryBytes(e)
  {
    var buf := new ByteBuffer();
    EncodeEntryInto(buf, e);
    bytes := buf.bytes;
  }

  /** Root placeholder, vtable and table of a list, up to where its vector starts. */
  method StartData(buf: ByteBuffer, ghost xs: seq<seq<byte>>) returns (tableStart: nat)
    modifies buf
    ensures Sound(DataTable(xs))
    ensures var pre := old(buf.bytes) + LE32(AsU32(0));
      var d := DraftOf(pre, DataTable(xs), 0, 0);
      && buf.bytes == d + Pad(|d|)
      && tableStart == |pre| + 8
      && d + Pad(|d|) + VectorBytes(EncodedKids(xs)) == DraftOf(pre, DataTable(xs), 0, 1)
      && StartOf(|pre|, DataTable(xs), 0) == |buf.bytes|
  {
    hide VectorBytes, DraftOf, LE32, Pad, Off, Sound, Inline, PartAt;
    ghost var t := DataTable(xs);
    DataOffsets(xs);
    buf.Write(U32(0));
    ghost var pre := buf.bytes;
    tableStart := WriteHead(buf, t, [U16(6), U16(8), U16(4), Zeros(2)], [U32(0)]);
    PartWritten(pre, t, 0);
    buf.Align4();
  }

  /** Fills in the vector's offset, then the root. */
  method FinishData(buf: ByteBuffer, ghost before: seq<byte>, ghost xs: seq<seq<byte>>, rootPos: nat,
      tableStart: nat, vector: nat)
    requires Sound(DataTable(xs)) && rootPos == |before| && tableStart == |before| + 12
    requires buf.bytes == DraftOf(before + LE32(AsU32(0)), DataTable(xs), 0, 1)
    requires vector == StartOf(|before| + 4, DataTable(xs), 0)
    modifies buf
    ensures buf.bytes == before + DataBytes(xs, |before|)
  {
    hide VectorBytes, DraftOf, LE32, Patched, Sound, StartOf, TableBytes;
    DataOffsets(xs);
    ghost var t := DataTable(xs);
    var eventsOff := tableStart + 4;
    PartPatched(before + LE32(AsU32(0)), t, 0, Some(vector));
    buf.PatchOffset(eventsOff, vector);
    RootPatched(before, t, tableStart - rootPos, 1);
    buf.PatchU32(rootPos, tableStart - rootPos);
    EntryDone(before, t);
  }

  lemma AlignedPre(d: seq<byte>)
    ensures |d + Pad(|d|)| % 4 == 0
  {
  }

  /** Aligns, encodes one entry and reads its root offset back from the buffer. */
  method WriteEntry(buf: ByteBuffer, e: Entry) returns (tablePos: nat)
    modifies buf
    ensures buf.bytes == old(buf.bytes) + Pad(|old(buf.bytes)|) + EntryBytes(e)
    ensures tablePos == |old(buf.bytes)| + |Pad(|old(buf.bytes)|)| + Encoded(EntryBytes(e)).root
  {
    hide EntryAt, Pad, U32At, Encoded;
    AlignedAfter(|buf.bytes|);
    buf.Align4();
    ghost var pre := buf.bytes;
    var entryStart := |buf.bytes|;
    EntryMod(e, |buf.bytes|, 0);
    EncodeEntryInto(buf, e);
    AtSelf(EntryBytes(e));
    AtRight(pre, EntryBytes(e), 0, EntryBytes(e));
    EntryRoot(buf.bytes, entryStart, e);
    var rootOffset := U32At(buf.bytes, entryStart);
    tablePos := entryStart + rootOffset;
  }

  lemma KidIsEncoded(entries: seq<Entry>, i: nat)
    requires i < |entries|
    ensures EncodedKids(EntriesBytes(entries))[i] == Encoded(EntryBytes(entries[i]))
    ensures Encoded(EntryBytes(entries[i])).bytes == EntryBytes(entries[i])
  {
    hide EntryBytes;
  }

  /** The vector of the zero-copy form. */
  method WriteEntries(buf: ByteBuffer, entries: seq<Entry>)
    requires |buf.bytes| % 4 == 0
    modifies buf
    ensures buf.bytes == old(buf.bytes) + VectorBytes(EncodedKids(EntriesBytes(entries)))
  {
    hide VectorBytes, Pad, VectorDraft, ElementStart, EntryBytes, Encoded;
    ghost var pre := buf.bytes;
    ghost var kids := EncodedKids(EntriesBytes(entries));
    WriteVectorHeader(buf, kids, |entries|);
    var slotsStart := |buf.bytes| - 4 * |entries|;
    NoPad(|buf.bytes|);
    buf.Align4();
    var positions: seq<nat> := [];
    var i := 0;
    while i < |entries|
      invariant i <= |entries| && buf.bytes == VectorDraft(pre, kids, 0, i)
      invariant Positions(positions, |pre|, kids, i)
    {
      ElementWritten(pre, kids, i);
      var tablePos := WriteEntry(buf, entries[i]);
      KidIsEncoded(entries, i);
      positions := positions + [tablePos];
      i := i + 1;
    }
    VectorMod(kids, |pre|);
    NoPad(|pre| + 4 + 4 * |kids|);
    assert buf.bytes + [] == buf.bytes;
    PatchSlots(buf, pre, kids, slotsStart, positions);
    assert buf.bytes + [] == buf.bytes;
  }

  /** Zero-copy: entries are encoded where they stay. Returns the range of the list. */
  method EncodeDataInto(buf: ByteBuffer, entries: seq<Entry>) returns (start: nat, end: nat)
    modifies buf
    ensures start == |old(buf.bytes)| && end == |buf.bytes|
    ensures buf.bytes == old(buf.bytes) + DataBytes(EntriesBytes(entries), start)
  {
    hide VectorBytes, DraftOf, LE32, Pad, Sound, StartOf, DataTable, DataBytes, EntriesBytes, VectorDraft;
    ghost var before, xs := buf.bytes, EntriesBytes(entries);
    start := |buf.bytes|;
    var rootPos := |buf.bytes|;
    var tableStart := StartData(buf, xs);
    ghost var pre := buf.bytes;
    AlignedPre(DraftOf(before + LE32(AsU32(0)), DataTable(xs), 0, 0));
    var vector := |buf.bytes|;
    WriteEntries(buf, entries);
    FinishData(buf, before, xs, rootPos, tableStart, vector);
    end := |buf.bytes|;
  }

  lemma EncodedBytes(xs: seq<seq<byte>>)
    ensures forall i :: 0 <= i < |xs| ==> EncodedKids(xs)[i] == Encoded(xs[i]) && Encoded(xs[i]).bytes == xs[i]
  {
  }

  /** Aligns and copies one encoded entry; its first four bytes say where its table is. */
  method CopyEntry(buf: ByteBuffer, x: seq<byte>) returns (tablePos: nat)
    modifies buf
    ensures buf.bytes == old(buf.bytes) + Pad(|old(buf.bytes)|) + x
    ensures tablePos == |old(buf.bytes)| + |Pad(|old(buf.bytes)|)| + Encoded(x).root
  {
    hide Pad, U32At;
    buf.Align4();
    var entryStart := |buf.bytes|;
    var rootOffset := if |x| >= 4 then U32At(x, 0) else 0;
    tablePos := entryStart + rootOffset;
    buf.bytes := buf.bytes + x;
  }

  /** The vector of the two-pass form. */
  method CopyEntries(buf: ByteBuffer, encoded: seq<seq<byte>>)
    requires |buf.bytes| % 4 == 0
    modifies buf
    ensures buf.bytes == old(buf.bytes) + VectorBytes(EncodedKids(encoded))
  {
    hide VectorBytes, Pad, VectorDraft, ElementStart, Encoded;
    EncodedBytes(encoded);
    ghost var pre := buf.bytes;
    ghost var kids := EncodedKids(encoded);
    WriteVectorHeader(buf, kids, |encoded|);
    var slotsStart := |buf.bytes| - 4 * |encoded|;
    NoPad(|buf.bytes|);
    buf.Align4();
    var positions: seq<nat> := [];
    var i := 0;
    while i < |encoded|
      invariant i <= |encoded| && buf.bytes == VectorDraft(pre, kids, 0, i)
      invariant Positions(positions, |pre|, kids, i)
    {
      ElementWritten(pre, kids, i);
      var tablePos := CopyEntry(buf, encoded[i]);
      positions := positions + [tablePos];
      i := i + 1;
    }
    VectorMod(kids, |pre|);
    NoPad(|pre| + 4 + 4 * |kids|);
    assert buf.bytes + [] == buf.bytes;
    PatchSlots(buf, pre, kids, slotsStart, positions);
    assert buf.bytes + [] == buf.bytes;
  }

  /** Two passes: the entries were encoded before and are copied in. */
  method EncodeData(encoded: seq<seq<byte>>) returns (bytes: seq<byte>)
    ensures bytes == DataBytes(encoded, 0)
  {
    hide VectorBytes, DraftOf, LE32, Pad, Sound, StartOf, DataTable, DataBytes, VectorDraft;
    var buf := new ByteBuffer();
    ghost var before := buf.bytes;
    assert before + DataBytes(encoded, 0) == DataBytes(encoded, 0);
    var tableStart := StartData(buf, encoded);
    AlignedPre(DraftOf(before + LE32(AsU32(0)), DataTable(encoded), 0, 0));
    var vector := |buf.bytes|;
    CopyEntries(buf, encoded);
    FinishData(buf, before, encoded, 0, tableStart, vector);
    bytes := buf.bytes;
  }

  // ---- The zero-copy form refines the two-pass form ----

  /** The two-pass form of a list of entries. */
  method EncodeTwoPass(entries: seq<Entry>) returns (bytes: seq<byte>)
    ensures bytes == DataBytes(EntriesBytes(entries), 0)
  {
    hide EntryBytes, DataBytes;
    var encoded: seq<seq<byte>> := [];
    var i := 0;
    while i < |entries|
      invariant i <= |entries| && encoded == EntriesBytes(entries)[..i]
    {
      var x := EncodeEntry(entries[i]);
      encoded := encoded + [x];
      i := i + 1;
    }
    assert encoded == EntriesBytes(entries);
    bytes := EncodeData(encoded);
  }

  /**
   From a start that is a multiple of four both forms make the same bytes; from
   any start what stood in the buffer before stays.
   */
  method ZeroCopyIsTwoPass(buf: ByteBuffer, entries: seq<Entry>) returns (start: nat, end: nat, twoPass: seq<byte>)
    modifies buf
    ensures start == |old(buf.bytes)| <= end == |buf.bytes|
    ensures buf.bytes[..start] == old(buf.bytes)
    ensures start % 4 == 0 ==> buf.bytes[start..end] == twoPass
    ensures twoPass == DataBytes(EntriesBytes(entries), 0)
  {
    hide DataBytes, EntriesBytes;
    twoPass := EncodeTwoPass(entries);
    start, end := EncodeDataInto(buf, entries);
    if start % 4 == 0 {
      DataMod(EntriesBytes(entries), start, 0);
    }
  }

  // ---- Reading ----

  /** Reads a list: root, vector, then every entry's table. */
  function ReadData(b: seq<byte>, s: int, kind: Kind): Option<seq<Entry>> {
    var t :- Deref(b, s);
    var ts :- FieldTables(b, t, 0);
    ReadAll(u => ReadEntry(b, u, kind), ts)
  }

  ghost predicate AllOf(es: seq<Entry>, kind: Kind) {
    forall i :: 0 <= i < |es| ==> KindOf(es[i]) == kind
  }

  lemma KidsRooted(es: seq<Entry>)
    ensures Rooted(EncodedKids(EntriesBytes(es)))
  {
    hide EntryBytes, Encoded;
    forall j | 0 <= j < |es|
      ensures EncodedKids(EntriesBytes(es))[j].root <= |EncodedKids(EntriesBytes(es))[j].bytes|
    {
      KidIsEncoded(es, j);
      AtSelf(EntryBytes(es[j]));
      EntryRoot(EntryBytes(es[j]), 0, es[j]);
    }
  }

  lemma RootedAt(kids: seq<Kid>, i: nat)
    requires Rooted(kids) && i < |kids|
    ensures kids[i].root <= |kids[i].bytes|
  {
  }

  lemma DerefIs(b: seq<byte>, s: nat)
    requires s + 4 <= |b|
    ensures Deref(b, s) == Some(s + U32At(b, s))
  {
  }

  lemma OneEntryRead(b: seq<byte>, v: nat, es: seq<Entry>, i: nat)
    requires i < |es|
    requires var kids := EncodedKids(EntriesBytes(es));
      At(b, v, VectorBytes(kids)) && |VectorBytes(kids)| < TWO_32
    ensures var kids := EncodedKids(EntriesBytes(es));
      ReadEntry(b, Roots(v, kids, |kids|)[i], KindOf(es[i])) == Some(es[i])
  {
    hide At, VectorBytes, ElementAt, ReadEntry, EntryAt, Encoded, Roots, EntriesBytes, EncodedKids, Deref, Rooted;
    var kids := EncodedKids(EntriesBytes(es));
    KidsRooted(es);
    KidIsEncoded(es, i);
    RootedAt(kids, i);
    ElementFits(kids, i);
    ElementReached(b, v, kids, i);
    RootsAt(v, kids, |kids|, i);
    var s := v + ElementAt(kids, i);
    EntryRoot(b, s, es[i]);
    EntryRead(b, s, es[i], 0);
    DerefIs(b, s);
  }

  /** Wherever a list stands, reading it gives back the entries, in order. */
  lemma DataRead(b: seq<byte>, s: nat, es: seq<Entry>, pos: nat, kind: Kind)
    requires At(b, s, DataBytes(EntriesBytes(es), pos)) && |DataBytes(EntriesBytes(es), pos)| < TWO_32
    requires AllOf(es, kind)
    ensures ReadData(b, s, kind) == Some(es)
  {
    hide At, VectorBytes, ReadEntry, EntriesBytes, Roots, Deref, Rooted, Off, TableBytes, LE32, PartAt, FieldTables,
        Sound, TableOff;
    var xs := EntriesBytes(es);
    var kids, t := EncodedKids(xs), DataTable(xs);
    DataOffsets(xs);
    RootReached(b, s, t, pos);
    KidsRooted(es);
    VectorFieldRead(b, s + 4, t, pos + 4, 0, 0, kids);
    var v := s + 4 + PartAt(t, pos + 4, 0);
    var ts := Roots(v, kids, |kids|);
    forall i | 0 <= i < |es|
      ensures ReadEntry(b, ts[i], kind) == Some(es[i])
    {
      OneEntryRead(b, v, es, i);
    }
    AllRead(u => ReadEntry(b, u, kind), ts, es);
  }

  /** The returned range decodes on its own, from whatever position it was written. */
  lemma RangeDecodes(before: seq<byte>, es: seq<Entry>, kind: Kind)
    requires AllOf(es, kind) && |DataBytes(EntriesBytes(es), |before|)| < TWO_32
    ensures var b := before + DataBytes(EntriesBytes(es), |before|);
      && ReadData(b[|before|..], 0, kind) == Some(es)
      && ReadData(b, |before|, kind) == Some(es)
  {
    hide DataBytes, ReadData, EntriesBytes;
    var data := DataBytes(EntriesBytes(es), |before|);
    assert (before + data)[|before|..] == data;
    AtSelf(data);
    AtRight(before, data, 0, data);
    DataRead(data, 0, es, |before|, kind);
    DataRead(before + data, |before|, es, |before|, kind);
  }
}
