/**
 Events, log entries and metrics as FlatBuffers tables: the layout the encoders
 are to produce, and a reading of each through the generic reader.
 */
module Entries {
  import opened Wrappers
  import opened Bytes
  import opened Frames
  import opened Reader
  import opened Layout
  import opened Table
  import opened TableDraft

  type Blob = Option<seq<byte>>

  datatype Event = Event(eventType: byte, timestamp: u64, service: Blob, deviceId: Blob,
                         sessionId: Blob, eventName: Blob, payload: Blob)

  datatype LogLine = LogLine(eventType: byte, sessionId: Blob, level: byte, timestamp: u64,
                             source: Blob, service: Blob, payload: Blob)

  datatype Label = Label(key: seq<byte>, value: seq<byte>)

  /** Doubles are carried as their eight bytes. */
  datatype Bucket = Bucket(upperBound: u64, count: u64)

  datatype Histogram = Histogram(count: u64, sum: u64, buckets: seq<Bucket>, min: u64, max: u64)

  datatype Metric = Metric(metricType: byte, timestamp: u64, name: seq<byte>, value: u64, source: Blob,
                           service: Blob, labels: seq<Label>, temporality: byte,
                           histogram: Option<Histogram>, sessionId: Blob)

  /** A vtable slot: where the field is in the table, or 0. */
  function SlotIf(present: bool, at: nat): nat {
    if present then at else 0
  }

  /** An entry on its own: root offset, then its table. `pos` is where the entry starts. */
  ghost function Rooted32(t: Table, pos: nat): seq<byte>
    requires Sound(t)
  {
    LE32(AsU32(4 + TableOff(t))) + TableBytes(t, pos + 4)
  }

  lemma SmallOff(t: Table)
    requires Sound(t)
    ensures 4 + TableOff(t) < TWO_16
  {
  }

  /** The root offset leads to the table. */
  lemma RootReached(b: seq<byte>, s: nat, t: Table, pos: nat)
    requires Sound(t) && At(b, s, Rooted32(t, pos))
    ensures Stands(b, s + 4, t, pos + 4)
    ensures Deref(b, s) == Some(s + 4 + TableOff(t))
  {
    hide LE32, TableBytes, Sound;
    var root := LE32(AsU32(4 + TableOff(t)));
    SmallOff(t);
    var bytes := TableBytes(t, pos + 4);
    AtSelf(root);
    AtLeft(root, bytes, 0, root);
    AtSelf(bytes);
    AtRight(root, bytes, 0, bytes);
    AtIn(b, s, root + bytes, 0, root);
    AtIn(b, s, root + bytes, 4, bytes);
    ReadsU32(b, s, 4 + TableOff(t));
  }

  // ---- Events ----

  function EventTable(e: Event): Table {
    Table(
      [28, 20, SlotIf(e.service.Some?, 32), SlotIf(e.deviceId.Some?, 4), SlotIf(e.sessionId.Some?, 8),
       SlotIf(e.eventName.Some?, 12), SlotIf(e.payload.Some?, 16)],
      36, 2,
      [U32(0), U32(0), U32(0), U32(0), U64(e.timestamp), U8(e.eventType), Zeros(3), U32(0)],
      [0, 1, 7, 2, 3],
      [BlobPart(e.deviceId), BlobPart(e.sessionId), TextPart(e.service), TextPart(e.eventName), BlobPart(e.payload)]
    )
  }

  lemma EventOffsets(e: Event)
    ensures var b := EventTable(e).body;
      && Off(b, 0) == 0 && Off(b, 1) == 4 && Off(b, 2) == 8 && Off(b, 3) == 12
      && Off(b, 4) == 16 && Off(b, 5) == 24 && Off(b, 6) == 25 && Off(b, 7) == 28 && Off(b, 8) == 32
    ensures Sound(EventTable(e)) && TableSize(EventTable(e)) == EventTable(e).size
    ensures TableOff(EventTable(e)) == 20
  {
    var b := EventTable(e).body;
    assert Off(b, 1) == 4;
    assert Off(b, 2) == 8;
    assert Off(b, 3) == 12;
    assert Off(b, 4) == 16;
    assert Off(b, 5) == 24;
    assert Off(b, 6) == 25;
    assert Off(b, 7) == 28;
  }

  function ReadEvent(b: seq<byte>, t: int): Option<Event> {
    var eventType :- FieldU8(b, t, 0);
    var timestamp :- FieldU64(b, t, 1);
    var service :- FieldText(b, t, 2);
    var deviceId :- FieldBlob(b, t, 3);
    var sessionId :- FieldBlob(b, t, 4);
    var eventName :- FieldText(b, t, 5);
    var payload :- FieldBlob(b, t, 6);
    if eventType < 256 && timestamp < TWO_64 then
      Some(Event(eventType, timestamp, service, deviceId, sessionId, eventName, payload))
    else None
  }

  lemma PartPresence(d: Blob)
    ensures BlobPart(d).kid.Some? <==> d.Some?
    ensures TextPart(d).kid.Some? <==> d.Some?
  {
  }

  /** Reading an event's table gives back the event, wherever it stands. */
  lemma EventRead(b: seq<byte>, s: nat, e: Event, pos: nat)
    requires Stands(b, s, EventTable(e), pos) && |TableBytes(EventTable(e), pos)| < TWO_32
    ensures ReadEvent(b, s + 20) == Some(e)
    ensures var t := s + 20;
      && FieldU8(b, t, 0) == Some(e.eventType) && FieldU64(b, t, 1) == Some(e.timestamp)
      && FieldText(b, t, 2) == Some(e.service) && FieldBlob(b, t, 3) == Some(e.deviceId)
      && FieldBlob(b, t, 4) == Some(e.sessionId) && FieldText(b, t, 5) == Some(e.eventName)
      && FieldBlob(b, t, 6) == Some(e.payload)
  {
    hide Stands, TableBytes, FieldU8, FieldU64, FieldText, FieldBlob, BlobPart, TextPart, Off, Sound, TableOff;
    EventOffsets(e);
    var t := EventTable(e);
    ByteRead(b, s, t, pos, 0, 5);
    WordRead(b, s, t, pos, 1, 4);
    PartPresence(e.service);
    PartPresence(e.deviceId);
    PartPresence(e.sessionId);
    PartPresence(e.eventName);
    PartPresence(e.payload);
    TextFieldRead(b, s, t, pos, 2, 2, e.service);
    BlobFieldRead(b, s, t, pos, 3, 0, e.deviceId);
    BlobFieldRead(b, s, t, pos, 4, 1, e.sessionId);
    TextFieldRead(b, s, t, pos, 5, 3, e.eventName);
    BlobFieldRead(b, s, t, pos, 6, 4, e.payload);
  }

  // ---- Log entries ----

  function LogTable(l: LogLine): Table {
    Table(
      [28, SlotIf(l.sessionId.Some?, 4), 29, 20, SlotIf(l.source.Some?, 8), SlotIf(l.service.Some?, 12),
       SlotIf(l.payload.Some?, 16)],
      32, 2,
      [U32(0), U32(0), U32(0), U32(0), U64(l.timestamp), U8(l.eventType), U8(l.level), Zeros(2)],
      [0, 1, 2, 3],
      [BlobPart(l.sessionId), TextPart(l.source), TextPart(l.service), BlobPart(l.payload)]
    )
  }

  lemma LogOffsets(l: LogLine)
    ensures var b := LogTable(l).body;
      && Off(b, 0) == 0 && Off(b, 1) == 4 && Off(b, 2) == 8 && Off(b, 3) == 12
      && Off(b, 4) == 16 && Off(b, 5) == 24 && Off(b, 6) == 25 && Off(b, 7) == 26 && Off(b, 8) == 28
    ensures Sound(LogTable(l)) && TableSize(LogTable(l)) == LogTable(l).size
    ensures TableOff(LogTable(l)) == 20
  {
    var b := LogTable(l).body;
    assert Off(b, 1) == 4;
    assert Off(b, 2) == 8;
    assert Off(b, 3) == 12;
    assert Off(b, 4) == 16;
    assert Off(b, 5) == 24;
    assert Off(b, 6) == 25;
    assert Off(b, 7) == 26;
  }

  function ReadLog(b: seq<byte>, t: int): Option<LogLine> {
    var eventType :- FieldU8(b, t, 0);
    var sessionId :- FieldBlob(b, t, 1);
    var level :- FieldU8(b, t, 2);
    var timestamp :- FieldU64(b, t, 3);
    var source :- FieldText(b, t, 4);
    var service :- FieldText(b, t, 5);
    var payload :- FieldBlob(b, t, 6);
    if eventType < 256 && level < 256 && timestamp < TWO_64 then
      Some(LogLine(eventType, sessionId, level, timestamp, source, service, payload))
    else None
  }

  /** Reading a log entry's table gives back the entry, wherever it stands. */
  lemma LogRead(b: seq<byte>, s: nat, l: LogLine, pos: nat)
    requires Stands(b, s, LogTable(l), pos) && |TableBytes(LogTable(l), pos)| < TWO_32
    ensures ReadLog(b, s + 20) == Some(l)
    ensures var t := s + 20;
      && FieldU8(b, t, 0) == Some(l.eventType) && FieldBlob(b, t, 1) == Some(l.sessionId)
      && FieldU8(b, t, 2) == Some(l.level) && FieldU64(b, t, 3) == Some(l.timestamp)
      && FieldText(b, t, 4) == Some(l.source) && FieldText(b, t, 5) == Some(l.service)
      && FieldBlob(b, t, 6) == Some(l.payload)
  {
    hide Stands, TableBytes, FieldU8, FieldU64, FieldText, FieldBlob, BlobPart, TextPart, Off, Sound, TableOff;
    LogOffsets(l);
    var t := LogTable(l);
    ByteRead(b, s, t, pos, 0, 5);
    ByteRead(b, s, t, pos, 2, 6);
    WordRead(b, s, t, pos, 3, 4);
    PartPresence(l.sessionId);
    PartPresence(l.source);
    PartPresence(l.service);
    PartPresence(l.payload);
    BlobFieldRead(b, s, t, pos, 1, 0, l.sessionId);
    TextFieldRead(b, s, t, pos, 4, 1, l.source);
    TextFieldRead(b, s, t, pos, 5, 2, l.service);
    BlobFieldRead(b, s, t, pos, 6, 3, l.payload);
  }

  // ---- Lists of tables ----

  /** Reads every table of a list. */
  function ReadAll<T>(read: int -> Option<T>, ts: seq<int>): Option<seq<T>> {
    if ts == [] then Some([])
    else
      var before :- ReadAll(read, ts[..|ts| - 1]);
      var last :- read(ts[|ts| - 1]);
      Some(before + [last])
  }

  lemma {:induction false} AllRead<T>(read: int -> Option<T>, ts: seq<int>, xs: seq<T>)
    requires |ts| == |xs| && forall i :: 0 <= i < |ts| ==> read(ts[i]) == Some(xs[i])
    ensures ReadAll(read, ts) == Some(xs)
  {
    if ts != [] {
      var n := |ts| - 1;
      AllRead(read, ts[..n], xs[..n]);
      assert xs[..n] + [xs[n]] == xs;
    }
  }

  /** An element is never longer than its vector. */
  lemma ElementFits(kids: seq<Kid>, j: nat)
    requires j < |kids|
    ensures |kids[j].bytes| <= |VectorBytes(kids)|
  {
    hide Inline, Tail, Linked, Off, KidAt, At;
    VectorWellFormed(kids);
    var n := VectorNode(kids);
    NodeSize(n, 0);
    KidFound(n.parts, HeadSize(n), j);
    AtBounds(Tail(n.parts, HeadSize(n)), KidAt(n.parts, HeadSize(n), j), kids[j].bytes);
  }

  /** A table that starts at a multiple of four, as the element of a vector. */
  ghost function TableKid(t: Table): Kid
    requires Sound(t)
  {
    Kid(TableBytes(t, 0), TableOff(t))
  }

  lemma TableKidRooted(t: Table)
    requires Sound(t)
    ensures TableKid(t).root <= |TableKid(t).bytes|
  {
    hide Inline, Tail, Linked, Off, TableHead;
    NodeWellFormed(t);
    NodeSize(TableNode(t), 0);
  }

  /** The elements of a vector of tables, found one by one. */
  lemma TableElement(b: seq<byte>, v: nat, kids: seq<Kid>, j: nat, t: Table)
    requires At(b, v, VectorBytes(kids)) && |VectorBytes(kids)| < TWO_32
    requires j < |kids| && Sound(t) && kids[j] == TableKid(t)
    ensures Stands(b, v + ElementAt(kids, j), t, 0) && |TableBytes(t, 0)| < TWO_32
    ensures Roots(v, kids, |kids|)[j] == v + ElementAt(kids, j) + TableOff(t)
  {
    hide At, VectorBytes, ElementAt, TableBytes, Sound;
    TableKidRooted(t);
    ElementReached(b, v, kids, j);
    ElementFits(kids, j);
    RootsAt(v, kids, |kids|, j);
  }

  // ---- Labels ----

  function LabelTable(l: Label): Table {
    Table([4, 8], 12, 0, [U32(0), U32(0)], [0, 1], [TextPart(Some(l.key)), TextPart(Some(l.value))])
  }

  lemma LabelOffsets(l: Label)
    ensures Off(LabelTable(l).body, 0) == 0 && Off(LabelTable(l).body, 1) == 4 && Off(LabelTable(l).body, 2) == 8
    ensures Sound(LabelTable(l)) && TableSize(LabelTable(l)) == LabelTable(l).size && TableOff(LabelTable(l)) == 8
  {
    assert Off(LabelTable(l).body, 1) == 4;
  }

  function ReadLabel(b: seq<byte>, t: int): Option<Label> {
    var key :- FieldText(b, t, 0);
    var value :- FieldText(b, t, 1);
    if key.Some? && value.Some? then Some(Label(key.value, value.value)) else None
  }

  lemma LabelRead(b: seq<byte>, s: nat, l: Label, pos: nat)
    requires Stands(b, s, LabelTable(l), pos) && |TableBytes(LabelTable(l), pos)| < TWO_32
    ensures ReadLabel(b, s + 8) == Some(l)
    ensures FieldText(b, s + 8, 0) == Some(Some(l.key)) && FieldText(b, s + 8, 1) == Some(Some(l.value))
  {
    hide Stands, TableBytes, FieldText, TextPart, Off, Sound, TableOff;
    LabelOffsets(l);
    PartPresence(Some(l.key));
    PartPresence(Some(l.value));
    TextFieldRead(b, s, LabelTable(l), pos, 0, 0, Some(l.key));
    TextFieldRead(b, s, LabelTable(l), pos, 1, 1, Some(l.value));
  }

  ghost function LabelKid(l: Label): Kid {
    LabelOffsets(l);
    TableKid(LabelTable(l))
  }

  ghost function LabelKids(ls: seq<Label>): (ks: seq<Kid>)
    ensures |ks| == |ls|
  {
    seq(|ls|, i requires 0 <= i < |ls| => LabelKid(ls[i]))
  }

  lemma LabelKidsRooted(ls: seq<Label>)
    ensures Rooted(LabelKids(ls))
  {
    hide TableKid;
    forall j | 0 <= j < |ls|
      ensures LabelKids(ls)[j].root <= |LabelKids(ls)[j].bytes|
    {
      LabelOffsets(ls[j]);
      TableKidRooted(LabelTable(ls[j]));
    }
  }

  lemma LabelsRead(b: seq<byte>, v: nat, ls: seq<Label>)
    requires At(b, v, VectorBytes(LabelKids(ls))) && |VectorBytes(LabelKids(ls))| < TWO_32
    ensures ReadAll(t => ReadLabel(b, t), Roots(v, LabelKids(ls), |ls|)) == Some(ls)
  {
    hide At, VectorBytes, ElementAt, TableBytes, Sound, Stands, ReadLabel, LabelTable, TableOff;
    var kids := LabelKids(ls);
    var ts := Roots(v, kids, |ls|);
    forall i | 0 <= i < |ls|
      ensures ReadLabel(b, ts[i]) == Some(ls[i])
    {
      LabelOffsets(ls[i]);
      TableElement(b, v, kids, i, LabelTable(ls[i]));
      LabelRead(b, v + ElementAt(kids, i), ls[i], 0);
    }
    AllRead(t => ReadLabel(b, t), ts, ls);
  }

  // ---- Histograms ----

  function BucketTable(k: Bucket): Table {
    Table([4, 12], 20, 0, [U64(k.upperBound), U64(k.count)], [], [])
  }

  lemma BucketOffsets(k: Bucket)
    ensures Off(BucketTable(k).body, 0) == 0 && Off(BucketTable(k).body, 1) == 8 && Off(BucketTable(k).body, 2) == 16
    ensures Sound(BucketTable(k)) && TableSize(BucketTable(k)) == BucketTable(k).size && TableOff(BucketTable(k)) == 8
  {
    assert Off(BucketTable(k).body, 1) == 8;
  }

  function ReadBucket(b: seq<byte>, t: int): Option<Bucket> {
    var upperBound :- FieldU64(b, t, 0);
    var count :- FieldU64(b, t, 1);
    if upperBound < TWO_64 && count < TWO_64 then Some(Bucket(upperBound, count)) else None
  }

  lemma BucketRead(b: seq<byte>, s: nat, k: Bucket, pos: nat)
    requires Stands(b, s, BucketTable(k), pos)
    ensures ReadBucket(b, s + 8) == Some(k)
    ensures FieldU64(b, s + 8, 0) == Some(k.upperBound) && FieldU64(b, s + 8, 1) == Some(k.count)
  {
    hide Stands, TableBytes, FieldU64, Off, Sound, TableOff;
    BucketOffsets(k);
    WordRead(b, s, BucketTable(k), pos, 0, 0);
    WordRead(b, s, BucketTable(k), pos, 1, 1);
  }

  ghost function BucketKid(k: Bucket): Kid {
    BucketOffsets(k);
    TableKid(BucketTable(k))
  }

  ghost function BucketKids(ks: seq<Bucket>): (r: seq<Kid>)
    ensures |r| == |ks|
  {
    seq(|ks|, i requires 0 <= i < |ks| => BucketKid(ks[i]))
  }

  lemma BucketKidsRooted(ks: seq<Bucket>)
    ensures Rooted(BucketKids(ks))
  {
    hide TableKid;
    forall j | 0 <= j < |ks|
      ensures BucketKids(ks)[j].root <= |BucketKids(ks)[j].bytes|
    {
      BucketOffsets(ks[j]);
      TableKidRooted(BucketTable(ks[j]));
    }
  }

  lemma BucketsRead(b: seq<byte>, v: nat, ks: seq<Bucket>)
    requires At(b, v, VectorBytes(BucketKids(ks))) && |VectorBytes(BucketKids(ks))| < TWO_32
    ensures ReadAll(t => ReadBucket(b, t), Roots(v, BucketKids(ks), |ks|)) == Some(ks)
  {
    hide At, VectorBytes, ElementAt, TableBytes, Sound, Stands, ReadBucket, BucketTable, TableOff;
    var kids := BucketKids(ks);
    var ts := Roots(v, kids, |ks|);
    forall i | 0 <= i < |ks|
      ensures ReadBucket(b, ts[i]) == Some(ks[i])
    {
      BucketOffsets(ks[i]);
      TableElement(b, v, kids, i, BucketTable(ks[i]));
      BucketRead(b, v + ElementAt(kids, i), ks[i], 0);
    }
    AllRead(t => ReadBucket(b, t), ts, ks);
  }

  ghost function VectorOrNone(kids: seq<Kid>): Part {
    Part(false, if kids == [] then None else Some(Kid(VectorBytes(kids), 0)))
  }

  /** A histogram whose vtable starts at `pos`; padding after the vtable aligns the table. */
  ghost function HistogramTable(h: Histogram, pos: nat): Table {
    Table(
      [4, 12, SlotIf(h.buckets != [], 20), 24, 32],
      40, |Pad(pos + 14)|,
      [U64(h.count), U64(h.sum), U32(0), U64(h.min), U64(h.max)],
      [2],
      [VectorOrNone(BucketKids(h.buckets))]
    )
  }

  lemma HistogramOffsets(h: Histogram, pos: nat)
    ensures var b := HistogramTable(h, pos).body;
      && Off(b, 0) == 0 && Off(b, 1) == 8 && Off(b, 2) == 16 && Off(b, 3) == 20 && Off(b, 4) == 28 && Off(b, 5) == 36
    ensures Sound(HistogramTable(h, pos)) && TableSize(HistogramTable(h, pos)) == HistogramTable(h, pos).size
    ensures TableOff(HistogramTable(h, pos)) == 14 + |Pad(pos + 14)|
  {
    var b := HistogramTable(h, pos).body;
    assert Off(b, 1) == 8;
    assert Off(b, 2) == 16;
    assert Off(b, 3) == 20;
    assert Off(b, 4) == 28;
  }

  function ReadBuckets(b: seq<byte>, t: int, id: nat): Option<seq<Bucket>> {
    var ts :- FieldTables(b, t, id);
    ReadAll(u => ReadBucket(b, u), ts)
  }

  function ReadHistogram(b: seq<byte>, t: int): Option<Histogram> {
    var count :- FieldU64(b, t, 0);
    var sum :- FieldU64(b, t, 1);
    var buckets :- ReadBuckets(b, t, 2);
    var min :- FieldU64(b, t, 3);
    var max :- FieldU64(b, t, 4);
    if count < TWO_64 && sum < TWO_64 && min < TWO_64 && max < TWO_64 then
      Some(Histogram(count, sum, buckets, min, max))
    else None
  }

  lemma HistogramScalars(b: seq<byte>, s: nat, h: Histogram, pos: nat)
    requires Stands(b, s, HistogramTable(h, pos), pos)
    ensures var t := s + TableOff(HistogramTable(h, pos));
      && FieldU64(b, t, 0) == Some(h.count) && FieldU64(b, t, 1) == Some(h.sum)
      && FieldU64(b, t, 3) == Some(h.min) && FieldU64(b, t, 4) == Some(h.max)
  {
    hide Stands, TableBytes, FieldU64, Off, Sound, TableOff, VectorOrNone;
    HistogramOffsets(h, pos);
    var t := HistogramTable(h, pos);
    WordRead(b, s, t, pos, 0, 0);
    WordRead(b, s, t, pos, 1, 1);
    WordRead(b, s, t, pos, 3, 3);
    WordRead(b, s, t, pos, 4, 4);
  }

  lemma HistogramBuckets(b: seq<byte>, s: nat, h: Histogram, pos: nat)
    requires Stands(b, s, HistogramTable(h, pos), pos) && |TableBytes(HistogramTable(h, pos), pos)| < TWO_32
    ensures ReadBuckets(b, s + TableOff(HistogramTable(h, pos)), 2) == Some(h.buckets)
  {
    hide Stands, TableBytes, FieldTables, Off, Sound, TableOff, VectorBytes, PartAt, Roots, ReadBucket, At, Rooted;
    HistogramOffsets(h, pos);
    var t := HistogramTable(h, pos);
    BucketKidsRooted(h.buckets);
    VectorFieldRead(b, s, t, pos, 2, 0, BucketKids(h.buckets));
    if h.buckets != [] {
      BucketsRead(b, s + PartAt(t, pos, 0), h.buckets);
    }
  }

  /** Reading a histogram's table gives back the histogram. */
  lemma HistogramRead(b: seq<byte>, s: nat, h: Histogram, pos: nat)
    requires Stands(b, s, HistogramTable(h, pos), pos) && |TableBytes(HistogramTable(h, pos), pos)| < TWO_32
    ensures ReadHistogram(b, s + TableOff(HistogramTable(h, pos))) == Some(h)
    ensures var t := s + TableOff(HistogramTable(h, pos));
      && FieldU64(b, t, 0) == Some(h.count) && FieldU64(b, t, 1) == Some(h.sum)
      && ReadBuckets(b, t, 2) == Some(h.buckets)
      && FieldU64(b, t, 3) == Some(h.min) && FieldU64(b, t, 4) == Some(h.max)
  {
    hide Stands, TableBytes, FieldU64, ReadBuckets, Off, Sound, TableOff, HistogramTable;
    HistogramScalars(b, s, h, pos);
    HistogramBuckets(b, s, h, pos);
  }

  // ---- Metrics ----

  ghost function LeadingParts(m: Metric): seq<Part> {
    [TextPart(Some(m.name)), TextPart(m.source), TextPart(m.service), BlobPart(m.sessionId),
     VectorOrNone(LabelKids(m.labels))]
  }

  /** Where the histogram of a metric whose vtable starts at `pos` starts: it is not aligned. */
  ghost function HistogramPos(m: Metric, pos: nat): nat {
    pos + 80 + |Tail(LeadingParts(m), pos + 80)|
  }

  ghost function HistogramPart(h: Option<Histogram>, pos: nat): (p: Part)
    ensures p.kid.Some? <==> h.Some?
  {
    if h.None? then Part(true, None)
    else
      var t := HistogramTable(h.value, pos);
      HistogramOffsets(h.value, pos);
      Part(true, Some(Kid(TableBytes(t, pos), TableOff(t))))
  }

  /** Only the alignment of `pos`, where the vtable starts, matters. */
  ghost function MetricTable(m: Metric, pos: nat): Table {
    Table(
      [48, 32, 4, 40, SlotIf(m.source.Some?, 8), SlotIf(m.service.Some?, 12), SlotIf(m.labels != [], 16), 49,
       SlotIf(m.histogram.Some?, 24), SlotIf(m.sessionId.Some?, 28), 0],
      52, 2,
      [U32(0), U32(0), U32(0), U32(0), U32(0), U32(0), U32(0), U64(m.timestamp), U64(m.value),
       U8(m.metricType), U8(m.temporality), Zeros(2)],
      [0, 1, 2, 6, 3, 5],
      LeadingParts(m) + [HistogramPart(m.histogram, HistogramPos(m, pos))]
    )
  }

  lemma MetricOffsets(m: Metric, pos: nat)
    ensures var b := MetricTable(m, pos).body;
      && Off(b, 0) == 0 && Off(b, 1) == 4 && Off(b, 2) == 8 && Off(b, 3) == 12 && Off(b, 4) == 16
      && Off(b, 5) == 20 && Off(b, 6) == 24 && Off(b, 7) == 28 && Off(b, 8) == 36 && Off(b, 9) == 44
      && Off(b, 10) == 45 && Off(b, 11) == 46 && Off(b, 12) == 48
    ensures Sound(MetricTable(m, pos)) && TableSize(MetricTable(m, pos)) == MetricTable(m, pos).size
    ensures TableOff(MetricTable(m, pos)) == 28
  {
    hide TextPart, BlobPart, VectorOrNone, HistogramPart, HistogramPos;
    var b := MetricTable(m, pos).body;
    assert Off(b, 1) == 4;
    assert Off(b, 2) == 8;
    assert Off(b, 3) == 12;
    assert Off(b, 4) == 16;
    assert Off(b, 5) == 20;
    assert Off(b, 6) == 24;
    assert Off(b, 7) == 28;
    assert Off(b, 8) == 36;
    assert Off(b, 9) == 44;
    assert Off(b, 10) == 45;
    assert Off(b, 11) == 46;
  }

  function ReadOptionalHistogram(b: seq<byte>, t: int, id: nat): Option<Option<Histogram>> {
    var p :- FieldTable(b, t, id);
    if p.None? then Some(None)
    else
      var h :- ReadHistogram(b, p.value);
      Some(Some(h))
  }

  function ReadLabels(b: seq<byte>, t: int, id: nat): Option<seq<Label>> {
    var ts :- FieldTables(b, t, id);
    ReadAll(u => ReadLabel(b, u), ts)
  }

  function ReadMetric(b: seq<byte>, t: int): Option<Metric> {
    var metricType :- FieldU8(b, t, 0);
    var timestamp :- FieldU64(b, t, 1);
    var name :- FieldText(b, t, 2);
    var value :- FieldU64(b, t, 3);
    var source :- FieldText(b, t, 4);
    var service :- FieldText(b, t, 5);
    var labels :- ReadLabels(b, t, 6);
    var temporality :- FieldU8(b, t, 7);
    var histogram :- ReadOptionalHistogram(b, t, 8);
    var sessionId :- FieldBlob(b, t, 9);
    if name.Some? && metricType < 256 && timestamp < TWO_64 && value < TWO_64 && temporality < 256 then
      Some(Metric(metricType, timestamp, name.value, value, source, service, labels, temporality, histogram, sessionId))
    else None
  }

  lemma MetricScalars(b: seq<byte>, s: nat, m: Metric, p: nat, pos: nat)
    requires Stands(b, s, MetricTable(m, p), pos)
    ensures FieldU8(b, s + 28, 0) == Some(m.metricType) && FieldU8(b, s + 28, 7) == Some(m.temporality)
    ensures FieldU64(b, s + 28, 1) == Some(m.timestamp) && FieldU64(b, s + 28, 3) == Some(m.value)
  {
    hide Stands, FieldU8, FieldU64, Off, Sound, TableOff, LeadingParts, HistogramPart, HistogramPos;
    MetricOffsets(m, p);
    var t := MetricTable(m, p);
    ByteRead(b, s, t, pos, 0, 9);
    WordRead(b, s, t, pos, 1, 7);
    WordRead(b, s, t, pos, 3, 8);
    ByteRead(b, s, t, pos, 7, 10);
  }

  lemma MetricTexts(b: seq<byte>, s: nat, m: Metric, p: nat, pos: nat)
    requires Stands(b, s, MetricTable(m, p), pos) && |TableBytes(MetricTable(m, p), pos)| < TWO_32
    ensures FieldText(b, s + 28, 2) == Some(Some(m.name))
    ensures FieldText(b, s + 28, 4) == Some(m.source) && FieldText(b, s + 28, 5) == Some(m.service)
    ensures FieldBlob(b, s + 28, 9) == Some(m.sessionId)
  {
    hide Stands, TableBytes, FieldText, FieldBlob, BlobPart, TextPart, Off, Sound, TableOff, VectorOrNone,
        HistogramPart, HistogramPos;
    MetricOffsets(m, p);
    var t := MetricTable(m, p);
    PartPresence(Some(m.name));
    PartPresence(m.source);
    PartPresence(m.service);
    PartPresence(m.sessionId);
    TextFieldRead(b, s, t, pos, 2, 0, Some(m.name));
    TextFieldRead(b, s, t, pos, 4, 1, m.source);
    TextFieldRead(b, s, t, pos, 5, 2, m.service);
    BlobFieldRead(b, s, t, pos, 9, 3, m.sessionId);
  }

  lemma MetricLabels(b: seq<byte>, s: nat, m: Metric, p: nat, pos: nat)
    requires Stands(b, s, MetricTable(m, p), pos) && |TableBytes(MetricTable(m, p), pos)| < TWO_32
    ensures ReadLabels(b, s + 28, 6) == Some(m.labels)
  {
    hide Stands, TableBytes, FieldTables, Off, Sound, TableOff, VectorBytes, PartAt, Roots, ReadLabel, At, Rooted,
      HistogramPart, HistogramPos, BlobPart, TextPart;
    MetricOffsets(m, p);
    var t := MetricTable(m, p);
    LabelKidsRooted(m.labels);
    VectorFieldRead(b, s, t, pos, 6, 4, LabelKids(m.labels));
    if m.labels != [] {
      LabelsRead(b, s + PartAt(t, pos, 4), m.labels);
    }
  }

  lemma HistogramStands(b: seq<byte>, s: nat, h: Histogram, pos: nat)
    requires At(b, s, HistogramPart(Some(h), pos).kid.value.bytes)
    ensures Stands(b, s, HistogramTable(h, pos), pos)
    ensures var kid := HistogramPart(Some(h), pos).kid.value;
      kid.root == TableOff(HistogramTable(h, pos)) && kid.root <= |kid.bytes|
    ensures |TableBytes(HistogramTable(h, pos), pos)| == |HistogramPart(Some(h), pos).kid.value.bytes|
  {
    hide Inline, Tail, Linked, Off, TableHead, Sound, At, HistogramTable;
    HistogramOffsets(h, pos);
    var t := HistogramTable(h, pos);
    NodeWellFormed(t);
    NodeSize(TableNode(t), pos);
  }

  lemma HistogramRooted(h: Histogram, pos: nat)
    ensures var kid := HistogramPart(Some(h), pos).kid.value; kid.root <= |kid.bytes|
  {
    hide HistogramPart, At;
    var bytes := HistogramPart(Some(h), pos).kid.value.bytes;
    AtSelf(bytes);
    HistogramStands(bytes, 0, h, pos);
  }

  lemma MetricHistogram(b: seq<byte>, s: nat, m: Metric, p: nat, pos: nat)
    requires Stands(b, s, MetricTable(m, p), pos) && |TableBytes(MetricTable(m, p), pos)| < TWO_32
    ensures ReadOptionalHistogram(b, s + 28, 8) == Some(m.histogram)
  {
    hide Stands, TableBytes, Off, Sound, TableOff, PartAt, At, FieldOf, Deref, ReadHistogram, HistogramPos,
        HistogramTable,
      BlobPart, TextPart, VectorOrNone;
    MetricOffsets(m, p);
    var t := MetricTable(m, p);
    var q := HistogramPos(m, p);
    if m.histogram.None? {
      SlotRead(b, s, t, pos, 8);
    } else {
      var h := m.histogram.value;
      HistogramRooted(h, q);
      PartFits(b, s, t, pos, 5);
      PartReached(b, s, t, pos, 8, 5);
      HistogramStands(b, s + PartAt(t, pos, 5), h, q);
      HistogramRead(b, s + PartAt(t, pos, 5), h, q);
    }
  }

  /** Reading a metric's table gives back the metric, labels and histogram included. */
  lemma MetricRead(b: seq<byte>, s: nat, m: Metric, p: nat, pos: nat)
    requires Stands(b, s, MetricTable(m, p), pos) && |TableBytes(MetricTable(m, p), pos)| < TWO_32
    ensures ReadMetric(b, s + 28) == Some(m)
    ensures var t := s + 28;
      && FieldU8(b, t, 0) == Some(m.metricType) && FieldU64(b, t, 1) == Some(m.timestamp)
      && FieldText(b, t, 2) == Some(Some(m.name)) && FieldU64(b, t, 3) == Some(m.value)
      && FieldText(b, t, 4) == Some(m.source) && FieldText(b, t, 5) == Some(m.service)
      && ReadLabels(b, t, 6) == Some(m.labels) && FieldU8(b, t, 7) == Some(m.temporality)
      && ReadOptionalHistogram(b, t, 8) == Some(m.histogram) && FieldBlob(b, t, 9) == Some(m.sessionId)
  {
    hide Stands, TableBytes, FieldU8, FieldU64, FieldText, FieldBlob, ReadLabels, ReadOptionalHistogram, Sound;
    MetricScalars(b, s, m, p, pos);
    MetricTexts(b, s, m, p, pos);
    MetricLabels(b, s, m, p, pos);
    MetricHistogram(b, s, m, p, pos);
  }

  // ---- Entries of any kind ----

  datatype Entry = EventEntry(event: Event) | LogEntry(log: LogLine) | MetricEntry(metric: Metric)

  /** The table of an entry whose vtable starts at `pos`. */
  ghost function EntryTable(e: Entry, pos: nat): (t: Table)
    ensures Sound(t)
  {
    match e
    case EventEntry(event) => EventOffsets(event); EventTable(event)
    case LogEntry(log) => LogOffsets(log); LogTable(log)
    case MetricEntry(metric) => MetricOffsets(metric, pos); MetricTable(metric, pos)
  }

  /** An entry on its own, from position `pos`. */
  ghost function EntryAt(e: Entry, pos: nat): seq<byte> {
    Rooted32(EntryTable(e, pos + 4), pos)
  }

  /** An entry on its own, from a position that is a multiple of four. */
  ghost function EntryBytes(e: Entry): seq<byte> {
    EntryAt(e, 0)
  }

  datatype Kind = Events | Logs | Metrics

  function KindOf(e: Entry): Kind {
    match e
    case EventEntry(_) => Events
    case LogEntry(_) => Logs
    case MetricEntry(_) => Metrics
  }

  function ReadEntry(b: seq<byte>, t: int, kind: Kind): Option<Entry> {
    match kind
    case Events =>
      var e :- ReadEvent(b, t);
      Some(EventEntry(e))
    case Logs =>
      var l :- ReadLog(b, t);
      Some(LogEntry(l))
    case Metrics =>
      var m :- ReadMetric(b, t);
      Some(MetricEntry(m))
  }

  lemma TableRead(b: seq<byte>, s: nat, e: Entry, p: nat, pos: nat)
    requires Stands(b, s, EntryTable(e, p), pos) && |TableBytes(EntryTable(e, p), pos)| < TWO_32
    ensures ReadEntry(b, s + TableOff(EntryTable(e, p)), KindOf(e)) == Some(e)
  {
    hide FieldU8, FieldU64, FieldText, FieldBlob, ReadLabels, ReadOptionalHistogram;
    hide Stands, TableBytes, ReadEvent, ReadLog, ReadMetric, EventTable, LogTable, MetricTable, TableOff, Sound;
    match e
    case EventEntry(event) =>
      EventOffsets(event);
      EventRead(b, s, event, pos);
    case LogEntry(log) =>
      LogOffsets(log);
      LogRead(b, s, log, pos);
    case MetricEntry(metric) =>
      MetricOffsets(metric, p);
      MetricRead(b, s, metric, p, pos);
  }

  /**
   Wherever the bytes of an entry stand, and wherever they were written: root offset,
   vtable and offsets lead back to every field.
   */
  lemma EntryRead(b: seq<byte>, s: nat, e: Entry, pos: nat)
    requires At(b, s, EntryAt(e, pos)) && |EntryAt(e, pos)| < TWO_32
    ensures Deref(b, s).Some? && ReadEntry(b, Deref(b, s).value, KindOf(e)) == Some(e)
  {
    hide At, TableBytes, EntryTable, ReadEntry, Deref, Stands, TableOff, Sound, LE32;
    RootReached(b, s, EntryTable(e, pos + 4), pos);
    TableRead(b, s + 4, e, pos + 4, pos + 4);
  }

  lemma HistogramMod(h: Option<Histogram>, pos: nat, pos': nat)
    requires pos % 4 == pos' % 4
    ensures HistogramPart(h, pos) == HistogramPart(h, pos')
  {
    hide TableBytes, Sound, TableOff;
    if h.Some? {
      assert (pos + 14) % 4 == (pos' + 14) % 4;
      HistogramOffsets(h.value, pos);
      TableMod(HistogramTable(h.value, pos), pos, pos');
    }
  }

  lemma MetricTableMod(m: Metric, pos: nat, pos': nat)
    requires pos % 4 == pos' % 4
    ensures MetricTable(m, pos) == MetricTable(m, pos')
  {
    hide LeadingParts, HistogramPart, Tail;
    assert (pos + 80) % 4 == (pos' + 80) % 4;
    TailMod(LeadingParts(m), pos + 80, pos' + 80);
    var n := |Tail(LeadingParts(m), pos + 80)|;
    assert (pos + 80 + n) % 4 == (pos' + 80 + n) % 4;
    HistogramMod(m.histogram, HistogramPos(m, pos), HistogramPos(m, pos'));
  }

  /** Only the alignment of the start decides an entry's bytes. */
  lemma EntryMod(e: Entry, pos: nat, pos': nat)
    requires pos % 4 == pos' % 4
    ensures EntryAt(e, pos) == EntryAt(e, pos')
  {
    hide TableBytes, Sound, LE32, EventTable, LogTable, MetricTable, TableOff;
    assert (pos + 4) % 4 == (pos' + 4) % 4;
    if e.MetricEntry? {
      MetricTableMod(e.metric, pos + 4, pos' + 4);
    }
    TableMod(EntryTable(e, pos + 4), pos + 4, pos' + 4);
  }
}
