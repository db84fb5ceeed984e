/**
 From a queue chunk to the bytes on the wire: entries with the configured
 service and source filled in, as one list, inside a batch envelope.
 */
module Wire {
  import opened Wrappers
  import opened Bytes
  import opened Frames
  import opened Reader
  import opened Layout
  import opened Table
  import opened TableDraft
  import opened Entries
  import opened ByteBuffers
  import opened Encoders
  import opened Data
  import H = History

  const DEFAULT_VERSION: nat := 100

  // ---- The envelope ----

  datatype Batch = Batch(apiKey: seq<byte>, schema: byte, version: byte, batchId: u64, data: seq<byte>)

  function EffectiveVersion(b: Batch): byte {
    if b.version == 0 then DEFAULT_VERSION else b.version
  }

  function BatchTable(b: Batch): Table {
    Table(
      [4, 24, 25, SlotIf(b.batchId != 0, 16), 8, 0],
      4 + 28, 0,
      [U32(0), U32(0), U32(0), U64(b.batchId), U8(b.schema), U8(EffectiveVersion(b)), Zeros(2)],
      [0, 1],
      [BlobPart(Some(b.apiKey)), BlobPart(Some(b.data))]
    )
  }

  lemma BatchOffsets(b: Batch)
    ensures var body := BatchTable(b).body;
      && Off(body, 0) == 0 && Off(body, 1) == 4 && Off(body, 2) == 8 && Off(body, 3) == 12
      && Off(body, 4) == 20 && Off(body, 5) == 21 && Off(body, 6) == 22 && Off(body, 7) == 24
    ensures Sound(BatchTable(b)) && TableOff(BatchTable(b)) == 16
    ensures TableSize(BatchTable(b)) == 28
  {
    var body := BatchTable(b).body;
    assert Off(body, 1) == 4;
    assert Off(body, 2) == 8;
    assert Off(body, 3) == 12;
    assert Off(body, 4) == 20;
    assert Off(body, 5) == 21;
    assert Off(body, 6) == 22;
  }

  /**
   Every entry's vtable tells the size of its table; the envelope's says 32
   where the table has 28 bytes, so the size it tells runs into the first vector.
   */
  lemma ClaimedSizes(e: Entry, pos: nat, b: Batch)
    ensures EntryTable(e, pos).size == TableSize(EntryTable(e, pos))
    ensures BatchTable(b).size == TableSize(BatchTable(b)) + 4
  {
    hide Off, BlobPart, TextPart;
    BatchOffsets(b);
    match e
    case EventEntry(event) => EventOffsets(event);
    case LogEntry(log) => LogOffsets(log);
    case MetricEntry(metric) => MetricOffsets(metric, pos);
  }

  /** What the envelope is when it starts at `base`: the root offset counts from the start of the buffer. */
  ghost function BatchBytes(b: Batch, base: nat): seq<byte> {
    BatchOffsets(b);
    LE32(AsU32(base + 20)) + TableBytes(BatchTable(b), base + 4)
  }

  method EncodeBatchInto(buf: ByteBuffer, b: Batch)
    modifies buf
    ensures buf.bytes == old(buf.bytes) + BatchBytes(b, |old(buf.bytes)|)
  {
    hide Inline, Off, BlobBytes, DraftOf, LE32, Patched, PartAt, TableBytes, Sound, PartPad, KidBytes;
    ghost var before := buf.bytes;
    ghost var t := BatchTable(b);
    BatchOffsets(b);
    var base := |buf.bytes|;
    buf.Write(U32(0));
    ghost var pre := buf.bytes;
    var tableStart := WriteHead(buf, t,
      [U16(4 + 6 * 2), U16(4 + 28), U16(4), U16(24), U16(25), U16(SlotIf(b.batchId != 0, 16)), U16(8), U16(0),
       Zeros(0)],
      [U32(0), U32(0), U32(0), U64(b.batchId), U8(b.schema), U8(EffectiveVersion(b)), Zeros(2)]);
    PartWritten(pre, t, 0);
    var apiKey := buf.WriteBlobPart(Some(b.apiKey));
    PartWritten(pre, t, 1);
    var data := buf.WriteBlobPart(Some(b.data));
    RootPatched(before, t, tableStart, 0);
    buf.PatchU32(base, tableStart);
    pre := before + LE32(AsU32(tableStart));
    PartPatched(pre, t, 0, apiKey);
    buf.PatchPart(tableStart + 4, apiKey);
    PartPatched(pre, t, 1, data);
    buf.PatchPart(tableStart + 8, data);
    TableDone(pre, t);
    Assoc(before, LE32(AsU32(tableStart)), TableBytes(t, base + 4));
  }

  function ReadBatch(b: seq<byte>, t: int): Option<Batch> {
    var apiKey :- FieldBlob(b, t, 0);
    var schema :- FieldU8(b, t, 1);
    var version :- FieldU8(b, t, 2);
    var batchId :- FieldU64(b, t, 3);
    var data :- FieldBlob(b, t, 4);
    var sourceIp :- FieldBlob(b, t, 5);
    if apiKey.Some? && data.Some? && sourceIp.None? && schema < 256 && version < 256 && batchId < TWO_64 then
      Some(Batch(apiKey.value, schema, version, batchId, data.value))
    else None
  }

  lemma BatchScalars(b: seq<byte>, s: nat, x: Batch, pos: nat)
    requires Stands(b, s, BatchTable(x), pos)
    ensures FieldU8(b, s + 16, 1) == Some(x.schema) && FieldU8(b, s + 16, 2) == Some(EffectiveVersion(x))
    ensures FieldU64(b, s + 16, 3) == Some(x.batchId) && FieldBlob(b, s + 16, 5) == Some(None)
  {
    hide Stands, FieldU8, Off, Sound, TableOff, FieldOf, ReadU64, Deref;
    BatchOffsets(x);
    var t := BatchTable(x);
    ByteRead(b, s, t, pos, 1, 4);
    ByteRead(b, s, t, pos, 2, 5);
    SlotRead(b, s, t, pos, 3);
    SlotRead(b, s, t, pos, 5);
    if x.batchId != 0 {
      WordRead(b, s, t, pos, 3, 3);
    }
  }

  /** Reading the envelope's table gives back the batch, version 0 having become the default. */
  lemma BatchTableRead(b: seq<byte>, s: nat, x: Batch, pos: nat)
    requires Stands(b, s, BatchTable(x), pos) && |TableBytes(BatchTable(x), pos)| < TWO_32
    ensures ReadBatch(b, s + 16) == Some(x.(version := EffectiveVersion(x)))
    ensures var t := s + 16;
      && FieldBlob(b, t, 0) == Some(Some(x.apiKey)) && FieldU8(b, t, 1) == Some(x.schema)
      && FieldU8(b, t, 2) == Some(if x.version == 0 then 100 else x.version) && FieldU64(b, t, 3) == Some(x.batchId)
      && FieldBlob(b, t, 4) == Some(Some(x.data)) && FieldBlob(b, t, 5) == Some(None)
  {
    hide Stands, TableBytes, FieldU8, FieldU64, FieldBlob, BlobBytes, Off, Sound, TableOff;
    BatchOffsets(x);
    BatchScalars(b, s, x, pos);
    BlobFieldRead(b, s, BatchTable(x), pos, 0, 0, Some(x.apiKey));
    BlobFieldRead(b, s, BatchTable(x), pos, 4, 1, Some(x.data));
  }

  /**
   The envelope is found through its own root offset exactly when the buffer was
   empty: otherwise the root offset points past the table by what stood before.
   */
  lemma BatchNeedsEmptyBuffer(before: seq<byte>, x: Batch)
    requires |before| + |BatchBytes(x, |before|)| < TWO_32
    ensures var b := before + BatchBytes(x, |before|);
      var table := |before| + 20;
      && ReadBatch(b, table) == Some(x.(version := EffectiveVersion(x)))
      && Deref(b, |before|) == Some(table + |before|)
      && (Deref(b, |before|) == Some(table) <==> before == [])
  {
    hide LE32, TableBytes, ReadBatch, Sound, At, FieldU8, FieldU64, FieldBlob;
    BatchOffsets(x);
    var t, base := BatchTable(x), |before|;
    var root, bytes := LE32(AsU32(base + 20)), TableBytes(t, base + 4);
    var b := before + (root + bytes);
    AtSelf(root);
    AtLeft(root, bytes, 0, root);
    AtRight(before, root + bytes, 0, root);
    AtSelf(bytes);
    AtRight(root, bytes, 0, bytes);
    AtRight(before, root + bytes, 4, bytes);
    TableLength(t, base + 4);
    ReadsU32(b, base, base + 20);
    BatchTableRead(b, base + 4, x, base + 4);
  }

  // ---- Chunks ----

  /** What the application configured. */
  datatype Config = Config(apiKey: seq<byte>, service: Blob, source: Blob)

  datatype Queued =
    | QueuedEvent(eventType: byte, timestamp: u64, deviceId: seq<byte>, sessionId: Blob, eventName: Blob, payload: Blob)
    | QueuedLog(level: byte, timestamp: u64, sessionId: Blob, component: Blob, service: Blob, payload: Blob)
    | QueuedMetric(metricType: byte, timestamp: u64, name: seq<byte>, value: u64, labels: seq<Label>,
                   temporality: byte, histogram: Option<Histogram>)

  function Or(a: Blob, b: Blob): Blob {
    if a.Some? then a else b
  }

  const LOG_EVENT_TYPE: byte := 1

  /** The entry on the wire: the configuration fills in what the entry leaves open. */
  function Stamp(cfg: Config, q: Queued): Entry {
    match q
    case QueuedEvent(eventType, timestamp, deviceId, sessionId, eventName, payload) =>
      EventEntry(Event(eventType, timestamp, cfg.service, Some(deviceId), sessionId, eventName, payload))
    case QueuedLog(level, timestamp, sessionId, component, service, payload) =>
      LogEntry(LogLine(LOG_EVENT_TYPE, sessionId, level, timestamp, Or(component, cfg.source),
          Or(service, cfg.service), payload))
    case QueuedMetric(metricType, timestamp, name, value, labels, temporality, histogram) =>
      MetricEntry(Metric(metricType, timestamp, name, value, cfg.source, cfg.service, labels, temporality,
                         histogram, None))
  }

  function StampAll(cfg: Config, chunk: seq<Queued>): (es: seq<Entry>)
    ensures |es| == |chunk|
  {
    seq(|chunk|, i requires 0 <= i < |chunk| => Stamp(cfg, chunk[i]))
  }

  function SchemaByte(s: H.Schema): byte {
    match s
    case Events => 1
    case Logs => 2
    case Metrics => 3
  }

  function KindFor(s: H.Schema): Kind {
    match s
    case Events => Kind.Events
    case Logs => Kind.Logs
    case Metrics => Kind.Metrics
  }

  ghost function ChunkData(cfg: Config, chunk: seq<Queued>): seq<byte> {
    DataBytes(EntriesBytes(StampAll(cfg, chunk)), 0)
  }

  ghost function ChunkBatch(cfg: Config, s: H.Schema, chunk: seq<Queued>, id: nat): Batch {
    Batch(cfg.apiKey, SchemaByte(s), DEFAULT_VERSION, id % TWO_64, ChunkData(cfg, chunk))
  }

  /** The bytes on the wire. */
  ghost function WireBytes(cfg: Config, s: H.Schema, chunk: seq<Queued>, id: nat): seq<byte> {
    BatchBytes(ChunkBatch(cfg, s, chunk, id), 0)
  }

  // ---- Reading the wire ----

  function SchemaOf(b: byte): Option<H.Schema> {
    match b
    case 1 => Some(H.Events)
    case 2 => Some(H.Logs)
    case 3 => Some(H.Metrics)
    case _ => None
  }

  /** What a receiver makes of a frame: its schema and its entries. */
  function ReadFrame(frame: seq<byte>): Option<(H.Schema, seq<Entry>)> {
    var t :- Root(frame);
    var batch :- ReadBatch(frame, t);
    var s :- SchemaOf(batch.schema);
    var es :- ReadData(batch.data, 0, KindFor(s));
    Some((s, es))
  }

  ghost predicate Fits(q: Queued, s: H.Schema) {
    match s
    case Events => q.QueuedEvent?
    case Logs => q.QueuedLog?
    case Metrics => q.QueuedMetric?
  }

  lemma StampKind(cfg: Config, chunk: seq<Queued>, s: H.Schema)
    requires forall i :: 0 <= i < |chunk| ==> Fits(chunk[i], s)
    ensures AllOf(StampAll(cfg, chunk), KindFor(s))
  {
  }

  lemma DataInBatch(x: Batch)
    ensures |x.data| <= |BatchBytes(x, 0)|
  {
    hide TableBytes, LE32, BlobBytes;
    BatchOffsets(x);
    var t := BatchTable(x);
    var bytes := TableBytes(t, 4);
    AtSelf(bytes);
    PartFits(bytes, 0, t, 4, 1);
  }

  /**
   The entry on the wire carries what was queued. Of a log entry source and service are
   its own when it has them, else the configured ones; events and metrics carry the
   configured service, metrics the configured source too.
   */
  ghost predicate Carries(cfg: Config, q: Queued, e: Entry) {
    match q
    case QueuedEvent(eventType, timestamp, deviceId, sessionId, eventName, payload) =>
      && e.EventEntry?
      && e.event.eventType == eventType && e.event.timestamp == timestamp
      && e.event.deviceId == Some(deviceId) && e.event.sessionId == sessionId
      && e.event.eventName == eventName && e.event.payload == payload
      && e.event.service == cfg.service
    case QueuedLog(level, timestamp, sessionId, component, service, payload) =>
      && e.LogEntry?
      && e.log.eventType == 1 && e.log.level == level && e.log.timestamp == timestamp
      && e.log.sessionId == sessionId && e.log.payload == payload
      && (component.Some? ==> e.log.source == component) && (component.None? ==> e.log.source == cfg.source)
      && (service.Some? ==> e.log.service == service) && (service.None? ==> e.log.service == cfg.service)
    case QueuedMetric(metricType, timestamp, name, value, labels, temporality, histogram) =>
      && e.MetricEntry?
      && e.metric.metricType == metricType && e.metric.timestamp == timestamp && e.metric.name == name
      && e.metric.value == value && e.metric.labels == labels && e.metric.temporality == temporality
      && e.metric.histogram == histogram && e.metric.sessionId == None
      && e.metric.source == cfg.source && e.metric.service == cfg.service
  }

  ghost predicate CarriesAll(cfg: Config, chunk: seq<Queued>, es: seq<Entry>) {
    |es| == |chunk| && forall i :: 0 <= i < |chunk| ==> Carries(cfg, chunk[i], es[i])
  }

  lemma StampCarries(cfg: Config, chunk: seq<Queued>)
    ensures CarriesAll(cfg, chunk, StampAll(cfg, chunk))
  {
  }

  /** The envelope of a frame: the configured key, the default version, the batch's id and the schema's number. */
  ghost predicate EnvelopeOf(frame: seq<byte>, cfg: Config, s: H.Schema, id: nat) {
    && Root(frame).Some? && ReadBatch(frame, Root(frame).value).Some?
    && var batch := ReadBatch(frame, Root(frame).value).value;
       && batch.apiKey == cfg.apiKey && batch.version == 100 && batch.batchId == id % 0x1_0000_0000_0000_0000
       && batch.schema == match s
          case Events => 1
          case Logs => 2
          case Metrics => 3
  }

  /** From chunk to frame and back: exactly the queued entries, in order, with the fallbacks applied. */
  lemma WireRoundTrip(cfg: Config, s: H.Schema, chunk: seq<Queued>, id: nat)
    requires forall i :: 0 <= i < |chunk| ==> Fits(chunk[i], s)
    requires |WireBytes(cfg, s, chunk, id)| < TWO_32
    ensures ReadFrame(WireBytes(cfg, s, chunk, id)) == Some((s, StampAll(cfg, chunk)))
    ensures CarriesAll(cfg, chunk, ReadFrame(WireBytes(cfg, s, chunk, id)).value.1)
    ensures EnvelopeOf(WireBytes(cfg, s, chunk, id), cfg, s, id)
  {
    hide BatchBytes, DataBytes, ReadBatch, ReadData, EntriesBytes, Deref, Stamp, Fits, CarriesAll;
    StampCarries(cfg, chunk);
    var x := ChunkBatch(cfg, s, chunk, id);
    var none: seq<byte> := [];
    assert none + BatchBytes(x, |none|) == WireBytes(cfg, s, chunk, id);
    BatchNeedsEmptyBuffer(none, x);
    DataInBatch(x);
    AtSelf(x.data);
    StampKind(cfg, chunk, s);
    DataRead(x.data, 0, StampAll(cfg, chunk), 0, KindFor(s));
  }

  // ---- The sender ----

  /** The encoding half of the worker: two buffers that are reused for every chunk. */
  class Sender {
    const cfg: Config
    const dataBuf: ByteBuffer
    const batchBuf: ByteBuffer

    constructor (cfg: Config)
      ensures this.cfg == cfg && fresh(dataBuf) && fresh(batchBuf) && dataBuf != batchBuf
    {
      this.cfg := cfg;
      dataBuf := new ByteBuffer();
      batchBuf := new ByteBuffer();
    }

    /** Wraps a range of the data buffer in an envelope. */
    method FinishBatch(s: H.Schema, start: nat, end: nat, id: nat)
      requires start <= end <= |dataBuf.bytes| && dataBuf != batchBuf
      modifies batchBuf
      ensures batchBuf.bytes
           == BatchBytes(Batch(cfg.apiKey, SchemaByte(s), DEFAULT_VERSION, id % TWO_64, dataBuf.bytes[start..end]), 0)
    {
      hide BatchBytes;
      batchBuf.Clear();
      var batch := Batch(cfg.apiKey, SchemaByte(s), DEFAULT_VERSION, id % TWO_64, dataBuf.bytes[start..end]);
      EncodeBatchInto(batchBuf, batch);
      assert [] + BatchBytes(batch, 0) == BatchBytes(batch, 0);
    }

    /** Whatever earlier chunks left in the buffers, the frame depends on this chunk alone. */
    method EncodeChunk(s: H.Schema, chunk: seq<Queued>, id: nat)
      requires dataBuf != batchBuf
      modifies dataBuf, batchBuf
      ensures batchBuf.bytes == WireBytes(cfg, s, chunk, id)
      ensures (forall i :: 0 <= i < |chunk| ==> Fits(chunk[i], s)) && |batchBuf.bytes| < TWO_32 ==>
        && EnvelopeOf(batchBuf.bytes, cfg, s, id)
        && ReadFrame(batchBuf.bytes).Some? && ReadFrame(batchBuf.bytes).value.0 == s
        && CarriesAll(cfg, chunk, ReadFrame(batchBuf.bytes).value.1)
    {
      hide BatchBytes, DataBytes, EntriesBytes, EnvelopeOf, ReadFrame, CarriesAll, Fits, Stamp;
      var params := StampAll(cfg, chunk);
      dataBuf.Clear();
      var start, end := EncodeDataInto(dataBuf, params);
      assert dataBuf.bytes[start..end] == ChunkData(cfg, chunk);
      FinishBatch(s, start, end, id);
      if (forall i :: 0 <= i < |chunk| ==> Fits(chunk[i], s)) && |batchBuf.bytes| < TWO_32 {
        WireRoundTrip(cfg, s, chunk, id);
      }
    }
  }

  // ---- Whole runs of the worker ----

  ghost predicate Encodes(cfg: Config, encode: (H.Schema, seq<Queued>, nat) -> seq<byte>) {
    forall s, chunk, id :: encode(s, chunk, id) == WireBytes(cfg, s, chunk, id)
  }

  /** Entries are queued under their own schema, and no frame reaches 4 GiB. */
  ghost predicate Proper(e: H.Event<Queued>) {
    e.HandOff? ==> (forall i :: 0 <= i < |e.entries| ==> Fits(e.entries[i], e.schema)) && |e.frame| < TWO_32
  }

  /** What a reader of every frame of schema `s` makes of them, in order. */
  function ReadRun(trace: seq<H.Event<Queued>>, s: H.Schema): Option<seq<Entry>> {
    if trace == [] then Some([])
    else
      var before :- ReadRun(trace[..|trace| - 1], s);
      var e := trace[|trace| - 1];
      if e.HandOff? && e.schema == s then
        var got :- ReadFrame(e.frame);
        if got.0 == s then Some(before + got.1) else None
      else Some(before)
  }

  lemma StampConcat(cfg: Config, a: seq<Queued>, b: seq<Queued>)
    ensures StampAll(cfg, a + b) == StampAll(cfg, a) + StampAll(cfg, b)
  {
    hide Stamp;
  }

  /** A frame handed off is read back as what it was made of. */
  lemma FrameRead(cfg: Config, c: H.Setup<Queued>, e: H.Event<Queued>)
    requires Encodes(cfg, c.encode) && e.HandOff? && Proper(e) && H.Framed(c, e)
    ensures ReadFrame(e.frame) == Some((e.schema, StampAll(cfg, e.entries)))
    ensures CarriesAll(cfg, e.entries, ReadFrame(e.frame).value.1)
    ensures EnvelopeOf(e.frame, cfg, e.schema, e.id)
  {
    hide WireBytes, ReadFrame, StampAll, Fits, CarriesAll, EnvelopeOf, H.Fated;
    WireRoundTrip(cfg, e.schema, e.entries, e.id);
  }

  /**
   Over any history of the worker: decoding the frames handed off, per schema and in
   order, gives back the entries handed off, every field as queued, with the fallbacks.
   */
  lemma {:induction false} RunRoundTrip(cfg: Config, c: H.Setup<Queued>, trace: seq<H.Event<Queued>>, s: H.Schema)
    requires Encodes(cfg, c.encode) && H.AllFramed(c, trace)
    requires forall i :: 0 <= i < |trace| ==> Proper(trace[i])
    ensures ReadRun(trace, s) == Some(StampAll(cfg, H.Flat(trace, s)))
    ensures CarriesAll(cfg, H.Flat(trace, s), ReadRun(trace, s).value)
  {
    hide Encodes, Proper, H.Framed, ReadFrame, StampAll, CarriesAll;
    StampCarries(cfg, H.Flat(trace, s));
    if trace == [] {
      assert StampAll(cfg, []) == [] by {
        StampConcat(cfg, [], []);
      }
    } else {
      var n := |trace| - 1;
      var e := trace[n];
      RunRoundTrip(cfg, c, trace[..n], s);
      if e.HandOff? && e.schema == s {
        FrameRead(cfg, c, e);
        StampConcat(cfg, H.Flat(trace[..n], s), e.entries);
      } else {
        assert H.Flat(trace[..n], s) + [] == H.Flat(trace[..n], s);
      }
    }
  }

  /**
   Over any run of the worker's loop: the entries taken and sampled, per schema and in
   order, are first those that the frames handed off decode to, every field as queued,
   and then those still queued. Where the frames are is said by the fates of the hand-offs.
   */
  lemma EveryEntryIsInAFrame(cfg: Config, c: H.Setup<Queued>, limit: nat, start: H.Stand<Queued>,
                             pending: seq<H.Message<Queued>>, wakes: seq<H.Wake<Queued>>, turns: seq<H.Turn<Queued>>,
                             s: H.Schema)
    requires Encodes(cfg, c.encode) && H.Ready(c, start) && H.RunOf(c, limit, start, pending, wakes, turns)
    requires start.absorbed == H.Queues([], [], [])
    requires forall i :: 0 <= i < |H.AfterAll(c, start, turns).trace| ==> Proper(H.AfterAll(c, start, turns).trace[i])
    ensures var now, inputs := H.AfterAll(c, start, turns), H.Inputs(turns, s);
      && ReadRun(now.trace, s).Some?
      && var es := ReadRun(now.trace, s).value;
         && |es| <= |inputs| && CarriesAll(cfg, inputs[..|es|], es) && now.queues.Get(s) == inputs[|es|..]
         && es + StampAll(cfg, now.queues.Get(s)) == StampAll(cfg, inputs)
  {
    hide Encodes, Proper, H.AllFramed, StampAll, ReadRun, H.AfterAll, H.RunOf, H.Below, H.AcksSound, H.Stopped, Carries,
        H.TraceIds;
    var now := H.AfterAll(c, start, turns);
    H.RunKeeps(c, limit, start, pending, wakes, turns);
    RunRoundTrip(cfg, c, now.trace, s);
    StampConcat(cfg, H.Flat(now.trace, s), now.queues.Get(s));
    H.RunAbsorbs(c, start, turns, s);
    assert [] + H.Inputs(turns, s) == H.Inputs(turns, s);
    var flat := H.Flat(now.trace, s);
    assert H.Inputs(turns, s) == flat + now.queues.Get(s);
    assert H.Inputs(turns, s)[..|flat|] == flat;
  }

  /** Frames of one history carry batch ids of their own, as long as the ids do not wrap. */
  lemma FramesHaveOwnIds(cfg: Config, c: H.Setup<Queued>, s: H.Stand<Queued>, i: nat, j: nat)
    requires Encodes(cfg, c.encode) && H.Conserved(c, s) && s.nextId <= TWO_64
    requires i < j < |s.trace| && s.trace[i].HandOff? && s.trace[j].HandOff?
    requires Proper(s.trace[i]) && Proper(s.trace[j])
    ensures var a, b := s.trace[i].frame, s.trace[j].frame;
      && EnvelopeOf(a, cfg, s.trace[i].schema, s.trace[i].id) && EnvelopeOf(b, cfg, s.trace[j].schema, s.trace[j].id)
      && ReadBatch(a, Root(a).value).value.batchId != ReadBatch(b, Root(b).value).value.batchId
  {
    hide Encodes, Proper, H.Framed, H.Accounted, ReadFrame, StampAll, CarriesAll, ReadBatch;
    assert H.Framed(c, s.trace[i]) && H.Framed(c, s.trace[j]);
    FrameRead(cfg, c, s.trace[i]);
    FrameRead(cfg, c, s.trace[j]);
    assert s.trace[i].id < s.trace[j].id < TWO_64;
  }
}
