/**
 What the worker does, as data: messages, queues, hand-offs, passes over the
 disk buffer, and turns of its loop. A turn takes the worker, the log and the
 network from one standing to the next; the lemmas say what every turn keeps.
 */
module History {
  import opened Wrappers
  import opened Bytes
  import opened Frames
  import opened Network
  import L = Log

  datatype Schema = Events | Logs | Metrics

  /** Pending entries, one queue per schema. */
  datatype Queues<E> = Queues(events: seq<E>, logs: seq<E>, metrics: seq<E>) {
    function Get(s: Schema): seq<E> {
      match s
      case Events => events
      case Logs => logs
      case Metrics => metrics
    }

    function Set(s: Schema, q: seq<E>): Queues<E> {
      match s
      case Events => this.(events := q)
      case Logs => this.(logs := q)
      case Metrics => this.(metrics := q)
    }

    function Push(s: Schema, e: E): Queues<E> {
      Set(s, Get(s) + [e])
    }

    function Len(): nat {
      |events| + |logs| + |metrics|
    }
  }

  datatype Message<E> = Entry(schema: Schema, entry: E) | Flush(id: nat) | Close(id: nat)

  /** Acknowledgements collected while draining the channel. */
  datatype Acks = Acks(flush: seq<nat>, close: seq<nat>)

  /** What became of a chunk. */
  datatype Fate = Sent | Logged | Reported

  /**
   The worker's history. A hand-off records its batch id and its sends; an
   acknowledgement records what had been absorbed when it fired.
   */
  datatype Event<E> =
    | HandOff(schema: Schema, entries: seq<E>, id: nat, frame: seq<byte>, fate: Fate, tries: seq<Attempt>)
    | Ack(id: nat, seen: Queues<E>)

  datatype Report =
    | SendFailed
    | Evicted(bytes: nat)
    | ReadError
    | FlushTimedOut
    | Dropping(total: nat)

  /** What the worker was configured with; `sends` is how often a chunk is tried. */
  datatype Setup<!E> = Setup(batchSize: nat, encode: (Schema, seq<E>, nat) -> seq<byte>, buffered: bool, sends: nat)

  // ---- What hand-offs add up to ----

  /** The entries of schema `s` handed off in `evs`, in order. */
  function Flat<E>(evs: seq<Event<E>>, s: Schema): seq<E> {
    if evs == [] then []
    else
      var e := evs[|evs| - 1];
      Flat(evs[..|evs| - 1], s) + if e.HandOff? && e.schema == s then e.entries else []
  }

  lemma {:induction false} FlatConcat<E>(a: seq<Event<E>>, b: seq<Event<E>>, s: Schema)
    ensures Flat(a + b, s) == Flat(a, s) + Flat(b, s)
  {
    if b == [] {
      assert a + b == a;
    } else {
      var n := |b| - 1;
      assert (a + b)[..|a + b| - 1] == a + b[..n];
      FlatConcat(a, b[..n], s);
      var e := b[n];
      Assoc(Flat(a, s), Flat(b[..n], s), if e.HandOff? && e.schema == s then e.entries else []);
    }
  }

  lemma {:induction false} FlatOther<E>(evs: seq<Event<E>>, s: Schema, o: Schema)
    requires s != o && forall i :: 0 <= i < |evs| ==> evs[i].HandOff? && evs[i].schema == s
    ensures Flat(evs, o) == []
  {
    if evs != [] {
      FlatOther(evs[..|evs| - 1], s, o);
    }
  }

  /** The log after the logged chunks of `evs` have been appended in order. */
  function LogAfter<E>(l: L.Log, evs: seq<Event<E>>): L.Log {
    if evs == [] then l
    else
      var e := evs[|evs| - 1];
      var before := LogAfter(l, evs[..|evs| - 1]);
      if e.HandOff? && e.fate == Logged then L.Append(before, e.frame) else before
  }

  lemma {:induction false} LogAfterConcat<E>(l: L.Log, a: seq<Event<E>>, b: seq<Event<E>>)
    ensures LogAfter(l, a + b) == LogAfter(LogAfter(l, a), b)
  {
    hide L.Append;
    if b == [] {
      assert a + b == a;
    } else {
      var n := |b| - 1;
      assert (a + b)[..|a + b| - 1] == a + b[..n];
      LogAfterConcat(l, a, b[..n]);
    }
  }

  /** The sends of the hand-offs, in order. */
  function SendsOf<E>(evs: seq<Event<E>>): seq<Attempt> {
    if evs == [] then []
    else
      var e := evs[|evs| - 1];
      SendsOf(evs[..|evs| - 1]) + if e.HandOff? then e.tries else []
  }

  lemma {:induction false} SendsConcat<E>(a: seq<Event<E>>, b: seq<Event<E>>)
    ensures SendsOf(a + b) == SendsOf(a) + SendsOf(b)
  {
    if b == [] {
      assert a + b == a;
    } else {
      var n := |b| - 1;
      assert (a + b)[..|a + b| - 1] == a + b[..n];
      SendsConcat(a, b[..n]);
      Assoc(SendsOf(a), SendsOf(b[..n]), if b[n].HandOff? then b[n].tries else []);
    }
  }

  /** What appending `f` to the log makes the worker report. */
  function EvictionReport(l: L.Log, f: seq<byte>): seq<Report> {
    var freed := L.Freed(l, FRAME_HEADER_LEN + |f|);
    if freed > 0 then [Evicted(freed)] else []
  }

  function ReportOf<E>(l: L.Log, e: Event<E>): seq<Report> {
    if e.Ack? then []
    else
      match e.fate
      case Sent => []
      case Logged => EvictionReport(l, e.frame)
      case Reported => [SendFailed]
  }

  /** The reports the hand-offs make, from log `l` on. */
  function ReportsOf<E>(l: L.Log, evs: seq<Event<E>>): seq<Report> {
    if evs == [] then []
    else
      var before := evs[..|evs| - 1];
      ReportsOf(l, before) + ReportOf(LogAfter(l, before), evs[|evs| - 1])
  }

  lemma {:induction false} ReportsConcat<E>(l: L.Log, a: seq<Event<E>>, b: seq<Event<E>>)
    ensures ReportsOf(l, a + b) == ReportsOf(l, a) + ReportsOf(LogAfter(l, a), b)
  {
    hide LogAfter, ReportOf;
    if b == [] {
      assert a + b == a;
    } else {
      var n := |b| - 1;
      assert (a + b)[..|a + b| - 1] == a + b[..n];
      ReportsConcat(l, a, b[..n]);
      LogAfterConcat(l, a, b[..n]);
      Assoc(ReportsOf(l, a), ReportsOf(LogAfter(l, a), b[..n]), ReportOf(LogAfter(l, a + b[..n]), b[n]));
    }
  }

  // ---- What a hand-off may be ----

  /** The sends of one frame: all failed but the last, which decides; at most `max` of them. */
  ghost predicate Tries(tries: seq<Attempt>, frame: seq<byte>, max: nat, fate: Option<Fate>) {
    && 0 < |tries| <= max
    && (forall i :: 0 <= i < |tries| ==> tries[i].frame == frame)
    && (forall i :: 0 <= i < |tries| - 1 ==> tries[i].result == Failed)
    && var last := tries[|tries| - 1].result;
       match fate
       case Some(Sent) => last == Ok
       case Some(_) => last == Failed && |tries| == max
       case None => last == Cancelled || (last == Failed && |tries| < max)
  }

  /** The fate of a hand-off is what its sends and the configuration make of it; a saved chunk has no sends. */
  ghost predicate Fated<E>(c: Setup<E>, e: Event<E>)
    requires e.HandOff?
  {
    && (if e.tries == [] then e.fate == Logged else Tries(e.tries, e.frame, c.sends, Some(e.fate)))
    && (e.fate == Logged ==> c.buffered) && (e.fate == Reported ==> !c.buffered)
  }

  /**
   How often a chunk is sent. With a disk buffer at most once, and once is enough to log
   it; without one a chunk is given up only after `maxRetries + 1` failed sends.
   */
  ghost predicate Retried<E>(e: Event<E>, buffered: bool, maxRetries: nat) {
    e.HandOff? ==>
      && (forall i :: 0 <= i < |e.tries| ==> e.tries[i].frame == e.frame)
      && (buffered ==> |e.tries| <= 1 && e.fate != Reported && (e.tries == [] ==> e.fate == Logged))
      && (!buffered ==> 1 <= |e.tries| <= maxRetries + 1 && e.fate != Logged)
      && (e.fate == Sent ==>
            && |e.tries| > 0 && e.tries[|e.tries| - 1].result == Ok
            && forall i :: 0 <= i < |e.tries| - 1 ==> e.tries[i].result == Failed)
      && (e.fate == Logged ==> forall i :: 0 <= i < |e.tries| ==> e.tries[i].result == Failed)
      && (e.fate == Reported ==>
            |e.tries| == maxRetries + 1 && forall i :: 0 <= i < |e.tries| ==> e.tries[i].result == Failed)
  }

  lemma FatedRetried<E>(c: Setup<E>, e: Event<E>, maxRetries: nat)
    requires e.HandOff? ==> Fated(c, e)
    requires c.sends == if c.buffered then 1 else maxRetries + 1
    ensures Retried(e, c.buffered, maxRetries)
  {
  }

  /** A hand-off of 1 to `batchSize` entries whose frame encodes exactly those entries under its id. */
  ghost predicate Framed<E>(c: Setup<E>, e: Event<E>) {
    e.HandOff? ==>
      1 <= |e.entries| <= c.batchSize && e.frame == c.encode(e.schema, e.entries, e.id) && Fated(c, e)
  }

  /** A chunk of schema `s`, handed off with its sends, or saved without any. */
  ghost predicate ChunkOf<E>(c: Setup<E>, e: Event<E>, s: Schema, saved: bool) {
    e.HandOff? && e.schema == s && Framed(c, e) && (saved <==> e.tries == [])
  }

  ghost predicate ChunksOf<E>(c: Setup<E>, evs: seq<Event<E>>, s: Schema, saved: bool) {
    forall i :: 0 <= i < |evs| ==> ChunkOf(c, evs[i], s, saved)
  }

  /** Chunks of any schema. */
  ghost predicate Legit<E>(c: Setup<E>, evs: seq<Event<E>>, saved: bool) {
    forall i :: 0 <= i < |evs| ==> evs[i].HandOff? && ChunkOf(c, evs[i], evs[i].schema, saved)
  }

  function Front<E>(q: seq<E>, max: nat): seq<E> {
    if |q| <= max then q else q[..max]
  }

  /** Sends of the front chunk of `q`, encoded under `id`, that the deadline cut off. */
  ghost predicate CutOff<E>(c: Setup<E>, tries: seq<Attempt>, s: Schema, q: seq<E>, id: nat) {
    q != [] && Tries(tries, c.encode(s, Front(q, c.batchSize), id), c.sends, None)
  }

  lemma FrontIs<E>(q: seq<E>, max: nat)
    ensures Front(q, max) == q[..if |q| <= max then |q| else max]
  {
  }

  lemma MakeChunk<E>(c: Setup<E>, e: Event<E>, saved: bool)
    requires e.HandOff? && 1 <= |e.entries| <= c.batchSize && e.frame == c.encode(e.schema, e.entries, e.id)
    requires if saved then e.fate == Logged && e.tries == [] else Tries(e.tries, e.frame, c.sends, Some(e.fate))
    requires (e.fate == Logged ==> c.buffered) && (e.fate == Reported ==> !c.buffered)
    ensures ChunkOf(c, e, e.schema, saved)
  {
  }

  lemma ChunkShape<E>(c: Setup<E>, e: Event<E>, s: Schema, q: seq<E>, saved: bool)
    requires ChunkOf(c, e, s, saved) && e.entries == Front(q, c.batchSize)
    ensures e.HandOff? && e.schema == s && 1 <= |e.entries| <= |q| && e.entries == q[..|e.entries|]
  {
  }

  lemma LegitConcat<E>(c: Setup<E>, a: seq<Event<E>>, b: seq<Event<E>>, saved: bool)
    requires Legit(c, a, saved) && Legit(c, b, saved)
    ensures Legit(c, a + b, saved)
  {
    hide ChunkOf;
  }

  lemma NothingLegit<E>(c: Setup<E>)
    ensures Legit(c, [], true) && Legit(c, [], false)
  {
  }

  /** One more hand-off: the front `n` entries of a queue. */
  lemma HandOffStep<E>(evs: seq<Event<E>>, e: Event<E>, q: seq<E>, n: nat, l: L.Log)
    requires e.HandOff? && n <= |q| && e.entries == q[..n]
    ensures Flat(evs + [e], e.schema) + q[n..] == Flat(evs, e.schema) + q
    ensures LogAfter(l, evs + [e])
         == if e.fate == Logged then L.Append(LogAfter(l, evs), e.frame) else LogAfter(l, evs)
    ensures SendsOf(evs + [e]) == SendsOf(evs) + e.tries
    ensures ReportsOf(l, evs + [e]) == ReportsOf(l, evs) + ReportOf(LogAfter(l, evs), e)
  {
    hide L.Append, ReportOf;
    assert (evs + [e])[..|evs|] == evs;
    Assoc(Flat(evs, e.schema), q[..n], q[n..]);
    assert q[..n] + q[n..] == q;
  }

  // ---- Batch ids ----

  /** Hand-offs with ascending ids from `lo` on, all below `hi`. */
  ghost predicate IdsIn<E>(evs: seq<Event<E>>, lo: nat, hi: nat) {
    && lo <= hi
    && (forall i :: 0 <= i < |evs| ==> evs[i].HandOff? && lo <= evs[i].id < hi)
    && (forall i, j :: 0 <= i < j < |evs| ==> evs[i].id < evs[j].id)
  }

  /** The ids in a history ascend, and the next one is above them all. */
  ghost predicate TraceIds<E>(trace: seq<Event<E>>, next: nat) {
    && (forall i :: 0 <= i < |trace| && trace[i].HandOff? ==> trace[i].id < next)
    && (forall i, j :: 0 <= i < j < |trace| && trace[i].HandOff? && trace[j].HandOff? ==> trace[i].id < trace[j].id)
  }

  lemma IdsConcat<E>(a: seq<Event<E>>, b: seq<Event<E>>, lo: nat, mid: nat, hi: nat)
    requires IdsIn(a, lo, mid) && IdsIn(b, mid, hi)
    ensures IdsIn(a + b, lo, hi)
  {
  }

  lemma NoIds<E>(lo: nat)
    ensures IdsIn<E>([], lo, lo)
  {
  }

  lemma IdsOrdered<E>(evs: seq<Event<E>>, lo: nat, hi: nat)
    requires IdsIn(evs, lo, hi)
    ensures lo <= hi
  {
  }

  lemma OneId<E>(e: Event<E>)
    requires e.HandOff?
    ensures IdsIn([e], e.id, e.id + 1)
  {
  }

  lemma TraceIdsMore<E>(trace: seq<Event<E>>, work: seq<Event<E>>, lo: nat, mid: nat, hi: nat)
    requires TraceIds(trace, lo) && lo <= mid && IdsIn(work, mid, hi)
    ensures TraceIds(trace + work, hi)
  {
  }

  // ---- The order of the schemas ----

  function SchemaRank(s: Schema): nat {
    match s
    case Events => 0
    case Logs => 1
    case Metrics => 2
  }

  ghost predicate OfSchema<E>(evs: seq<Event<E>>, s: Schema) {
    forall i :: 0 <= i < |evs| ==> evs[i].HandOff? && evs[i].schema == s
  }

  /** Events before logs before metrics, up to rank `r`. */
  ghost predicate InOrder<E>(evs: seq<Event<E>>, r: nat) {
    && (forall i :: 0 <= i < |evs| ==> evs[i].HandOff? && SchemaRank(evs[i].schema) <= r)
    && (forall i, j :: 0 <= i < j < |evs| ==> SchemaRank(evs[i].schema) <= SchemaRank(evs[j].schema))
  }

  lemma InOrderMore<E>(evs: seq<Event<E>>, more: seq<Event<E>>, r: nat, s: Schema)
    requires InOrder(evs, r) && r <= SchemaRank(s) && OfSchema(more, s)
    ensures InOrder(evs + more, SchemaRank(s)) && InOrder(evs + more, 2)
  {
  }

  /** No chunk of logs is before one of events, and none of metrics before one of either. */
  lemma OrderOfSchemas<E>(evs: seq<Event<E>>, i: nat, j: nat)
    requires InOrder(evs, 2) && i < j < |evs|
    ensures evs[i].schema == Logs ==> evs[j].schema != Events
    ensures evs[i].schema == Metrics ==> evs[j].schema == Metrics
  {
  }

  lemma NothingInOrder<E>()
    ensures InOrder<E>([], 0) && InOrder<E>([], 2)
  {
  }

  // ---- Accounts per schema ----

  /** Per schema: what `evs` handed off, followed by what is still queued, is what was queued. */
  ghost predicate Settled<E>(before: Queues<E>, evs: seq<Event<E>>, after: Queues<E>) {
    forall s: Schema :: Flat(evs, s) + after.Get(s) == before.Get(s)
  }

  ghost predicate Accounted<E>(absorbed: Queues<E>, trace: seq<Event<E>>, queues: Queues<E>) {
    forall s: Schema :: absorbed.Get(s) == Flat(trace, s) + queues.Get(s)
  }

  lemma SettledOne<E>(before: Queues<E>, evs: seq<Event<E>>, s: Schema, left: seq<E>)
    requires forall i :: 0 <= i < |evs| ==> evs[i].HandOff? && evs[i].schema == s
    requires Flat(evs, s) + left == before.Get(s)
    ensures Settled(before, evs, before.Set(s, left))
  {
    forall o: Schema
      ensures Flat(evs, o) + before.Set(s, left).Get(o) == before.Get(o)
    {
      if o != s {
        FlatOther(evs, s, o);
      }
    }
  }

  lemma OneSchema<E>(c: Setup<E>, before: Queues<E>, evs: seq<Event<E>>, s: Schema, left: seq<E>, saved: bool)
    requires ChunksOf(c, evs, s, saved) && Flat(evs, s) + left == before.Get(s)
    ensures Legit(c, evs, saved) && Settled(before, evs, before.Set(s, left)) && OfSchema(evs, s)
  {
    SettledOne(before, evs, s, left);
  }

  lemma SettledThen<E>(q0: Queues<E>, a: seq<Event<E>>, q1: Queues<E>, b: seq<Event<E>>, q2: Queues<E>)
    requires Settled(q0, a, q1) && Settled(q1, b, q2)
    ensures Settled(q0, a + b, q2)
  {
    forall s: Schema
      ensures Flat(a + b, s) + q2.Get(s) == q0.Get(s)
    {
      FlatConcat(a, b, s);
      Assoc(Flat(a, s), Flat(b, s), q2.Get(s));
    }
  }

  /** Settling keeps the account of every schema. */
  lemma StillAccounted<E>(absorbed: Queues<E>, trace: seq<Event<E>>, q0: Queues<E>, evs: seq<Event<E>>, q1: Queues<E>)
    requires Accounted(absorbed, trace, q0) && Settled(q0, evs, q1)
    ensures Accounted(absorbed, trace + evs, q1)
  {
    forall s: Schema
      ensures absorbed.Get(s) == Flat(trace + evs, s) + q1.Get(s)
    {
      FlatConcat(trace, evs, s);
      Assoc(Flat(trace, s), Flat(evs, s), q1.Get(s));
    }
  }

  /** Two stretches of hand-offs, one after the other, as one. */
  lemma Joined<E>(trace: seq<Event<E>>, sends: seq<Attempt>, reports: seq<Report>, l: L.Log, q0: Queues<E>,
                  a: seq<Event<E>>, q1: Queues<E>, b: seq<Event<E>>, q2: Queues<E>)
    requires Settled(q0, a, q1) && Settled(q1, b, q2)
    ensures (trace + a) + b == trace + (a + b) && Settled(q0, a + b, q2)
    ensures (sends + SendsOf(a)) + SendsOf(b) == sends + SendsOf(a + b)
    ensures LogAfter(LogAfter(l, a), b) == LogAfter(l, a + b)
    ensures (reports + ReportsOf(l, a)) + ReportsOf(LogAfter(l, a), b) == reports + ReportsOf(l, a + b)
  {
    hide Settled;
    Assoc(trace, a, b);
    SettledThen(q0, a, q1, b, q2);
    SendsConcat(a, b);
    Assoc(sends, SendsOf(a), SendsOf(b));
    LogAfterConcat(l, a, b);
    ReportsConcat(l, a, b);
    Assoc(reports, ReportsOf(l, a), ReportsOf(LogAfter(l, a), b));
  }

  lemma NothingYet<E>(trace: seq<Event<E>>, q: seq<E>, s: Schema, l: L.Log, sends: seq<Attempt>, reports: seq<Report>)
    ensures trace + [] == trace && Flat<E>([], s) + q == q && LogAfter<E>(l, []) == l
    ensures sends + SendsOf<E>([]) == sends && reports + ReportsOf<E>(l, []) == reports
  {
  }

  lemma NothingAtAll<E>(trace: seq<Event<E>>, q: Queues<E>, l: L.Log, sends: seq<Attempt>, reports: seq<Report>)
    ensures trace + [] == trace && Settled(q, [], q) && LogAfter<E>(l, []) == l
    ensures sends + SendsOf<E>([]) == sends && reports + ReportsOf<E>(l, []) == reports
  {
  }

  // ---- Messages ----

  function Absorbed<E>(q: Queues<E>, msgs: seq<Message<E>>): Queues<E> {
    if msgs == [] then q
    else
      var m := msgs[|msgs| - 1];
      var before := Absorbed(q, msgs[..|msgs| - 1]);
      if m.Entry? then before.Push(m.schema, m.entry) else before
  }

  function AcksOf<E>(msgs: seq<Message<E>>): Acks {
    if msgs == [] then Acks([], [])
    else
      var m := msgs[|msgs| - 1];
      var before := AcksOf(msgs[..|msgs| - 1]);
      match m
      case Entry(_, _) => before
      case Flush(id) => before.(flush := before.flush + [id])
      case Close(id) => before.(close := before.close + [id])
  }

  lemma AbsorbOne<E>(q: Queues<E>, m: Message<E>)
    ensures Absorbed(q, [m]) == if m.Entry? then q.Push(m.schema, m.entry) else q
    ensures AcksOf([m]) == match m
      case Entry(_, _) => Acks([], [])
      case Flush(id) => Acks([id], [])
      case Close(id) => Acks([], [id])
  {
    assert [m][..0] == [];
    assert AcksOf<E>([]) == Acks([], []) && [] + [0] == [0];
  }

  lemma AbsorbMore<E>(q: Queues<E>, msgs: seq<Message<E>>, m: Message<E>)
    ensures Absorbed(q, msgs + [m]) == Absorbed(Absorbed(q, msgs), [m])
    ensures AcksOf(msgs + [m]) == Acks(AcksOf(msgs).flush + AcksOf([m]).flush, AcksOf(msgs).close + AcksOf([m]).close)
  {
    assert (msgs + [m])[..|msgs|] == msgs;
    AbsorbOne(Absorbed(q, msgs), m);
  }

  /** The entries of schema `s` among `msgs`, in order. */
  function EntriesOf<E>(msgs: seq<Message<E>>, s: Schema): seq<E> {
    if msgs == [] then []
    else
      var m := msgs[|msgs| - 1];
      EntriesOf(msgs[..|msgs| - 1], s) + if m.Entry? && m.schema == s then [m.entry] else []
  }

  lemma {:induction false} AbsorbedEntries<E>(q: Queues<E>, msgs: seq<Message<E>>, s: Schema)
    ensures Absorbed(q, msgs).Get(s) == q.Get(s) + EntriesOf(msgs, s)
  {
    if msgs != [] {
      var n := |msgs| - 1;
      AbsorbedEntries(q, msgs[..n], s);
      Assoc(q.Get(s), EntriesOf(msgs[..n], s), if msgs[n].Entry? && msgs[n].schema == s then [msgs[n].entry] else []);
    }
  }

  /** Every flush and every close request is among the acknowledgements to send, and nothing else is. */
  lemma {:induction false} RequestsCollected<E>(msgs: seq<Message<E>>, id: nat)
    ensures id in AcksOf(msgs).flush <==> Flush(id) in msgs
    ensures id in AcksOf(msgs).close <==> Close(id) in msgs
  {
    if msgs != [] {
      var n := |msgs| - 1;
      RequestsCollected(msgs[..n], id);
      assert msgs == msgs[..n] + [msgs[n]];
    }
  }

  lemma NoFlushes<E>(msgs: seq<Message<E>>)
    requires AcksOf(msgs).flush == []
    ensures forall id :: Flush(id) !in msgs
  {
    forall id: nat
      ensures Flush(id) !in msgs
    {
      RequestsCollected(msgs, id);
    }
  }

  /** Every message is an entry of one queue or a request: none is dropped. */
  lemma {:induction false} MessagesAccounted<E>(msgs: seq<Message<E>>)
    ensures |msgs| == |EntriesOf(msgs, Events)| + |EntriesOf(msgs, Logs)| + |EntriesOf(msgs, Metrics)|
                    + |AcksOf(msgs).flush| + |AcksOf(msgs).close|
    ensures forall i :: 0 <= i < |msgs| && msgs[i].Entry? ==> msgs[i].entry in EntriesOf(msgs, msgs[i].schema)
  {
    if msgs != [] {
      var n := |msgs| - 1;
      MessagesAccounted(msgs[..n]);
      var m := msgs[n];
      forall i | 0 <= i < |msgs| && msgs[i].Entry?
        ensures msgs[i].entry in EntriesOf(msgs, msgs[i].schema)
      {
        if i < n {
          assert msgs[..n][i] == msgs[i];
        }
      }
    }
  }

  lemma {:induction false} EntriesConcat<E>(a: seq<Message<E>>, b: seq<Message<E>>, s: Schema)
    ensures EntriesOf(a + b, s) == EntriesOf(a, s) + EntriesOf(b, s)
  {
    if b == [] {
      assert a + b == a;
    } else {
      var n := |b| - 1;
      EntriesConcat(a, b[..n], s);
      assert (a + b)[..|a + b| - 1] == a + b[..n];
      Assoc(EntriesOf(a, s), EntriesOf(b[..n], s), if b[n].Entry? && b[n].schema == s then [b[n].entry] else []);
    }
  }

  lemma {:induction false} CloseAcks<E>(msgs: seq<Message<E>>)
    ensures AcksOf(msgs).close != [] <==> exists i :: 0 <= i < |msgs| && msgs[i].Close?
  {
    if msgs != [] {
      CloseAcks(msgs[..|msgs| - 1]);
    }
  }

  lemma {:induction false} AbsorbKeeps<E>(absorbed: Queues<E>, trace: seq<Event<E>>, q: Queues<E>,
      msgs: seq<Message<E>>)
    requires Accounted(absorbed, trace, q)
    ensures Accounted(Absorbed(absorbed, msgs), trace, Absorbed(q, msgs))
  {
    if msgs != [] {
      var n := |msgs| - 1;
      AbsorbKeeps(absorbed, trace, q, msgs[..n]);
      if msgs[n].Entry? {
        Assoc(Flat(trace, msgs[n].schema), Absorbed(q, msgs[..n]).Get(msgs[n].schema), [msgs[n].entry]);
      }
    }
  }

  // ---- Acknowledgements ----

  function AckEvents<E>(ids: seq<nat>, seen: Queues<E>): seq<Event<E>> {
    seq(|ids|, i requires 0 <= i < |ids| => Ack(ids[i], seen))
  }

  ghost predicate AllFramed<E>(c: Setup<E>, trace: seq<Event<E>>) {
    forall i :: 0 <= i < |trace| ==> Framed(c, trace[i])
  }

  /** When an acknowledgement fired, everything absorbed before it had been handed off. */
  ghost predicate AckSound<E>(trace: seq<Event<E>>, i: nat)
    requires i < |trace|
  {
    trace[i].Ack? ==> forall s: Schema :: Flat(trace[..i], s) == trace[i].seen.Get(s)
  }

  ghost predicate AcksSound<E>(trace: seq<Event<E>>) {
    forall i :: 0 <= i < |trace| ==> AckSound(trace, i)
  }

  lemma SoundPrefix<E>(a: seq<Event<E>>, b: seq<Event<E>>, i: nat)
    requires i < |a|
    ensures AckSound(a + b, i) <==> AckSound(a, i)
  {
    assert (a + b)[..i] == a[..i];
  }

  lemma WorkKeeps<E>(c: Setup<E>, trace: seq<Event<E>>, work: seq<Event<E>>, saved: bool)
    requires Legit(c, work, saved) && AllFramed(c, trace)
    ensures AllFramed(c, trace + work)
    ensures AcksSound(trace) ==> AcksSound(trace + work)
  {
    hide Framed;
    forall i | 0 <= i < |work|
      ensures Framed(c, work[i])
    {
      assert ChunkOf(c, work[i], work[i].schema, saved);
    }
    if AcksSound(trace) {
      forall i | 0 <= i < |trace + work|
        ensures AckSound(trace + work, i)
      {
        if i < |trace| {
          SoundPrefix(trace, work, i);
        }
      }
    }
  }

  lemma {:induction false} FlatOfAcks<E>(trace: seq<Event<E>>, ids: seq<nat>, seen: Queues<E>, s: Schema)
    ensures Flat(trace + AckEvents(ids, seen), s) == Flat(trace, s)
  {
    if ids == [] {
      assert trace + AckEvents(ids, seen) == trace;
    } else {
      var n := |ids| - 1;
      FlatOfAcks(trace, ids[..n], seen, s);
      assert (trace + AckEvents(ids, seen))[..|trace| + n] == trace + AckEvents(ids[..n], seen);
    }
  }

  lemma AcksKeepIds<E>(trace: seq<Event<E>>, ids: seq<nat>, seen: Queues<E>, next: nat)
    requires TraceIds(trace, next)
    ensures TraceIds(trace + AckEvents(ids, seen), next)
  {
  }

  lemma AcksKeepAccount<E>(absorbed: Queues<E>, trace: seq<Event<E>>, q: Queues<E>, ids: seq<nat>)
    requires Accounted(absorbed, trace, q)
    ensures Accounted(absorbed, trace + AckEvents(ids, absorbed), q)
  {
    forall s: Schema
      ensures absorbed.Get(s) == Flat(trace + AckEvents(ids, absorbed), s) + q.Get(s)
    {
      FlatOfAcks(trace, ids, absorbed, s);
    }
  }

  lemma AckAtEnd<E>(absorbed: Queues<E>, trace: seq<Event<E>>, ids: seq<nat>, i: nat)
    requires Accounted(absorbed, trace, Queues([], [], [])) && i < |ids|
    ensures AckSound(trace + AckEvents(ids, absorbed), |trace| + i)
  {
    var all := trace + AckEvents(ids, absorbed);
    assert all[..|trace| + i] == trace + AckEvents(ids[..i], absorbed);
    forall s: Schema
      ensures Flat(all[..|trace| + i], s) == absorbed.Get(s)
    {
      FlatOfAcks(trace, ids[..i], absorbed, s);
      assert Flat(trace, s) + [] == Flat(trace, s);
    }
  }

  lemma AcksKeepSound<E>(absorbed: Queues<E>, trace: seq<Event<E>>, ids: seq<nat>)
    requires Accounted(absorbed, trace, Queues([], [], [])) && AcksSound(trace)
    ensures AcksSound(trace + AckEvents(ids, absorbed))
  {
    hide AckSound, Accounted;
    var acks := AckEvents(ids, absorbed);
    forall i | 0 <= i < |trace + acks|
      ensures AckSound(trace + acks, i)
    {
      if i < |trace| {
        SoundPrefix(trace, acks, i);
      } else {
        AckAtEnd(absorbed, trace, ids, i - |trace|);
      }
    }
  }

  lemma AcksKeep<E>(c: Setup<E>, absorbed: Queues<E>, trace: seq<Event<E>>, q: Queues<E>, ids: seq<nat>)
    requires Accounted(absorbed, trace, q) && AllFramed(c, trace)
    ensures Accounted(absorbed, trace + AckEvents(ids, absorbed), q) && AllFramed(c, trace + AckEvents(ids, absorbed))
    ensures AcksSound(trace) && (q == Queues([], [], []) || ids == []) ==> AcksSound(trace + AckEvents(ids, absorbed))
  {
    hide Accounted, AcksSound;
    AcksKeepAccount(absorbed, trace, q, ids);
    if ids == [] {
      assert trace + AckEvents(ids, absorbed) == trace;
    } else if AcksSound(trace) && q == Queues([], [], []) {
      AcksKeepSound(absorbed, trace, ids);
    }
  }

  // ---- Passes over the disk buffer ----

  /** How a pass ended; `sent` are the frames accepted before that. */
  datatype Pass =
    | Idle
    | Finished(sent: seq<seq<byte>>)
    | PutBack(sent: seq<seq<byte>>, frame: seq<byte>)
    | CutShort(sent: seq<seq<byte>>, frame: seq<byte>)

  /** What the pass did to the log. A cut skips both the put-back and the commit. */
  function PassOps(p: Pass): seq<L.Op> {
    match p
    case Idle => []
    case Finished(sent) => L.Drains(|sent| + 1) + [L.OpCommit]
    case PutBack(sent, f) => L.Drains(|sent| + 1) + [L.OpAppend(f), L.OpCommit]
    case CutShort(sent, f) => L.Drains(|sent| + 1)
  }

  function Accepted(frames: seq<seq<byte>>): seq<Attempt> {
    seq(|frames|, i requires 0 <= i < |frames| => Attempt(frames[i], Ok))
  }

  function PassSends(p: Pass): seq<Attempt> {
    match p
    case Idle => []
    case Finished(sent) => Accepted(sent)
    case PutBack(sent, f) => Accepted(sent) + [Attempt(f, Failed)]
    case CutShort(sent, f) => Accepted(sent) + [Attempt(f, Cancelled)]
  }

  /** A corrupt header and a failed send are reported; what the put-back evicts is not. */
  function PassReports(p: Pass, l: L.Log): seq<Report> {
    match p
    case Idle => []
    case Finished(sent) => if L.DrainResult(L.Run(l, L.Drains(|sent|))).Corrupt? then [ReadError] else []
    case PutBack(_, _) => [SendFailed]
    case CutShort(_, _) => []
  }

  /** The frames of the pass are those the log hands out, in its order. */
  ghost predicate PassOf(p: Pass, l: L.Log) {
    match p
    case Idle => l.Unread() == []
    case Finished(sent) =>
      sent == L.Outputs(l, L.Drains(|sent|)) && !L.DrainResult(L.Run(l, L.Drains(|sent|))).Got?
    case PutBack(sent, f) =>
      sent == L.Outputs(l, L.Drains(|sent|)) && L.DrainResult(L.Run(l, L.Drains(|sent|))) == L.Got(f)
    case CutShort(sent, f) =>
      sent == L.Outputs(l, L.Drains(|sent|)) && L.DrainResult(L.Run(l, L.Drains(|sent|))) == L.Got(f)
  }

  lemma PassIdle(l: L.Log, sends: seq<Attempt>, reports: seq<Report>)
    ensures L.Run(l, PassOps(Idle)) == l && sends + PassSends(Idle) == sends
    ensures reports + PassReports(Idle, l) == reports
    ensures l.Unread() == [] ==> PassOf(Idle, l)
  {
  }

  lemma PassStart(l: L.Log, sends: seq<Attempt>)
    ensures L.Drains(0) == [] && L.Run(l, []) == l && L.Outputs(l, []) == [] && sends + Accepted([]) == sends
  {
  }

  lemma SendStep(sends: seq<Attempt>, sent: seq<seq<byte>>, d: L.Drained, r: SendResult)
    ensures !d.Got? ==> (sends + Accepted(sent)) + [] == sends + PassSends(Finished(sent))
    ensures d.Got? ==>
      var now := (sends + Accepted(sent)) + [Attempt(d.frame, r)];
      && (r.Ok? ==> now == sends + Accepted(sent + [d.frame]))
      && (r.Failed? ==> now == sends + PassSends(PutBack(sent, d.frame)))
      && (r.Cancelled? ==> now == sends + PassSends(CutShort(sent, d.frame)))
  {
    if d.Got? {
      Assoc(sends, Accepted(sent), [Attempt(d.frame, r)]);
      if r.Ok? {
        assert Accepted(sent + [d.frame]) == Accepted(sent) + [Attempt(d.frame, r)];
      }
    }
  }

  lemma PutBackRun(l: L.Log, n: nat, f: seq<byte>)
    ensures L.Run(l, L.Drains(n) + [L.OpAppend(f), L.OpCommit]) == L.Commit(L.Append(L.Run(l, L.Drains(n)), f))
  {
    hide L.Append, L.Commit, L.Run;
    var next := L.Run(l, L.Drains(n));
    L.RunConcat(l, L.Drains(n), [L.OpAppend(f), L.OpCommit]);
    L.RunConcat(next, [L.OpAppend(f)], [L.OpCommit]);
    assert [L.OpAppend(f)] + [L.OpCommit] == [L.OpAppend(f), L.OpCommit];
    L.RunOne(next, L.OpAppend(f));
    L.RunOne(L.Append(next, f), L.OpCommit);
  }

  lemma GotShrinks(l: L.Log)
    requires L.DrainResult(l).Got?
    ensures |L.DrainNext(l).Unread()| < |l.Unread()|
  {
  }

  /** The pass after one more drain step from `here`, whichever way it goes on. */
  lemma PassStep(l: L.Log, sent: seq<seq<byte>>, here: L.Log)
    requires here == L.Run(l, L.Drains(|sent|)) && sent == L.Outputs(l, L.Drains(|sent|))
    ensures var d, next := L.DrainResult(here), L.DrainNext(here);
      && (d.Got? ==>
            && next == L.Run(l, L.Drains(|sent + [d.frame]|))
            && sent + [d.frame] == L.Outputs(l, L.Drains(|sent + [d.frame]|))
            && |next.Unread()| < |here.Unread()|
            && PassOf(PutBack(sent, d.frame), l) && PassOf(CutShort(sent, d.frame), l)
            && L.Run(l, PassOps(CutShort(sent, d.frame))) == next
            && L.Run(l, PassOps(PutBack(sent, d.frame))) == L.Commit(L.Append(next, d.frame)))
      && (!d.Got? ==>
            && PassOf(Finished(sent), l) && L.Run(l, PassOps(Finished(sent))) == L.Commit(next)
            && PassReports(Finished(sent), l) == if d.Corrupt? then [ReadError] else [])
  {
    hide L.Append, L.Commit, L.DrainNext, L.DrainResult, L.Run, L.Outputs, L.Drains;
    var n := |sent|;
    var d, next := L.DrainResult(here), L.DrainNext(here);
    L.DrainOneMore(l, n);
    if d.Got? {
      GotShrinks(here);
      PutBackRun(l, n + 1, d.frame);
    } else {
      L.RunConcat(l, L.Drains(n + 1), [L.OpCommit]);
      L.RunOne(next, L.OpCommit);
    }
  }

  // ---- Turns of the loop ----

  /** Where the worker, its log and its network stand between two wake-ups. */
  datatype Stand<E> = Stand(queues: Queues<E>, absorbed: Queues<E>, trace: seq<Event<E>>, nextId: nat,
                            wal: L.Log, sends: seq<Attempt>, reports: seq<Report>)

  /** One wake-up of the worker's select loop. */
  datatype Wake<E> =
    | Received(arrived: seq<Message<E>>)
    | AllClientsDropped
    | FlushTick
    | ResyncTick
    | SampleTick(points: seq<E>)

  /**
   What one wake-up leads to: messages taken from the channel, points sampled, a
   pass over the log, chunks handed off, the sends of a chunk that the deadline cut
   off, chunks saved, acknowledgements. `atCut` are the queues and `cutId` the next
   batch id when the flush ended or before the chunk that was cut off, `left` and
   `nextId` those at the end.
   */
  datatype Turn<E> = Turn(taken: seq<Message<E>>, points: seq<E>, pass: Option<Pass>, work: seq<Event<E>>, cut: bool,
                          inFlight: seq<Attempt>, atCut: Queues<E>, cutId: nat, saved: seq<Event<E>>,
                          acks: seq<nat>, left: Queues<E>, nextId: nat)

  /** Messages and sampled points join the queues. */
  function Input<E>(q: Queues<E>, taken: seq<Message<E>>, points: seq<E>): Queues<E> {
    var a := Absorbed(q, taken);
    a.(metrics := a.metrics + points)
  }

  function Passed(l: L.Log, pass: Option<Pass>): L.Log {
    if pass.None? then l else L.Run(l, PassOps(pass.value))
  }

  function PassedSends(pass: Option<Pass>): seq<Attempt> {
    if pass.None? then [] else PassSends(pass.value)
  }

  function PassedReports(pass: Option<Pass>, l: L.Log): seq<Report> {
    if pass.None? then [] else PassReports(pass.value, l)
  }

  /** The log when the flush ended or was cut off. */
  function LogAtCut<E>(l: L.Log, t: Turn<E>): L.Log {
    LogAfter(Passed(l, t.pass), t.work)
  }

  function SendsOfTurn<E>(t: Turn<E>): seq<Attempt> {
    PassedSends(t.pass) + SendsOf(t.work) + t.inFlight
  }

  function TimeoutReports<E>(c: Setup<E>, t: Turn<E>): seq<Report> {
    if !t.cut then [] else [FlushTimedOut] + if !c.buffered && t.left.Len() > 0 then [Dropping(t.left.Len())] else []
  }

  function ReportsOfTurn<E>(c: Setup<E>, l: L.Log, t: Turn<E>): seq<Report> {
    PassedReports(t.pass, l) + ReportsOf(Passed(l, t.pass), t.work)
    + TimeoutReports(c, t) + ReportsOf(LogAtCut(l, t), t.saved)
  }

  /** Everything a turn changes, and how. */
  function After<E>(c: Setup<E>, s: Stand<E>, t: Turn<E>): Stand<E> {
    var absorbed := Input(s.absorbed, t.taken, t.points);
    Stand(
      t.left,
      absorbed,
      s.trace + t.work + t.saved + AckEvents(t.acks, absorbed),
      t.nextId,
      LogAfter(LogAtCut(s.wal, t), t.saved),
      s.sends + SendsOfTurn(t),
      s.reports + ReportsOfTurn(c, s.wal, t)
    )
  }

  /** Cut off in the pass, or in the sends of one chunk; then everything is saved, or counted. */
  ghost predicate CutTurn<E>(c: Setup<E>, t: Turn<E>) {
    && (if t.pass.Some? && t.pass.value.CutShort? then t.work == [] && t.inFlight == []
        else exists s: Schema :: CutOff(c, t.inFlight, s, t.atCut.Get(s), t.cutId))
    && (if c.buffered then t.left == Queues([], [], []) else t.saved == [] && t.left == t.atCut)
  }

  /** A chunk that was cut off in its sends has used up its id. */
  function SavedFrom<E>(t: Turn<E>): nat {
    if t.cut && !(t.pass.Some? && t.pass.value.CutShort?) then t.cutId + 1 else t.cutId
  }

  ghost predicate WholeTurn<E>(t: Turn<E>) {
    && t.inFlight == [] && t.saved == [] && t.left == t.atCut && t.nextId == t.cutId
    && !(t.pass.Some? && t.pass.value.CutShort?)
  }

  /** A turn that can happen from `s`: its chunks come off the queues, its pass is one of the log. */
  ghost predicate TurnOf<E>(c: Setup<E>, s: Stand<E>, t: Turn<E>) {
    && Legit(c, t.work, false) && Legit(c, t.saved, true)
    && InOrder(t.work, 2) && InOrder(t.saved, 2)
    && IdsIn(t.work, s.nextId, t.cutId) && IdsIn(t.saved, SavedFrom(t), t.nextId)
    && (t.pass.Some? ==> PassOf(t.pass.value, s.wal) && (!c.buffered ==> t.pass.value == Idle))
    && Settled(Input(s.queues, t.taken, t.points), t.work, t.atCut)
    && Settled(t.atCut, t.saved, t.left)
    && (if t.cut then CutTurn(c, t) else WholeTurn(t))
  }

  // ---- Which turn answers which wake-up ----

  /** Nothing happens. */
  ghost predicate Rest<E>(s: Stand<E>, t: Turn<E>) {
    t == Turn([], [], None, [], false, [], s.queues, s.nextId, [], [], s.queues, s.nextId)
  }

  /** Queues that reached a batch are flushed, others wait. */
  ghost predicate Filled<E>(c: Setup<E>, s: Stand<E>, t: Turn<E>) {
    && t.pass.None? && !t.cut && t.acks == []
    && forall o: Schema ::
         var q := Input(s.queues, t.taken, t.points).Get(o);
         t.left.Get(o) == if |q| < c.batchSize then q else []
  }

  /** The log is drained and every queue flushed, without a deadline. */
  ghost predicate Emptied<E>(t: Turn<E>) {
    t.pass.Some? && !t.cut && t.left == Queues([], [], [])
  }

  /** The log is drained and every queue flushed, unless the deadline cut that off. */
  ghost predicate Closed<E>(t: Turn<E>) {
    t.pass.Some? && (!t.cut ==> t.left == Queues([], [], []))
  }

  function Min(a: nat, b: nat): nat {
    if a <= b then a else b
  }

  /** The answer to `w` when `offered` waits in the channel; at most `1 + limit` messages are taken. */
  ghost predicate Serves<E>(c: Setup<E>, limit: nat, s: Stand<E>, t: Turn<E>, w: Wake<E>, offered: seq<Message<E>>) {
    match w
    case Received(_) =>
      var acks := AcksOf(t.taken);
      && t.points == [] && t.taken == offered[..Min(1 + limit, |offered|)]
      && (if t.taken == [] then Rest(s, t)
          else if acks.close != [] then Closed(t) && t.acks == acks.flush + acks.close
          else if acks.flush != [] then Emptied(t) && t.acks == acks.flush
          else Filled(c, s, t))
    case AllClientsDropped =>
      t.taken == [] && t.points == [] && t.acks == [] && if offered == [] then Closed(t) else Rest(s, t)
    case FlushTick => t.taken == [] && t.points == [] && t.acks == [] && Emptied(t)
    case ResyncTick => Rest(s, t)
    case SampleTick(points) => t.taken == [] && t.points == points && Filled(c, s, t)
  }

  /** After this turn the worker stops: a close was taken, or every client is gone. */
  ghost predicate Stops<E>(t: Turn<E>, w: Wake<E>, offered: seq<Message<E>>) {
    AcksOf(t.taken).close != [] || (w.AllClientsDropped? && offered == [])
  }

  function Arrived<E>(w: Wake<E>): seq<Message<E>> {
    if w.Received? then w.arrived else []
  }

  // ---- Runs of the loop ----

  function AfterAll<E>(c: Setup<E>, s: Stand<E>, turns: seq<Turn<E>>): Stand<E> {
    if turns == [] then s else After(c, AfterAll(c, s, turns[..|turns| - 1]), turns[|turns| - 1])
  }

  /** What waits in the channel once the first `n` wake-ups have been answered. */
  function Waiting<E>(pending: seq<Message<E>>, wakes: seq<Wake<E>>, turns: seq<Turn<E>>, n: nat): seq<Message<E>>
    requires n <= |wakes| && n <= |turns|
  {
    if n == 0 then pending
    else
      var offered := Waiting(pending, wakes, turns, n - 1) + Arrived(wakes[n - 1]);
      if |turns[n - 1].taken| <= |offered| then offered[|turns[n - 1].taken|..] else []
  }

  function Offered<E>(pending: seq<Message<E>>, wakes: seq<Wake<E>>, turns: seq<Turn<E>>, n: nat): seq<Message<E>>
    requires n < |wakes| && n <= |turns|
  {
    Waiting(pending, wakes, turns, n) + Arrived(wakes[n])
  }

  /** Turn `i` of a run is a turn from where the run stands, it answers wake-up `i`, and only the last may stop. */
  ghost predicate Answered<E>(c: Setup<E>, limit: nat, s: Stand<E>, pending: seq<Message<E>>,
                              wakes: seq<Wake<E>>, turns: seq<Turn<E>>, i: nat)
    requires i < |turns| && i < |wakes|
  {
    var here, offered := AfterAll(c, s, turns[..i]), Offered(pending, wakes, turns, i);
    && TurnOf(c, here, turns[i])
    && Serves(c, limit, here, turns[i], wakes[i], offered)
    && (i + 1 < |turns| ==> !Stops(turns[i], wakes[i], offered))
  }

  ghost predicate RunOf<E>(c: Setup<E>, limit: nat, s: Stand<E>, pending: seq<Message<E>>,
                           wakes: seq<Wake<E>>, turns: seq<Turn<E>>) {
    |turns| <= |wakes| && forall i :: 0 <= i < |turns| ==> Answered(c, limit, s, pending, wakes, turns, i)
  }

  // ---- What turns keep ----

  /** No entry is lost or reordered; every frame is of legal size and encodes its entries, under an id of its own. */
  ghost predicate Conserved<E>(c: Setup<E>, s: Stand<E>) {
    Accounted(s.absorbed, s.trace, s.queues) && AllFramed(c, s.trace) && TraceIds(s.trace, s.nextId)
  }

  ghost predicate Below<E>(c: Setup<E>, q: Queues<E>) {
    forall o: Schema :: |q.Get(o)| < c.batchSize
  }

  lemma InputKeeps<E>(absorbed: Queues<E>, trace: seq<Event<E>>, q: Queues<E>, taken: seq<Message<E>>, points: seq<E>)
    requires Accounted(absorbed, trace, q)
    ensures Accounted(Input(absorbed, taken, points), trace, Input(q, taken, points))
  {
    AbsorbKeeps(absorbed, trace, q, taken);
    var a, b := Absorbed(absorbed, taken), Absorbed(q, taken);
    Assoc(Flat(trace, Metrics), b.metrics, points);
    assert a.Get(Metrics) == Flat(trace, Metrics) + b.Get(Metrics);
    assert a.Get(Events) == Flat(trace, Events) + b.Get(Events);
    assert a.Get(Logs) == Flat(trace, Logs) + b.Get(Logs);
  }

  /** Any turn conserves entries; one that leaves nothing queued, or acknowledges nothing, acknowledges soundly. */
  lemma TurnKeeps<E>(c: Setup<E>, s: Stand<E>, t: Turn<E>)
    requires Conserved(c, s) && TurnOf(c, s, t)
    ensures Conserved(c, After(c, s, t))
    ensures AcksSound(s.trace) && (t.acks == [] || t.left == Queues([], [], [])) ==> AcksSound(After(c, s, t).trace)
  {
    hide TraceIds, IdsIn;
    hide Accounted, AllFramed, AcksSound, Settled, Legit, InOrder, Input, AckEvents, LogAfter, SendsOf, ReportsOf,
        PassOf,
        CutTurn;
    var absorbed, q := Input(s.absorbed, t.taken, t.points), Input(s.queues, t.taken, t.points);
    InputKeeps(s.absorbed, s.trace, s.queues, t.taken, t.points);
    StillAccounted(absorbed, s.trace, q, t.work, t.atCut);
    StillAccounted(absorbed, s.trace + t.work, t.atCut, t.saved, t.left);
    WorkKeeps(c, s.trace, t.work, false);
    WorkKeeps(c, s.trace + t.work, t.saved, true);
    AcksKeep(c, absorbed, s.trace + t.work + t.saved, t.left, t.acks);
    TraceIdsMore(s.trace, t.work, s.nextId, s.nextId, t.cutId);
    TraceIdsMore(s.trace + t.work, t.saved, t.cutId, SavedFrom(t), t.nextId);
    AcksKeepIds(s.trace + t.work + t.saved, t.acks, absorbed, t.nextId);
  }

  lemma NoClose<E>(msgs: seq<Message<E>>)
    requires msgs == []
    ensures AcksOf(msgs) == Acks([], [])
  {
  }

  /** A turn that answers a wake-up and does not stop leaves every queue below a batch, and acknowledges soundly. */
  lemma ServedTurn<E>(c: Setup<E>, limit: nat, s: Stand<E>, t: Turn<E>, w: Wake<E>, offered: seq<Message<E>>)
    requires c.batchSize >= 1 && Below(c, s.queues) && TurnOf(c, s, t) && Serves(c, limit, s, t, w, offered)
    ensures !Stops(t, w, offered) ==> Below(c, t.left) && (t.acks == [] || t.left == Queues([], [], []))
    ensures Stops(t, w, offered) && (c.buffered || !t.cut) ==> t.left == Queues([], [], [])
  {
    hide Legit, InOrder, IdsIn, Settled, PassOf, Input;
    if t.taken == [] {
      NoClose(t.taken);
    }
    if t.left == Queues([], [], []) {
      assert forall o: Schema :: t.left.Get(o) == [];
    }
  }

  /** The sampled points and the entries taken in a run, per schema and in order. */
  function Inputs<E>(turns: seq<Turn<E>>, s: Schema): seq<E> {
    if turns == [] then []
    else
      var t := turns[|turns| - 1];
      Inputs(turns[..|turns| - 1], s) + EntriesOf(t.taken, s) + if s == Metrics then t.points else []
  }

  function Taken<E>(turns: seq<Turn<E>>): seq<Message<E>> {
    if turns == [] then [] else Taken(turns[..|turns| - 1]) + turns[|turns| - 1].taken
  }

  function Arrivals<E>(wakes: seq<Wake<E>>): seq<Message<E>> {
    if wakes == [] then [] else Arrivals(wakes[..|wakes| - 1]) + Arrived(wakes[|wakes| - 1])
  }

  /** What a run absorbs is what its turns took and sampled. */
  lemma {:induction false} RunAbsorbs<E>(c: Setup<E>, s: Stand<E>, turns: seq<Turn<E>>, o: Schema)
    ensures AfterAll(c, s, turns).absorbed.Get(o) == s.absorbed.Get(o) + Inputs(turns, o)
  {
    hide LogAfter, SendsOf, ReportsOf, AckEvents;
    if turns != [] {
      var n := |turns| - 1;
      var t := turns[n];
      RunAbsorbs(c, s, turns[..n], o);
      var before := AfterAll(c, s, turns[..n]).absorbed;
      AbsorbedEntries(before, t.taken, o);
      Assoc(before.Get(o), EntriesOf(t.taken, o), if o == Metrics then t.points else []);
      Assoc(s.absorbed.Get(o), Inputs(turns[..n], o), EntriesOf(t.taken, o));
      Assoc(s.absorbed.Get(o), Inputs(turns[..n], o) + EntriesOf(t.taken, o), if o == Metrics then t.points else []);
    }
  }

  /** The history only grows. */
  lemma {:induction false} TraceGrows<E>(c: Setup<E>, s: Stand<E>, turns: seq<Turn<E>>)
    ensures s.trace <= AfterAll(c, s, turns).trace
  {
    hide LogAfter, SendsOf, ReportsOf, AckEvents, Input;
    if turns != [] {
      TraceGrows(c, s, turns[..|turns| - 1]);
    }
  }

  /** Whether the run of `turns` has stopped. */
  ghost predicate Stopped<E>(pending: seq<Message<E>>, wakes: seq<Wake<E>>, turns: seq<Turn<E>>)
    requires |turns| <= |wakes|
  {
    var n := |turns| - 1;
    turns != [] && Stops(turns[n], wakes[n], Offered(pending, wakes, turns, n))
  }

  lemma WaitingPrefix<E>(pending: seq<Message<E>>, wakes: seq<Wake<E>>, a: seq<Turn<E>>, b: seq<Turn<E>>, n: nat)
    requires n <= |wakes| && n <= |a| && a <= b
    ensures Waiting(pending, wakes, a, n) == Waiting(pending, wakes, b, n)
  {
    if n > 0 {
      WaitingPrefix(pending, wakes, a, b, n - 1);
    }
  }

  /** A run without its last turn is a run that has not stopped. */
  lemma RunPrefix<E>(c: Setup<E>, limit: nat, s: Stand<E>, pending: seq<Message<E>>,
                     wakes: seq<Wake<E>>, turns: seq<Turn<E>>)
    requires RunOf(c, limit, s, pending, wakes, turns) && turns != []
    ensures RunOf(c, limit, s, pending, wakes, turns[..|turns| - 1])
    ensures !Stopped(pending, wakes, turns[..|turns| - 1])
  {
    hide TurnOf, Serves, Stops, AfterAll;
    var n := |turns| - 1;
    var front := turns[..n];
    forall i | 0 <= i < n
      ensures Answered(c, limit, s, pending, wakes, front, i)
      ensures !Stops(front[i], wakes[i], Offered(pending, wakes, front, i))
    {
      assert Answered(c, limit, s, pending, wakes, turns, i);
      assert front[..i] == turns[..i];
      WaitingPrefix(pending, wakes, front, turns, i);
    }
  }

  lemma RunStarts<E>(c: Setup<E>, limit: nat, s: Stand<E>, pending: seq<Message<E>>, wakes: seq<Wake<E>>)
    ensures RunOf(c, limit, s, pending, wakes, []) && !Stopped(pending, wakes, [])
    ensures AfterAll(c, s, []) == s && Waiting(pending, wakes, [], 0) == pending
  {
  }

  /** One more turn. */
  lemma RunMore<E>(c: Setup<E>, limit: nat, s: Stand<E>, pending: seq<Message<E>>,
                   wakes: seq<Wake<E>>, turns: seq<Turn<E>>, t: Turn<E>)
    requires RunOf(c, limit, s, pending, wakes, turns) && |turns| < |wakes| && !Stopped(pending, wakes, turns)
    requires TurnOf(c, AfterAll(c, s, turns), t)
    requires Serves(c, limit, AfterAll(c, s, turns), t, wakes[|turns|], Offered(pending, wakes, turns, |turns|))
    ensures RunOf(c, limit, s, pending, wakes, turns + [t])
    ensures AfterAll(c, s, turns + [t]) == After(c, AfterAll(c, s, turns), t)
    ensures Stopped(pending, wakes, turns + [t]) <==> Stops(t, wakes[|turns|], Offered(pending, wakes, turns, |turns|))
    ensures var offered := Offered(pending, wakes, turns, |turns|);
      |t.taken| <= |offered| ==> Waiting(pending, wakes, turns + [t], |turns| + 1) == offered[|t.taken|..]
  {
    hide TurnOf, Serves, Stops, After;
    var n := |turns|;
    var all := turns + [t];
    assert all[..n] == turns;
    forall i | 0 <= i <= n
      ensures Answered(c, limit, s, pending, wakes, all, i)
    {
      assert all[..i] == turns[..i];
      WaitingPrefix(pending, wakes, turns, all, i);
      if i < n {
        assert Answered(c, limit, s, pending, wakes, turns, i);
      }
    }
    WaitingPrefix(pending, wakes, turns, all, n);
  }

  /** A worker between two wake-ups. */
  ghost predicate Ready<E>(c: Setup<E>, s: Stand<E>) {
    c.batchSize >= 1 && Conserved(c, s) && Below(c, s.queues) && AcksSound(s.trace)
  }

  ghost predicate Sound<E>(c: Setup<E>, now: Stand<E>, stopped: bool, turns: seq<Turn<E>>) {
    && Conserved(c, now)
    && (!stopped ==> Below(c, now.queues) && AcksSound(now.trace))
    && (stopped && turns != [] && (c.buffered || !turns[|turns| - 1].cut) ==>
          now.queues == Queues([], [], []) && AcksSound(now.trace))
  }

  lemma LeftIs<E>(c: Setup<E>, s: Stand<E>, t: Turn<E>)
    ensures After(c, s, t).queues == t.left
  {
  }

  lemma AllRetried<E>(c: Setup<E>, now: Stand<E>, stopped: bool, turns: seq<Turn<E>>, maxRetries: nat)
    requires Sound(c, now, stopped, turns) && c.sends == if c.buffered then 1 else maxRetries + 1
    ensures forall i :: 0 <= i < |now.trace| ==> Retried(now.trace[i], c.buffered, maxRetries)
  {
    hide Accounted, TraceIds, Below, AcksSound, Fated, Retried;
    forall i | 0 <= i < |now.trace|
      ensures Retried(now.trace[i], c.buffered, maxRetries)
    {
      assert Framed(c, now.trace[i]);
      FatedRetried(c, now.trace[i], maxRetries);
    }
  }

  /**
   Over every run: entries are conserved in order and framed; unless the run has
   stopped, every queue is below a batch and every acknowledgement was due. A run
   that has stopped with a disk buffer, or without a cut, leaves nothing queued.
   */
  lemma {:induction false} RunKeeps<E>(c: Setup<E>, limit: nat, s: Stand<E>, pending: seq<Message<E>>,
                                       wakes: seq<Wake<E>>, turns: seq<Turn<E>>)
    requires Ready(c, s) && RunOf(c, limit, s, pending, wakes, turns)
    ensures Sound(c, AfterAll(c, s, turns), Stopped(pending, wakes, turns), turns)
  {
    hide TurnOf, Serves, Conserved, Below, AcksSound, After, Stops;
    if turns != [] {
      var n := |turns| - 1;
      RunPrefix(c, limit, s, pending, wakes, turns);
      RunKeeps(c, limit, s, pending, wakes, turns[..n]);
      var here := AfterAll(c, s, turns[..n]);
      assert Answered(c, limit, s, pending, wakes, turns, n);
      ServedTurn(c, limit, here, turns[n], wakes[n], Offered(pending, wakes, turns, n));
      TurnKeeps(c, here, turns[n]);
      LeftIs(c, here, turns[n]);
    }
  }

  lemma TakenFromOffer<E>(c: Setup<E>, limit: nat, s: Stand<E>, t: Turn<E>, w: Wake<E>, offered: seq<Message<E>>)
    requires Serves(c, limit, s, t, w, offered)
    ensures t.taken <= offered
  {
  }

  lemma TakeAndLeave<T>(before: seq<T>, waiting: seq<T>, arrived: seq<T>, taken: seq<T>, pending: seq<T>,
      arrivals: seq<T>)
    requires before + waiting == pending + arrivals && taken <= waiting + arrived
    ensures (before + taken) + (waiting + arrived)[|taken|..] == pending + (arrivals + arrived)
  {
    var left := (waiting + arrived)[|taken|..];
    assert taken + left == waiting + arrived;
    Assoc(before, taken, left);
    Assoc(before, waiting, arrived);
    Assoc(pending, arrivals, arrived);
  }

  /** Messages are taken in the order in which they arrive, and none is skipped. */
  lemma {:induction false} RunTakes<E>(c: Setup<E>, limit: nat, s: Stand<E>, pending: seq<Message<E>>,
                                       wakes: seq<Wake<E>>, turns: seq<Turn<E>>)
    requires RunOf(c, limit, s, pending, wakes, turns)
    ensures Taken(turns) + Waiting(pending, wakes, turns, |turns|) == pending + Arrivals(wakes[..|turns|])
  {
    hide TurnOf, AfterAll, Serves, Stops;
    if turns == [] {
      assert wakes[..0] == [];
    } else {
      var n := |turns| - 1;
      RunPrefix(c, limit, s, pending, wakes, turns);
      RunTakes(c, limit, s, pending, wakes, turns[..n]);
      assert Answered(c, limit, s, pending, wakes, turns, n);
      WaitingPrefix(pending, wakes, turns[..n], turns, n);
      var offered := Offered(pending, wakes, turns, n);
      TakenFromOffer(c, limit, AfterAll(c, s, turns[..n]), turns[n], wakes[n], offered);
      assert wakes[..n + 1][..n] == wakes[..n];
      TakeAndLeave(Taken(turns[..n]), Waiting(pending, wakes, turns, n), Arrived(wakes[n]), turns[n].taken,
                   pending, Arrivals(wakes[..n]));
    }
  }

  /** How many points were sampled. */
  function Sampled<E>(turns: seq<Turn<E>>): nat {
    if turns == [] then 0 else Sampled(turns[..|turns| - 1]) + |turns[|turns| - 1].points|
  }

  lemma NoEntries<E>(s: Schema)
    ensures EntriesOf<E>([], s) == []
  {
  }

  /** Apart from sampled points, the inputs of a run are the entries of the messages taken. */
  lemma {:induction false} InputsAreTaken<E>(turns: seq<Turn<E>>, s: Schema)
    ensures s != Metrics ==> Inputs(turns, s) == EntriesOf(Taken(turns), s)
    ensures s == Metrics ==> |Inputs(turns, s)| == |EntriesOf(Taken(turns), s)| + Sampled(turns)
  {
    hide EntriesOf;
    if turns == [] {
      NoEntries<E>(s);
    } else {
      var n := |turns| - 1;
      InputsAreTaken(turns[..n], s);
      EntriesConcat(Taken(turns[..n]), turns[n].taken, s);
    }
  }

  /** Every point sampled is among the metrics. */
  lemma {:induction false} PointsAreInputs<E>(turns: seq<Turn<E>>, i: nat, k: nat)
    requires i < |turns| && k < |turns[i].points|
    ensures turns[i].points[k] in Inputs(turns, Metrics)
  {
    hide EntriesOf;
    if i < |turns| - 1 {
      PointsAreInputs(turns[..|turns| - 1], i, k);
    }
  }

  lemma LastTurn<E>(c: Setup<E>, s: Stand<E>, turns: seq<Turn<E>>)
    requires turns != []
    ensures AfterAll(c, s, turns) == After(c, AfterAll(c, s, turns[..|turns| - 1]), turns[|turns| - 1])
  {
  }

  /** After a flush tick the log has been drained by a pass and nothing is queued. */
  lemma TicksFlush<E>(c: Setup<E>, limit: nat, s: Stand<E>, pending: seq<Message<E>>,
                      wakes: seq<Wake<E>>, turns: seq<Turn<E>>)
    requires RunOf(c, limit, s, pending, wakes, turns) && turns != [] && wakes[|turns| - 1].FlushTick?
    ensures var n := |turns| - 1;
      && AfterAll(c, s, turns).queues == Queues([], [], [])
      && turns[n].pass.Some? && PassOf(turns[n].pass.value, AfterAll(c, s, turns[..n]).wal)
      && !turns[n].pass.value.CutShort?
  {
    hide AfterAll, PassOf, Legit, InOrder, IdsIn, Settled;
    var n := |turns| - 1;
    assert Answered(c, limit, s, pending, wakes, turns, n);
    LastTurn(c, s, turns);
    LeftIs(c, AfterAll(c, s, turns[..n]), turns[n]);
  }

  // ---- Requests are acknowledged ----

  ghost predicate Acknowledged<E>(trace: seq<Event<E>>, id: nat) {
    exists k :: 0 <= k < |trace| && trace[k].Ack? && trace[k].id == id
  }

  lemma TurnAcknowledges<E>(c: Setup<E>, limit: nat, s: Stand<E>, t: Turn<E>, w: Wake<E>, offered: seq<Message<E>>,
      id: nat)
    requires Serves(c, limit, s, t, w, offered) && (Flush(id) in t.taken || Close(id) in t.taken)
    ensures Acknowledged(After(c, s, t).trace, id)
  {
    hide LogAfter, SendsOf, ReportsOf, Input;
    RequestsCollected(t.taken, id);
    assert id in t.acks;
    var k :| 0 <= k < |t.acks| && t.acks[k] == id;
    var trace := After(c, s, t).trace;
    assert trace[|s.trace + t.work + t.saved| + k] == Ack(id, Input(s.absorbed, t.taken, t.points));
  }

  /** Every flush and close request taken in a run has been acknowledged at its end. */
  lemma {:induction false} RunAcknowledges<E>(c: Setup<E>, limit: nat, s: Stand<E>, pending: seq<Message<E>>,
                                              wakes: seq<Wake<E>>, turns: seq<Turn<E>>, id: nat)
    requires RunOf(c, limit, s, pending, wakes, turns) && (Flush(id) in Taken(turns) || Close(id) in Taken(turns))
    ensures Acknowledged(AfterAll(c, s, turns).trace, id)
  {
    hide TurnOf, Serves, LogAfter, SendsOf, ReportsOf, Input;
    var n := |turns| - 1;
    RunPrefix(c, limit, s, pending, wakes, turns);
    var here := AfterAll(c, s, turns[..n]);
    assert Answered(c, limit, s, pending, wakes, turns, n);
    if Flush(id) in turns[n].taken || Close(id) in turns[n].taken {
      TurnAcknowledges(c, limit, here, turns[n], wakes[n], Offered(pending, wakes, turns, n), id);
    } else {
      RunAcknowledges(c, limit, s, pending, wakes, turns[..n], id);
      var k :| 0 <= k < |here.trace| && here.trace[k].Ack? && here.trace[k].id == id;
      assert AfterAll(c, s, turns).trace[k] == here.trace[k];
    }
  }

  // ---- What a shutdown without a disk buffer drops ----

  /** Entries absorbed of all schemas that have not been handed off. */
  function Unsent<E>(s: Stand<E>): int {
    (|s.absorbed.events| - |Flat(s.trace, Events)|)
    + (|s.absorbed.logs| - |Flat(s.trace, Logs)|)
    + (|s.absorbed.metrics| - |Flat(s.trace, Metrics)|)
  }

  lemma NobodyLeft<E>(s: Stand<E>)
    requires Accounted(s.absorbed, s.trace, s.queues)
    ensures (forall o: Schema :: s.queues.Get(o) == []) <==> forall o: Schema :: s.absorbed.Get(o) == Flat(s.trace, o)
    ensures |s.queues.Get(Events)| + |s.queues.Get(Logs)| + |s.queues.Get(Metrics)| > 0 <==>
      exists o: Schema :: s.absorbed.Get(o) != Flat(s.trace, o)
  {
    forall o: Schema
      ensures s.queues.Get(o) == [] <==> s.absorbed.Get(o) == Flat(s.trace, o)
    {
      assert s.absorbed.Get(o) == Flat(s.trace, o) + s.queues.Get(o);
    }
  }

  lemma NoReports<E>(l: L.Log)
    ensures ReportsOf<E>(l, []) == []
  {
  }

  /**
   The last report of a turn that was cut off without a disk buffer: the number of
   entries absorbed and not handed off, if there is one; else the timeout itself.
   */
  lemma DroppedAreCounted<E>(c: Setup<E>, s: Stand<E>, t: Turn<E>)
    requires Conserved(c, s) && TurnOf(c, s, t) && t.cut && !c.buffered
    ensures var now := After(c, s, t);
      && now.reports == s.reports + PassedReports(t.pass, s.wal) + ReportsOf(Passed(s.wal, t.pass), t.work)
           + [FlushTimedOut] + (if Unsent(now) > 0 then [Dropping(Unsent(now))] else [])
      && Unsent(now) >= 0
      && (Unsent(now) > 0 <==> exists o: Schema :: now.absorbed.Get(o) != Flat(now.trace, o))
  {
    hide AllFramed, TraceIds, Legit, InOrder, IdsIn, Settled, PassOf, Input, AckEvents, LogAfter, SendsOf, ReportsOf,
        PassedReports, Passed, CutOff;
    TurnKeeps(c, s, t);
    var now := After(c, s, t);
    LeftIs(c, s, t);
    assert forall o: Schema :: |now.absorbed.Get(o)| == |Flat(now.trace, o)| + |now.queues.Get(o)|;
    assert now.absorbed.Get(Events) == now.absorbed.events && now.absorbed.Get(Logs) == now.absorbed.logs;
    assert now.absorbed.Get(Metrics) == now.absorbed.metrics;
    var n := t.left.Len();
    assert Unsent(now) == |now.queues.Get(Events)| + |now.queues.Get(Logs)| + |now.queues.Get(Metrics)| == n;
    NobodyLeft(now);
    var a, b := PassedReports(t.pass, s.wal), ReportsOf(Passed(s.wal, t.pass), t.work);
    NoReports<E>(LogAtCut(s.wal, t));
    var d: seq<Report> := if n > 0 then [Dropping(n)] else [];
    assert a + b + ([FlushTimedOut] + d) + [] == a + b + ([FlushTimedOut] + d);
    Assoc(s.reports, a, b);
    Assoc(s.reports, a + b, [FlushTimedOut] + d);
    Assoc(s.reports + a + b, [FlushTimedOut], d);
  }

  /** The same for every turn of a run that was cut off without a disk buffer: its last report is the count. */
  lemma DroppedInRun<E>(c: Setup<E>, limit: nat, s: Stand<E>, pending: seq<Message<E>>,
                        wakes: seq<Wake<E>>, turns: seq<Turn<E>>)
    requires Ready(c, s) && RunOf(c, limit, s, pending, wakes, turns)
    requires turns != [] && turns[|turns| - 1].cut && !c.buffered
    ensures var now := AfterAll(c, s, turns);
      && now.reports != []
      && (if Unsent(now) > 0 then now.reports[|now.reports| - 1] == Dropping(Unsent(now))
          else now.reports[|now.reports| - 1] == FlushTimedOut)
      && (Unsent(now) > 0 <==> exists o: Schema :: now.absorbed.Get(o) != Flat(now.trace, o))
  {
    hide TurnOf, Serves, After, Unsent, Below, AcksSound;
    var n := |turns| - 1;
    RunPrefix(c, limit, s, pending, wakes, turns);
    RunKeeps(c, limit, s, pending, wakes, turns[..n]);
    assert Answered(c, limit, s, pending, wakes, turns, n);
    DroppedAreCounted(c, AfterAll(c, s, turns[..n]), turns[n]);
  }

  /** A cut turn is the last one of its run. */
  lemma CutIsLast<E>(c: Setup<E>, limit: nat, s: Stand<E>, pending: seq<Message<E>>,
                     wakes: seq<Wake<E>>, turns: seq<Turn<E>>, i: nat)
    requires RunOf(c, limit, s, pending, wakes, turns) && i < |turns| && turns[i].cut
    ensures i == |turns| - 1
  {
    hide TurnOf, AfterAll;
    assert Answered(c, limit, s, pending, wakes, turns, i);
    if turns[i].taken == [] {
      NoClose(turns[i].taken);
    }
  }

  // ---- Putting a turn together ----

  lemma NoInput<E>(q: Queues<E>)
    ensures Input(q, [], []) == q
  {
    assert q.metrics + [] == q.metrics;
  }

  /** Input that comes before a turn is the turn's own input. */
  lemma InputFirst<E>(c: Setup<E>, s: Stand<E>, t: Turn<E>, taken: seq<Message<E>>, points: seq<E>)
    requires t.taken == [] && t.points == []
    ensures var m := s.(queues := Input(s.queues, taken, points), absorbed := Input(s.absorbed, taken, points));
      var whole := t.(taken := taken, points := points);
      && After(c, s, whole) == After(c, m, t)
      && (TurnOf(c, m, t) ==> TurnOf(c, s, whole))
      && (Filled(c, m, t) ==> Filled(c, s, whole))
      && (Emptied(t) ==> Emptied(whole)) && (Closed(t) ==> Closed(whole))
  {
    hide Legit, InOrder, IdsIn, Settled, PassOf, LogAfter, SendsOf, ReportsOf, CutOff, AckEvents;
    var m := s.(queues := Input(s.queues, taken, points), absorbed := Input(s.absorbed, taken, points));
    NoInput(m.queues);
    NoInput(m.absorbed);
  }

  /** A turn without input that was not cut off. */
  lemma MakeWhole<E>(c: Setup<E>, s: Stand<E>, pass: Option<Pass>, evs: seq<Event<E>>, left: Queues<E>,
                     nextId: nat, acks: seq<nat>)
    returns (t: Turn<E>)
    requires Legit(c, evs, false) && Settled(s.queues, evs, left) && InOrder(evs, 2) && IdsIn(evs, s.nextId, nextId)
    requires pass.Some? ==> PassOf(pass.value, s.wal) && !pass.value.CutShort? && (!c.buffered ==> pass.value == Idle)
    ensures t == Turn([], [], pass, evs, false, [], left, nextId, [], acks, left, nextId) && TurnOf(c, s, t)
    ensures After(c, s, t) == Stand(
      left, s.absorbed, s.trace + evs + AckEvents(acks, s.absorbed), nextId, LogAfter(Passed(s.wal, pass), evs),
      s.sends + PassedSends(pass) + SendsOf(evs),
      s.reports + PassedReports(pass, s.wal) + ReportsOf(Passed(s.wal, pass), evs))
  {
    hide Legit, InOrder, IdsIn, PassOf, CutTurn, AckEvents, Passed, PassedSends, PassedReports;
    NothingInOrder<E>();
    NoIds<E>(nextId);
    t := Turn([], [], pass, evs, false, [], left, nextId, [], acks, left, nextId);
    NoInput(s.queues);
    NoInput(s.absorbed);
    NothingLegit(c);
    var l := LogAfter(Passed(s.wal, pass), evs);
    NothingAtAll(s.trace + evs, left, l, s.sends, s.reports);
    var sends, reports := PassedSends(pass) + SendsOf(evs),
        PassedReports(pass, s.wal) + ReportsOf(Passed(s.wal, pass), evs);
    assert sends + [] == sends && (reports + []) + [] == reports;
    Assoc(s.sends, PassedSends(pass), SendsOf(evs));
    Assoc(s.reports, PassedReports(pass, s.wal), ReportsOf(Passed(s.wal, pass), evs));
  }

  /** A turn without input that the deadline cut off. */
  lemma MakeCut<E>(c: Setup<E>, s: Stand<E>, pass: Pass, evs: seq<Event<E>>, inFlight: seq<Attempt>,
                   atCut: Queues<E>, cutId: nat, saved: seq<Event<E>>, acks: seq<nat>, left: Queues<E>, nextId: nat)
    returns (t: Turn<E>)
    requires Legit(c, evs, false) && Legit(c, saved, true) && InOrder(evs, 2) && InOrder(saved, 2)
    requires Settled(s.queues, evs, atCut) && Settled(atCut, saved, left)
    requires PassOf(pass, s.wal) && (!c.buffered ==> pass == Idle)
    requires if pass.CutShort? then evs == [] && inFlight == []
             else exists o: Schema :: CutOff(c, inFlight, o, atCut.Get(o), cutId)
    requires IdsIn(evs, s.nextId, cutId) && IdsIn(saved, if pass.CutShort? then cutId else cutId + 1, nextId)
    requires if c.buffered then left == Queues([], [], []) else saved == [] && left == atCut
    ensures t == Turn([], [], Some(pass), evs, true, inFlight, atCut, cutId, saved, acks, left, nextId)
        && TurnOf(c, s, t)
    ensures var l := Passed(s.wal, Some(pass));
      After(c, s, t) == Stand(
        left, s.absorbed, s.trace + evs + saved + AckEvents(acks, s.absorbed), nextId,
        LogAfter(LogAfter(l, evs), saved),
        s.sends + PassSends(pass) + SendsOf(evs) + inFlight,
        s.reports + PassReports(pass, s.wal) + ReportsOf(l, evs) + TimeoutReports(c, t)
        + ReportsOf(LogAfter(l, evs), saved))
  {
    hide Legit, InOrder, IdsIn, PassOf, CutOff, AckEvents, Passed, PassSends, PassReports, LogAfter, SendsOf, ReportsOf,
        Settled, TimeoutReports;
    t := Turn([], [], Some(pass), evs, true, inFlight, atCut, cutId, saved, acks, left, nextId);
    NoInput(s.queues);
    NoInput(s.absorbed);
    Assoc(s.sends, PassSends(pass), SendsOf(evs));
    Assoc(s.sends, PassSends(pass) + SendsOf(evs), inFlight);
    var l := Passed(s.wal, Some(pass));
    var a, b, d, e := PassReports(pass, s.wal), ReportsOf(l, evs), TimeoutReports(c, t),
        ReportsOf(LogAfter(l, evs), saved);
    Assoc(s.reports, a, b);
    Assoc(s.reports, a + b, d);
    Assoc(s.reports, a + b + d, e);
  }

  lemma RestTurn<E>(c: Setup<E>, s: Stand<E>) returns (t: Turn<E>)
    ensures Rest(s, t) && TurnOf(c, s, t) && After(c, s, t) == s
  {
    NothingLegit(c);
    NothingAtAll(s.trace, s.queues, s.wal, s.sends, s.reports);
    NothingInOrder<E>();
    NoIds<E>(s.nextId);
    t := MakeWhole(c, s, None, [], s.queues, s.nextId, []);
    assert AckEvents([], s.absorbed) == [];
    assert s.trace + [] + [] == s.trace && s.sends + [] + [] == s.sends && s.reports + [] + [] == s.reports;
  }
}
