/**
 The background worker: it absorbs messages into one queue per schema, sends
 chunks with fallback to the disk buffer, drains the buffer, acknowledges
 flushes and closes, and on shutdown can be cut off at any await.
 */
module Workers {
  import opened Wrappers
  import opened Bytes
  import opened Frames
  import opened Network
  import opened DiskBuffers
  import opened History
  import L = Log

  /** The bounded queue between callers and worker; producers append at its end. */
  class Channel<E> {
    var pending: seq<Message<E>>

    constructor ()
      ensures pending == []
    {
      pending := [];
    }

    method TryRecv() returns (m: Option<Message<E>>)
      modifies this
      ensures m.None? ==> pending == old(pending) == []
      ensures m.Some? ==> [m.value] + pending == old(pending)
    {
      if pending == [] {
        return None;
      }
      m := Some(pending[0]);
      pending := pending[1..];
    }
  }

  lemma SavedChunk<E>(c: Setup<E>, e: Event<E>, s: Schema)
    requires ChunkOf(c, e, s, true)
    ensures e.HandOff? && e.fate == Logged && e.tries == []
  {
  }

  lemma ChunkFated<E>(c: Setup<E>, e: Event<E>, s: Schema, saved: bool)
    requires ChunkOf(c, e, s, saved)
    ensures e.HandOff? && Fated(c, e)
  {
  }

  /** The reports of a shutdown that was cut off. */
  lemma TimeoutReported<E>(c: Setup<E>, t: Turn<E>, before: seq<Report>, l: L.Log, saved: seq<Event<E>>)
    requires t.cut
    ensures c.buffered ==>
      before + TimeoutReports(c, t) + ReportsOf(l, saved) == (before + [FlushTimedOut]) + ReportsOf(l, saved)
    ensures !c.buffered && saved == [] ==>
      before + TimeoutReports(c, t) + ReportsOf(l, saved)
      == (before + [FlushTimedOut]) + if t.left.Len() > 0 then [Dropping(t.left.Len())] else []
  {
  }

  /** Everything offered is taken, up to the limit. */
  lemma TakenAll<T>(taken: seq<T>, left: seq<T>, offered: seq<T>, max: nat)
    requires taken + left == offered && |taken| <= max && (|taken| == max || left == [])
    ensures taken == offered[..Min(max, |offered|)] && left == offered[|taken|..]
  {
    assert |offered| == |taken| + |left|;
    assert offered[..|taken|] == taken;
  }

  lemma JustMessages<E>(q: Queues<E>, taken: seq<Message<E>>)
    ensures Input(q, taken, []) == Absorbed(q, taken)
  {
    var a := Absorbed(q, taken);
    assert a.metrics + [] == a.metrics;
  }

  lemma JustPoints<E>(q: Queues<E>, points: seq<E>)
    ensures Input(q, [], points) == q.(metrics := q.metrics + points)
  {
  }

  class Worker<!E> {
    const net: Net
    const buffer: DiskBuffer?
    const encode: (Schema, seq<E>, nat) -> seq<byte>
    const batchSize: nat
    const maxRetries: nat
    const drainLimit: nat
    var queues: Queues<E>
    var batchBuf: seq<byte>
    var nextBatchId: nat
    var reports: seq<Report>
    ghost var trace: seq<Event<E>>
    ghost var absorbed: Queues<E>

    ghost predicate Valid()
      reads this, buffer, if buffer == null then {} else buffer.Repr(), if buffer == null then {} else {buffer.dir}
    {
      && batchSize >= 1
      && (buffer != null ==> buffer.Valid() && this !in buffer.Repr() && net !in buffer.Repr())
    }

    /** The objects the worker owns: the transport and the disk buffer's. */
    ghost function Parts(): set<object>
      reads this, buffer, if buffer == null then {} else {buffer.dir}
    {
      {net} + if buffer == null then {} else buffer.Repr()
    }

    /** The disk buffer's state, or an empty log when none is configured. */
    ghost function Wal(): L.Log
      reads this, buffer, if buffer == null then {} else {buffer.dir, buffer.dir.wal}
    {
      if buffer == null then L.Log([], 0, 0, 0) else buffer.State()
    }

    ghost function Config(): Setup<E> {
      Setup(batchSize, encode, buffer != null, if buffer != null then 1 else maxRetries + 1)
    }

    /** Where everything stands: queues, history, log, network and reports. */
    ghost function Now(): Stand<E>
      reads this, net, buffer, if buffer == null then {} else {buffer.dir, buffer.dir.wal}
    {
      Stand(queues, absorbed, trace, nextBatchId, Wal(), net.attempts, reports)
    }

    constructor (net: Net, buffer: DiskBuffer?, encode: (Schema, seq<E>, nat) -> seq<byte>,
                 batchSize: nat, maxRetries: nat, drainLimit: nat)
      requires buffer != null ==> buffer.Valid() && net !in buffer.Repr()
      ensures Valid() && Ready(Config(), Now()) && queues == absorbed == Queues([], [], []) && trace == []
      ensures this.net == net && this.buffer == buffer && this.encode == encode
      ensures this.batchSize == (if batchSize >= 1 then batchSize else 1) && this.maxRetries == maxRetries
      ensures this.drainLimit == drainLimit && reports == []
    {
      this.net := net;
      this.buffer := buffer;
      this.encode := encode;
      this.batchSize := if batchSize >= 1 then batchSize else 1;
      this.maxRetries := maxRetries;
      this.drainLimit := drainLimit;
      queues := Queues([], [], []);
      batchBuf := [];
      nextBatchId := 1;
      reports := [];
      trace := [];
      absorbed := Queues([], [], []);
    }

    method AppendToWal()
      requires Valid() && buffer != null
      modifies Parts(), this`reports
      ensures Valid() && fresh(Parts() - old(Parts()))
      ensures Wal() == L.Append(old(Wal()), batchBuf)
      ensures net.attempts == old(net.attempts)
      ensures reports == old(reports) + EvictionReport(old(Wal()), batchBuf)
    {
      hide L.Append, L.Freed;
      var evicted := buffer.Append(batchBuf);
      if evicted > 0 {
        reports := reports + [Evicted(evicted)];
      } else {
        assert reports + [] == reports;
      }
    }

    /** Encode a chunk into the batch buffer under the next batch id. */
    method Encode(s: Schema, chunk: seq<E>)
      modifies this`batchBuf, this`nextBatchId
      ensures batchBuf == encode(s, chunk, old(nextBatchId)) && nextBatchId == old(nextBatchId) + 1
    {
      batchBuf := encode(s, chunk, nextBatchId);
      nextBatchId := nextBatchId + 1;
    }

    /**
     Send `batchBuf`. Without a disk buffer: retries with backoff, then a report.
     With one: a single attempt, then the log. `None` when the deadline cut it off.
     */
    method SendWithFallback(armed: bool) returns (fate: Option<Fate>, ghost tries: seq<Attempt>)
      requires Valid()
      modifies Parts(), this`reports
      ensures Valid() && fresh(Parts() - old(Parts()))
      ensures net.attempts == old(net.attempts) + tries
      ensures Tries(tries, batchBuf, Config().sends, fate)
      ensures fate == None ==> armed
      ensures fate == Some(Logged) ==> buffer != null
      ensures fate == Some(Reported) ==> buffer == null
      ensures buffer != null ==> |tries| == 1
      ensures |tries| <= maxRetries + 1
      ensures fate == Some(Logged) || fate == Some(Reported) ==>
        forall i :: 0 <= i < |tries| ==> tries[i].result == Failed
      ensures fate == Some(Reported) ==> |tries| == maxRetries + 1
      ensures Wal() == if fate == Some(Logged) then L.Append(old(Wal()), batchBuf) else old(Wal())
      ensures reports == old(reports)
                       + if fate == Some(Logged) then EvictionReport(old(Wal()), batchBuf)
                         else if fate == Some(Reported) then [SendFailed] else []
    {
      hide L.Append, EvictionReport;
      var attempts := if buffer != null then 1 else maxRetries + 1;
      var attempt := 0;
      tries := [];
      assert reports + [] == reports;
      while attempt < attempts
        invariant attempt <= attempts && |tries| == attempt
        invariant Valid() && Parts() == old(Parts()) && reports == old(reports) && Wal() == old(Wal())
        invariant net.attempts == old(net.attempts) + tries
        invariant forall i :: 0 <= i < |tries| ==> tries[i] == Attempt(batchBuf, Failed)
      {
        var r := net.Send(batchBuf, armed);
        tries := tries + [Attempt(batchBuf, r)];
        match r {
          case Ok => return Some(Sent), tries;
          case Cancelled => return None, tries;
          case Failed =>
            if attempt + 1 < attempts {
              var cut := net.Sleep(armed);
              if cut {
                return None, tries;
              }
            }
        }
        attempt := attempt + 1;
      }
      if buffer != null {
        AppendToWal();
        fate := Some(Logged);
      } else {
        reports := reports + [SendFailed];
        fate := Some(Reported);
      }
    }

    /** Encode and send the front chunk; it leaves the queue only after its sends. */
    method FlushChunk(s: Schema, armed: bool) returns (cut: bool, ghost e: Event<E>, ghost tries: seq<Attempt>)
      requires Valid() && queues.Get(s) != []
      modifies this, Parts()
      ensures Valid() && fresh(Parts() - old(Parts())) && absorbed == old(absorbed)
      ensures net.attempts == old(net.attempts) + tries && nextBatchId == old(nextBatchId) + 1
      ensures cut ==>
        && armed && trace == old(trace) && queues == old(queues) && Wal() == old(Wal()) && reports == old(reports)
        && CutOff(Config(), tries, s, old(queues.Get(s)), old(nextBatchId))
      ensures !cut ==>
        && ChunkOf(Config(), e, s, false) && e.tries == tries && e.id == old(nextBatchId)
        && Retried(e, buffer != null, maxRetries)
        && e.entries == Front(old(queues.Get(s)), batchSize)
        && trace == old(trace) + [e]
        && queues == old(queues).Set(s, old(queues.Get(s))[|e.entries|..])
        && Wal() == (if e.fate == Logged then L.Append(old(Wal()), e.frame) else old(Wal()))
        && reports == old(reports) + ReportOf(old(Wal()), e)
    {
      hide L.Append, Tries, Front, ChunkOf, Fated, Retried, EvictionReport;
      ghost var id := nextBatchId;
      var q := queues.Get(s);
      var n := if |q| <= batchSize then |q| else batchSize;
      FrontIs(q, batchSize);
      Encode(s, q[..n]);
      var fate;
      fate, tries := SendWithFallback(armed);
      cut := fate.None?;
      e := HandOff(s, q[..n], id, batchBuf, if cut then Sent else fate.value, tries);
      if cut {
        assert old(reports) + [] == old(reports);
      } else {
        MakeChunk(Config(), e, false);
        ChunkFated(Config(), e, s, false);
        FatedRetried(Config(), e, maxRetries);
        trace := trace + [e];
        queues := queues.Set(s, q[n..]);
      }
    }

    /** Send a queue in chunks of at most `batchSize`. */
    method FlushQueue(s: Schema, armed: bool)
      returns (cut: bool, ghost evs: seq<Event<E>>, ghost inFlight: seq<Attempt>)
      requires Valid()
      modifies this, Parts()
      ensures Valid() && fresh(Parts() - old(Parts())) && absorbed == old(absorbed)
      ensures trace == old(trace) + evs && Legit(Config(), evs, false)
      ensures Settled(old(queues), evs, queues) && queues == old(queues).Set(s, queues.Get(s)) && OfSchema(evs, s)
      ensures Wal() == LogAfter(old(Wal()), evs)
      ensures net.attempts == old(net.attempts) + SendsOf(evs) + inFlight
      ensures reports == old(reports) + ReportsOf(old(Wal()), evs)
      ensures old(nextBatchId) + (if cut then 1 else 0) <= nextBatchId
      ensures IdsIn(evs, old(nextBatchId), if cut then nextBatchId - 1 else nextBatchId)
      ensures if cut then armed && CutOff(Config(), inFlight, s, queues.Get(s), nextBatchId - 1)
              else queues.Get(s) == [] && inFlight == []
    {
      hide L.Append, ChunkOf, CutOff, Flat, LogAfter, SendsOf, ReportsOf, ReportOf, Front, Retried, IdsIn;
      NoIds<E>(nextBatchId);
      IdsOrdered<E>([], nextBatchId, nextBatchId);
      evs, inFlight := [], [];
      NothingYet(trace, queues.Get(s), s, Wal(), net.attempts, reports);
      while queues.Get(s) != []
        invariant Valid() && fresh(Parts() - old(Parts())) && absorbed == old(absorbed)
        invariant trace == old(trace) + evs && ChunksOf(Config(), evs, s, false)
        invariant Flat(evs, s) + queues.Get(s) == old(queues.Get(s))
        invariant queues == old(queues).Set(s, queues.Get(s))
        invariant Wal() == LogAfter(old(Wal()), evs)
        invariant net.attempts == old(net.attempts) + SendsOf(evs)
        invariant reports == old(reports) + ReportsOf(old(Wal()), evs)
        invariant IdsIn(evs, old(nextBatchId), nextBatchId)
        decreases |queues.Get(s)|
      {
        ghost var q := queues.Get(s);
        ghost var e, tries;
        cut, e, tries := FlushChunk(s, armed);
        if cut {
          inFlight := tries;
          IdsOrdered(evs, old(nextBatchId), nextBatchId - 1);
          OneSchema(Config(), old(queues), evs, s, queues.Get(s), false);
          return;
        }
        ChunkShape(Config(), e, s, q, false);
        HandOffStep(evs, e, q, |e.entries|, old(Wal()));
        OneId(e);
        IdsConcat(evs, [e], old(nextBatchId), e.id, nextBatchId);
        Assoc(old(trace), evs, [e]);
        Assoc(old(net.attempts), SendsOf(evs), tries);
        Assoc(old(reports), ReportsOf(old(Wal()), evs), ReportOf(LogAfter(old(Wal()), evs), e));
        evs := evs + [e];
      }
      OneSchema(Config(), old(queues), evs, s, queues.Get(s), false);
      IdsOrdered(evs, old(nextBatchId), nextBatchId);
      cut := false;
      assert net.attempts + [] == net.attempts;
    }

    /** A frame whose send failed goes to the end of the log; what that evicts is not reported. */
    method Rebuffer(frame: seq<byte>)
      requires Valid() && buffer != null
      modifies Parts(), this`reports
      ensures Valid() && fresh(Parts() - old(Parts()))
      ensures Wal() == L.Append(old(Wal()), frame) && net.attempts == old(net.attempts)
      ensures reports == old(reports) + [SendFailed]
    {
      hide L.Append;
      var evicted := buffer.Append(frame);
      reports := reports + [SendFailed];
    }

    /** Take the next log frame and send it; after a failed send it goes back to the end. */
    method DrainStep(armed: bool) returns (d: L.Drained, r: SendResult)
      requires Valid() && buffer != null
      modifies Parts(), this`reports
      ensures Valid() && fresh(Parts() - old(Parts()))
      ensures d == L.DrainResult(old(Wal())) && (r.Cancelled? ==> d.Got? && armed)
      ensures Wal() == if d.Got? && r.Failed? then L.Append(L.DrainNext(old(Wal())), d.frame)
                       else L.DrainNext(old(Wal()))
      ensures net.attempts == old(net.attempts) + if d.Got? then [Attempt(d.frame, r)] else []
      ensures reports == old(reports)
                       + if d.Corrupt? then [ReadError] else if d.Got? && r.Failed? then [SendFailed] else []
    {
      hide L.DrainNext, L.DrainResult, L.Append;
      assert reports + [] == reports;
      d := buffer.DrainNext();
      r := Ok;
      match d {
        case Empty =>
        case Corrupt => reports := reports + [ReadError];
        case Got(frame) =>
          r := net.Send(frame, armed);
          if r.Failed? {
            Rebuffer(frame);
          }
      }
    }

    /** The sending loop of a pass; the commit is still to come unless it was cut short. */
    method DrainLoop(armed: bool) returns (cut: bool, ghost pass: Pass)
      requires Valid() && buffer != null
      modifies Parts(), this`reports
      ensures Valid() && fresh(Parts() - old(Parts()))
      ensures PassOf(pass, old(Wal())) && cut == pass.CutShort? && (cut ==> armed)
      ensures L.Run(old(Wal()), PassOps(pass)) == if cut then Wal() else L.Commit(Wal())
      ensures net.attempts == old(net.attempts) + PassSends(pass)
      ensures reports == old(reports) + PassReports(pass, old(Wal()))
    {
      hide L.DrainNext, L.DrainResult, L.Append, L.Commit, L.Run, L.Outputs, L.Drains, PassOf, PassOps, PassSends,
          Accepted;
      ghost var l, sends, sent := Wal(), net.attempts, [];
      PassStart(l, sends);
      assert reports + [] == reports;
      while true
        invariant Valid() && fresh(Parts() - old(Parts())) && reports == old(reports)
        invariant Wal() == L.Run(l, L.Drains(|sent|)) && sent == L.Outputs(l, L.Drains(|sent|))
        invariant net.attempts == sends + Accepted(sent)
        decreases |Wal().Unread()|
      {
        ghost var here := Wal();
        var d, r := DrainStep(armed);
        PassStep(l, sent, here);
        SendStep(sends, sent, d, r);
        if !d.Got? {
          return false, Finished(sent);
        }
        if r.Cancelled? {
          return true, CutShort(sent, d.frame);
        }
        if r.Failed? {
          return false, PutBack(sent, d.frame);
        }
        sent := sent + [d.frame];
      }
    }

    /** Send pending log frames, oldest first, stopping at the first failure. */
    method DrainDiskBuffer(armed: bool) returns (cut: bool, ghost pass: Pass)
      requires Valid()
      modifies Parts(), this`reports
      ensures Valid() && fresh(Parts() - old(Parts()))
      ensures buffer == null ==> pass == Idle
      ensures PassOf(pass, old(Wal())) && Wal() == L.Run(old(Wal()), PassOps(pass))
      ensures net.attempts == old(net.attempts) + PassSends(pass)
      ensures reports == old(reports) + PassReports(pass, old(Wal()))
      ensures cut == pass.CutShort? && (cut ==> armed)
    {
      hide L.Commit, L.Run, PassOf, PassOps, PassSends, PassReports;
      PassIdle(Wal(), net.attempts, reports);
      pass, cut := Idle, false;
      if buffer == null {
        return;
      }
      var empty := buffer.IsEmpty();
      if empty {
        return;
      }
      cut, pass := DrainLoop(armed);
      if !cut {
        buffer.Commit();
      }
    }

    /** What a flush leaves of a queue. */
    function Unflushed(q: seq<E>, onlyFull: bool): seq<E> {
      if onlyFull && |q| < batchSize then q else []
    }

    /** Flush a queue, if it is to be. */
    method FlushIf(s: Schema, onlyFull: bool, armed: bool)
      returns (cut: bool, ghost evs: seq<Event<E>>, ghost inFlight: seq<Attempt>)
      requires Valid()
      modifies this, Parts()
      ensures Valid() && fresh(Parts() - old(Parts())) && absorbed == old(absorbed)
      ensures trace == old(trace) + evs && Legit(Config(), evs, false)
      ensures Settled(old(queues), evs, queues) && queues == old(queues).Set(s, queues.Get(s)) && OfSchema(evs, s)
      ensures Wal() == LogAfter(old(Wal()), evs)
      ensures net.attempts == old(net.attempts) + SendsOf(evs) + inFlight
      ensures reports == old(reports) + ReportsOf(old(Wal()), evs)
      ensures old(nextBatchId) + (if cut then 1 else 0) <= nextBatchId
      ensures IdsIn(evs, old(nextBatchId), if cut then nextBatchId - 1 else nextBatchId)
      ensures if cut then armed && CutOff(Config(), inFlight, s, queues.Get(s), nextBatchId - 1)
              else queues.Get(s) == Unflushed(old(queues.Get(s)), onlyFull) && inFlight == []
    {
      hide CutOff, LogAfter, SendsOf, ReportsOf, Settled, Legit, IdsIn;
      NoIds<E>(nextBatchId);
      if !onlyFull || |queues.Get(s)| >= batchSize {
        cut, evs, inFlight := FlushQueue(s, armed);
      } else {
        cut, evs, inFlight := false, [], [];
        NothingAtAll(trace, queues, Wal(), net.attempts, reports);
        NothingLegit(Config());
        NothingInOrder<E>();
        assert net.attempts + [] == net.attempts;
      }
    }

    /** Flush every queue, or those that reached `batchSize`, in the fixed order of the schemas. */
    method FlushQueues(onlyFull: bool, armed: bool)
      returns (cut: bool, ghost evs: seq<Event<E>>, ghost inFlight: seq<Attempt>)
      requires Valid()
      modifies this, Parts()
      ensures Valid() && fresh(Parts() - old(Parts())) && absorbed == old(absorbed)
      ensures trace == old(trace) + evs && Legit(Config(), evs, false) && InOrder(evs, 2)
      ensures Settled(old(queues), evs, queues)
      ensures Wal() == LogAfter(old(Wal()), evs)
      ensures net.attempts == old(net.attempts) + SendsOf(evs) + inFlight
      ensures reports == old(reports) + ReportsOf(old(Wal()), evs)
      ensures old(nextBatchId) + (if cut then 1 else 0) <= nextBatchId
      ensures IdsIn(evs, old(nextBatchId), if cut then nextBatchId - 1 else nextBatchId)
      ensures cut ==> armed && exists s: Schema :: CutOff(Config(), inFlight, s, queues.Get(s), nextBatchId - 1)
      ensures !cut ==> inFlight == [] && forall s: Schema :: queues.Get(s) == Unflushed(old(queues).Get(s), onlyFull)
    {
      hide CutOff, LogAfter, SendsOf, ReportsOf, Settled, Legit, Unflushed, InOrder, OfSchema, IdsIn;
      NothingInOrder<E>();
      ghost var q0, tr, l, at, rs := queues, trace, Wal(), net.attempts, reports;
      cut, evs, inFlight := FlushIf(Events, onlyFull, armed);
      assert [] + evs == evs;
      InOrderMore([], evs, 0, Events);
      if cut {
        return;
      }
      assert (at + SendsOf(evs)) + [] == at + SendsOf(evs);
      ghost var q1, more, id1 := queues, [], nextBatchId;
      cut, more, inFlight := FlushIf(Logs, onlyFull, armed);
      InOrderMore(evs, more, 0, Logs);
      IdsConcat(evs, more, old(nextBatchId), id1, if cut then nextBatchId - 1 else nextBatchId);
      Joined(tr, at, rs, l, q0, evs, q1, more, queues);
      LegitConcat(Config(), evs, more, false);
      evs := evs + more;
      if cut {
        return;
      }
      assert (at + SendsOf(evs)) + [] == at + SendsOf(evs);
      ghost var q2, id2 := queues, nextBatchId;
      cut, more, inFlight := FlushIf(Metrics, onlyFull, armed);
      InOrderMore(evs, more, 1, Metrics);
      IdsConcat(evs, more, old(nextBatchId), id2, if cut then nextBatchId - 1 else nextBatchId);
      Joined(tr, at, rs, l, q0, evs, q2, more, queues);
      LegitConcat(Config(), evs, more, false);
      evs := evs + more;
    }

    /** Drain the disk buffer, then flush every queue. */
    method FlushAll(armed: bool)
      returns (cut: bool, ghost pass: Pass, ghost evs: seq<Event<E>>, ghost inFlight: seq<Attempt>)
      requires Valid()
      modifies this, Parts()
      ensures Valid() && fresh(Parts() - old(Parts())) && absorbed == old(absorbed)
      ensures trace == old(trace) + evs && Legit(Config(), evs, false) && InOrder(evs, 2)
      ensures Settled(old(queues), evs, queues)
      ensures PassOf(pass, old(Wal())) && (buffer == null ==> pass == Idle)
      ensures Wal() == LogAfter(L.Run(old(Wal()), PassOps(pass)), evs)
      ensures net.attempts == old(net.attempts) + PassSends(pass) + SendsOf(evs) + inFlight
      ensures reports == old(reports) + PassReports(pass, old(Wal())) + ReportsOf(L.Run(old(Wal()), PassOps(pass)), evs)
      ensures cut ==> armed
      ensures pass.CutShort? ==> cut && evs == [] && inFlight == []
      ensures old(nextBatchId) + (if cut && !pass.CutShort? then 1 else 0) <= nextBatchId
      ensures cut && !pass.CutShort? ==> exists s: Schema :: CutOff(Config(), inFlight, s, queues.Get(s),
          nextBatchId - 1)
      ensures IdsIn(evs, old(nextBatchId), if cut && !pass.CutShort? then nextBatchId - 1 else nextBatchId)
      ensures !cut ==> inFlight == [] && queues == Queues([], [], [])
    {
      hide L.Run, PassOf, PassOps, PassSends, PassReports, LogAfter, SendsOf, ReportsOf, CutOff, Settled, Legit;
      cut, pass := DrainDiskBuffer(armed);
      NothingAtAll(trace, queues, Wal(), net.attempts, reports);
      if cut {
        evs, inFlight := [], [];
        NothingLegit(Config());
        NoIds<E>(nextBatchId);
        NothingInOrder<E>();
        assert net.attempts + [] == net.attempts;
        return;
      }
      cut, evs, inFlight := FlushQueues(false, armed);
      if !cut {
        assert queues.Get(Events) == [] && queues.Get(Logs) == [] && queues.Get(Metrics) == [];
      }
    }

    /** Encode the front chunk straight into the log. */
    method SaveChunk(s: Schema) returns (ghost e: Event<E>)
      requires Valid() && buffer != null && queues.Get(s) != []
      modifies this, Parts()
      ensures Valid() && fresh(Parts() - old(Parts())) && absorbed == old(absorbed)
      ensures ChunkOf(Config(), e, s, true) && e.id == old(nextBatchId) && nextBatchId == old(nextBatchId) + 1
      ensures e.entries == Front(old(queues.Get(s)), batchSize)
      ensures trace == old(trace) + [e] && queues == old(queues).Set(s, old(queues.Get(s))[|e.entries|..])
      ensures Wal() == L.Append(old(Wal()), e.frame) && net.attempts == old(net.attempts)
      ensures reports == old(reports) + ReportOf(old(Wal()), e)
    {
      hide L.Append, Front, ChunkOf, EvictionReport;
      ghost var id := nextBatchId;
      var q := queues.Get(s);
      var n := if |q| <= batchSize then |q| else batchSize;
      FrontIs(q, batchSize);
      Encode(s, q[..n]);
      AppendToWal();
      e := HandOff(s, q[..n], id, batchBuf, Logged, []);
      MakeChunk(Config(), e, true);
      trace := trace + [e];
      queues := queues.Set(s, q[n..]);
    }

    /** Save a queue in chunks: no network, nothing to cut off. */
    method SaveQueue(s: Schema) returns (ghost evs: seq<Event<E>>)
      requires Valid() && buffer != null
      modifies this, Parts()
      ensures Valid() && fresh(Parts() - old(Parts())) && absorbed == old(absorbed)
      ensures trace == old(trace) + evs && Legit(Config(), evs, true)
      ensures Settled(old(queues), evs, queues) && queues == old(queues).Set(s, []) && OfSchema(evs, s)
      ensures Wal() == LogAfter(old(Wal()), evs) && net.attempts == old(net.attempts)
      ensures reports == old(reports) + ReportsOf(old(Wal()), evs)
      ensures IdsIn(evs, old(nextBatchId), nextBatchId)
    {
      hide L.Append, ChunkOf, Flat, LogAfter, SendsOf, ReportsOf, ReportOf, Front, IdsIn;
      NoIds<E>(nextBatchId);
      evs := [];
      NothingYet(trace, queues.Get(s), s, Wal(), net.attempts, reports);
      while queues.Get(s) != []
        invariant Valid() && fresh(Parts() - old(Parts())) && absorbed == old(absorbed)
        invariant trace == old(trace) + evs && ChunksOf(Config(), evs, s, true)
        invariant Flat(evs, s) + queues.Get(s) == old(queues.Get(s))
        invariant queues == old(queues).Set(s, queues.Get(s))
        invariant Wal() == LogAfter(old(Wal()), evs) && net.attempts == old(net.attempts)
        invariant reports == old(reports) + ReportsOf(old(Wal()), evs)
        invariant IdsIn(evs, old(nextBatchId), nextBatchId)
        decreases |queues.Get(s)|
      {
        ghost var q := queues.Get(s);
        ghost var e := SaveChunk(s);
        ChunkShape(Config(), e, s, q, true);
        SavedChunk(Config(), e, s);
        HandOffStep(evs, e, q, |e.entries|, old(Wal()));
        OneId(e);
        IdsConcat(evs, [e], old(nextBatchId), e.id, nextBatchId);
        Assoc(old(trace), evs, [e]);
        Assoc(old(reports), ReportsOf(old(Wal()), evs), ReportOf(LogAfter(old(Wal()), evs), e));
        evs := evs + [e];
      }
      OneSchema(Config(), old(queues), evs, s, queues.Get(s), true);
    }

    /** Save every queue to the log, in the fixed order of the schemas. */
    method SaveQueues() returns (ghost evs: seq<Event<E>>)
      requires Valid() && buffer != null
      modifies this, Parts()
      ensures Valid() && fresh(Parts() - old(Parts())) && absorbed == old(absorbed)
      ensures trace == old(trace) + evs && Legit(Config(), evs, true) && InOrder(evs, 2)
      ensures Settled(old(queues), evs, queues) && queues == Queues([], [], [])
      ensures Wal() == LogAfter(old(Wal()), evs) && net.attempts == old(net.attempts)
      ensures reports == old(reports) + ReportsOf(old(Wal()), evs)
      ensures IdsIn(evs, old(nextBatchId), nextBatchId)
    {
      hide L.Append, ChunkOf, LogAfter, SendsOf, ReportsOf, Settled, Legit, InOrder, OfSchema, IdsIn;
      ghost var q0, tr, l, at, rs := queues, trace, Wal(), net.attempts, reports;
      ghost var a := SaveQueue(Events);
      ghost var q1, id1 := queues, nextBatchId;
      ghost var b := SaveQueue(Logs);
      Joined(tr, at, rs, l, q0, a, q1, b, queues);
      NothingInOrder<E>();
      assert [] + a == a;
      InOrderMore([], a, 0, Events);
      InOrderMore(a, b, 0, Logs);
      LegitConcat(Config(), a, b, true);
      IdsConcat(a, b, old(nextBatchId), id1, nextBatchId);
      ghost var q2, id2 := queues, nextBatchId;
      ghost var c := SaveQueue(Metrics);
      Joined(tr, at, rs, l, q0, a + b, q2, c, queues);
      LegitConcat(Config(), a + b, c, true);
      InOrderMore(a + b, c, 1, Metrics);
      IdsConcat(a + b, c, old(nextBatchId), id2, nextBatchId);
      evs := a + b + c;
    }

    /** Emergency save; without a disk buffer the pending entries are counted and reported. */
    method SaveQueuesToWal() returns (ghost evs: seq<Event<E>>)
      requires Valid()
      modifies this, Parts()
      ensures Valid() && fresh(Parts() - old(Parts())) && absorbed == old(absorbed)
      ensures trace == old(trace) + evs && Legit(Config(), evs, true) && InOrder(evs, 2)
      ensures Settled(old(queues), evs, queues)
      ensures Wal() == LogAfter(old(Wal()), evs) && net.attempts == old(net.attempts)
      ensures buffer != null ==> queues == Queues([], [], []) && reports == old(reports) + ReportsOf(old(Wal()), evs)
      ensures buffer == null ==> evs == [] && queues == old(queues)
      ensures IdsIn(evs, old(nextBatchId), nextBatchId)
      ensures buffer == null ==>
        var n := |queues.events| + |queues.logs| + |queues.metrics|;
        reports == old(reports) + if n > 0 then [Dropping(n)] else []
    {
      hide LogAfter, ReportsOf, Settled, Legit, IdsIn;
      if buffer == null {
        evs := [];
        NothingAtAll(trace, queues, Wal(), net.attempts, reports);
        NothingLegit(Config());
        NoIds<E>(nextBatchId);
        NothingInOrder<E>();
        var total := queues.Len();
        assert reports + [] == reports;
        if total > 0 {
          reports := reports + [Dropping(total)];
        }
        return;
      }
      evs := SaveQueues();
    }

    /** The deadline expired: report that, then save. */
    method SaveAfterTimeout() returns (ghost evs: seq<Event<E>>)
      requires Valid()
      modifies this, Parts()
      ensures Valid() && fresh(Parts() - old(Parts())) && absorbed == old(absorbed)
      ensures trace == old(trace) + evs && Legit(Config(), evs, true) && InOrder(evs, 2)
      ensures Settled(old(queues), evs, queues) && IdsIn(evs, old(nextBatchId), nextBatchId)
      ensures Wal() == LogAfter(old(Wal()), evs) && net.attempts == old(net.attempts)
      ensures buffer != null ==> queues == Queues([], [], [])
      ensures buffer != null ==> reports == (old(reports) + [FlushTimedOut]) + ReportsOf(old(Wal()), evs)
      ensures buffer == null ==> evs == [] && queues == old(queues)
      ensures buffer == null ==>
        var n := |queues.events| + |queues.logs| + |queues.metrics|;
        reports == (old(reports) + [FlushTimedOut]) + if n > 0 then [Dropping(n)] else []
    {
      hide LogAfter, ReportsOf, Settled, Legit, IdsIn, InOrder;
      reports := reports + [FlushTimedOut];
      evs := SaveQueuesToWal();
    }

    method SendAcks(ids: seq<nat>)
      modifies this`trace
      ensures trace == old(trace) + AckEvents(ids, absorbed)
    {
      var i := 0;
      assert trace + AckEvents(ids[..0], absorbed) == trace;
      while i < |ids|
        invariant i <= |ids| && trace == old(trace) + AckEvents(ids[..i], absorbed)
      {
        assert AckEvents(ids[..i + 1], absorbed) == AckEvents(ids[..i], absorbed) + [Ack(ids[i], absorbed)];
        Assoc(old(trace), AckEvents(ids[..i], absorbed), [Ack(ids[i], absorbed)]);
        trace := trace + [Ack(ids[i], absorbed)];
        i := i + 1;
      }
      assert ids[..i] == ids;
    }

    /** Flush everything without a deadline, then acknowledge. */
    method FlushTurn(acks: seq<nat>) returns (ghost t: Turn<E>)
      requires Valid()
      modifies this, Parts()
      ensures Valid() && fresh(Parts() - old(Parts()))
      ensures TurnOf(Config(), old(Now()), t) && Now() == After(Config(), old(Now()), t)
      ensures t.taken == [] && t.points == [] && Emptied(t) && t.acks == acks
      ensures queues == Queues([], [], []) && t.pass.Some? && PassOf(t.pass.value, old(Wal())) && absorbed
          == old(absorbed)
    {
      hide L.Run, PassOf, PassOps, PassSends, PassReports, LogAfter, SendsOf, ReportsOf, CutOff, Settled, Legit,
        InOrder, IdsIn, AckEvents,
        TurnOf, After;
      ghost var s := Now();
      ghost var cut, pass, evs, inFlight := FlushAll(false);
      SendAcks(acks);
      t := MakeWhole(Config(), s, Some(pass), evs, queues, nextBatchId, acks);
      assert s.sends + PassSends(pass) + SendsOf(evs) + [] == s.sends + PassSends(pass) + SendsOf(evs);
    }

    /**
     Flush everything within the deadline; if it expires, save what is left.
     Then acknowledge.
     */
    method Shutdown(acks: Acks) returns (ghost t: Turn<E>)
      requires Valid()
      modifies this, Parts()
      ensures Valid() && fresh(Parts() - old(Parts()))
      ensures TurnOf(Config(), old(Now()), t) && Now() == After(Config(), old(Now()), t)
      ensures t.taken == [] && t.points == [] && Closed(t) && t.acks == acks.flush + acks.close
      ensures t.pass.Some? && (buffer != null || !t.cut ==> queues == Queues([], [], [])) && absorbed == old(absorbed)
      ensures t.cut && buffer == null ==>
        var n := |queues.events| + |queues.logs| + |queues.metrics|;
        reports != [] && reports[|reports| - 1] == if n > 0 then Dropping(n) else FlushTimedOut
    {
      hide L.Run, PassOf, PassOps, PassSends, PassReports, LogAfter, SendsOf, ReportsOf, CutOff, Settled, Legit,
        InOrder, IdsIn, AckEvents,
        TurnOf, After;
      ghost var s := Now();
      var cut;
      ghost var pass, evs, inFlight;
      cut, pass, evs, inFlight := FlushAll(true);
      ghost var atCut, rs, id := queues, reports, nextBatchId;
      if cut {
        ghost var saved := SaveAfterTimeout();
        SendAcks(acks.flush + acks.close);
        t := MakeCut(Config(), s, pass, evs, inFlight, atCut, if pass.CutShort? then id else id - 1, saved,
                     acks.flush + acks.close, queues, nextBatchId);
        TimeoutReported(Config(), t, rs, LogAfter(L.Run(s.wal, PassOps(pass)), evs), saved);
      } else {
        SendAcks(acks.flush + acks.close);
        t := MakeWhole(Config(), s, Some(pass), evs, queues, nextBatchId, acks.flush + acks.close);
        assert s.sends + PassSends(pass) + SendsOf(evs) + [] == s.sends + PassSends(pass) + SendsOf(evs);
      }
    }

    /** Flush the queues that reached a batch. */
    method FlushFullQueues() returns (ghost t: Turn<E>)
      requires Valid()
      modifies this, Parts()
      ensures Valid() && fresh(Parts() - old(Parts()))
      ensures TurnOf(Config(), old(Now()), t) && Now() == After(Config(), old(Now()), t)
      ensures t.taken == [] && t.points == [] && Filled(Config(), old(Now()), t)
      ensures (forall s: Schema :: |queues.Get(s)| < batchSize) && absorbed == old(absorbed)
    {
      hide LogAfter, SendsOf, ReportsOf, CutOff, Settled, Legit, InOrder, IdsIn, TurnOf, After;
      ghost var s := Now();
      ghost var cut, evs, inFlight := FlushQueues(true, false);
      t := MakeWhole(Config(), s, None, evs, queues, nextBatchId, []);
      NoInput(s.queues);
      assert trace + AckEvents([], absorbed) == trace;
      assert s.sends + PassedSends(None) == s.sends && s.reports + PassedReports(None, s.wal) == s.reports;
      assert s.sends + SendsOf(evs) + [] == s.sends + SendsOf(evs);
    }

    /** One message: an entry joins its queue, a request joins the acknowledgements to send. */
    method Absorb(acks: Acks, msg: Message<E>) returns (acks': Acks)
      modifies this`queues, this`absorbed
      ensures queues == Absorbed(old(queues), [msg]) && absorbed == Absorbed(old(absorbed), [msg])
      ensures acks' == Acks(acks.flush + AcksOf([msg]).flush, acks.close + AcksOf([msg]).close)
    {
      AbsorbOne(queues, msg);
      AbsorbOne(absorbed, msg);
      acks' := acks;
      match msg {
        case Entry(s, e) =>
          queues := queues.Push(s, e);
          absorbed := absorbed.Push(s, e);
        case Flush(id) => acks' := acks.(flush := acks.flush + [id]);
        case Close(id) => acks' := acks.(close := acks.close + [id]);
      }
    }

    /** The received message and at most `drainLimit` more that are already waiting. */
    method BulkDrain(first: Message<E>, channel: Channel<E>) returns (acks: Acks, ghost taken: seq<Message<E>>)
      modifies this`queues, this`absorbed, channel
      ensures |taken| <= 1 + drainLimit && taken + channel.pending == [first] + old(channel.pending)
      ensures |taken| == 1 + drainLimit || channel.pending == []
      ensures taken != [] && acks == AcksOf(taken)
      ensures queues == Absorbed(old(queues), taken) && absorbed == Absorbed(old(absorbed), taken)
    {
      acks := Absorb(Acks([], []), first);
      taken := [first];
      var i := 0;
      while i < drainLimit
        invariant i <= drainLimit && |taken| == 1 + i
        invariant taken + channel.pending == [first] + old(channel.pending)
        invariant acks == AcksOf(taken)
        invariant queues == Absorbed(old(queues), taken) && absorbed == Absorbed(old(absorbed), taken)
      {
        var m := channel.TryRecv();
        if m.None? {
          return;
        }
        acks := Absorb(acks, m.value);
        AbsorbMore(old(queues), taken, m.value);
        AbsorbMore(old(absorbed), taken, m.value);
        taken := taken + [m.value];
        i := i + 1;
      }
    }

    /** A message wakes the worker: absorb it and what is waiting, then stop, flush, or flush full queues. */
    method OnMessages(first: Message<E>, channel: Channel<E>, ghost arrived: seq<Message<E>>)
      returns (stop: bool, ghost t: Turn<E>)
      requires Valid() && channel !in Parts()
      modifies this, Parts(), channel
      ensures Valid() && fresh(Parts() - old(Parts())) && channel !in Parts()
      ensures TurnOf(Config(), old(Now()), t) && Now() == After(Config(), old(Now()), t)
      ensures var offered := [first] + old(channel.pending);
        && t.taken != []
        && Serves(Config(), drainLimit, old(Now()), t, Received(arrived), offered)
        && channel.pending == offered[|t.taken|..]
        && (stop <==> Stops(t, Received(arrived), offered))
      ensures stop <==> exists i :: 0 <= i < |t.taken| && t.taken[i].Close?
      ensures !stop && (exists id :: Flush(id) in t.taken) ==> queues == Queues([], [], [])
      ensures !stop ==> forall s: Schema :: |queues.Get(s)| < batchSize
      ensures stop && buffer != null ==> queues == Queues([], [], [])
    {
      hide TurnOf, After, Absorbed, AcksOf, Filled, Emptied, Closed;
      ghost var s, offered := Now(), [first] + channel.pending;
      var acks;
      ghost var taken;
      acks, taken := BulkDrain(first, channel);
      TakenAll(taken, channel.pending, offered, 1 + drainLimit);
      CloseAcks(taken);
      JustMessages(s.queues, taken);
      JustMessages(s.absorbed, taken);
      stop := acks.close != [];
      if stop {
        t := Shutdown(acks);
      } else if acks.flush != [] {
        t := FlushTurn(acks.flush);
      } else {
        t := FlushFullQueues();
        NoFlushes(taken);
      }
      InputFirst(Config(), s, t, taken, []);
      t := t.(taken := taken);
    }

    /** The flush tick: drain the log and flush every queue. */
    method OnFlushTick() returns (ghost t: Turn<E>)
      requires Valid()
      modifies this, Parts()
      ensures Valid() && fresh(Parts() - old(Parts()))
      ensures TurnOf(Config(), old(Now()), t) && Now() == After(Config(), old(Now()), t)
      ensures Serves(Config(), drainLimit, old(Now()), t, FlushTick, [])
      ensures queues == Queues([], [], []) && t.pass.Some? && PassOf(t.pass.value, old(Wal()))
    {
      hide TurnOf, After;
      t := FlushTurn([]);
    }

    /** The sample tick: instrument readings join the metric queue without passing the channel. */
    method OnSampleTick(points: seq<E>) returns (ghost t: Turn<E>)
      requires Valid()
      modifies this, Parts()
      ensures Valid() && fresh(Parts() - old(Parts()))
      ensures TurnOf(Config(), old(Now()), t) && Now() == After(Config(), old(Now()), t)
      ensures Serves(Config(), drainLimit, old(Now()), t, SampleTick(points), [])
      ensures absorbed == old(absorbed).(metrics := old(absorbed.metrics) + points)
      ensures forall s: Schema :: |queues.Get(s)| < batchSize
    {
      hide TurnOf, After, Absorbed, Filled;
      ghost var s := Now();
      JustPoints(s.queues, points);
      JustPoints(s.absorbed, points);
      queues := queues.(metrics := queues.metrics + points);
      absorbed := absorbed.(metrics := absorbed.metrics + points);
      t := FlushFullQueues();
      InputFirst(Config(), s, t, [], points);
      t := t.(points := points);
    }

    /** Every client is gone: flush what there is and stop. */
    method OnClientsDropped() returns (ghost t: Turn<E>)
      requires Valid()
      modifies this, Parts()
      ensures Valid() && fresh(Parts() - old(Parts()))
      ensures TurnOf(Config(), old(Now()), t) && Now() == After(Config(), old(Now()), t)
      ensures Serves(Config(), drainLimit, old(Now()), t, AllClientsDropped, [])
      ensures t.pass.Some? && (buffer != null || !t.cut ==> queues == Queues([], [], []))
    {
      hide TurnOf, After;
      var none: seq<nat> := [];
      t := Shutdown(Acks(none, none));
      assert none + none == none;
    }

    /** One wake-up and its answer. */
    method OnWake(channel: Channel<E>, wake: Wake<E>) returns (stop: bool, ghost t: Turn<E>)
      requires Valid() && channel !in Parts()
      modifies this, Parts(), channel
      ensures Valid() && fresh(Parts() - old(Parts())) && channel !in Parts()
      ensures TurnOf(Config(), old(Now()), t) && Now() == After(Config(), old(Now()), t)
      ensures var offered := old(channel.pending) + Arrived(wake);
        && Serves(Config(), drainLimit, old(Now()), t, wake, offered)
        && |t.taken| <= |offered| && channel.pending == offered[|t.taken|..]
        && (stop <==> Stops(t, wake, offered))
    {
      hide TurnOf, After, Filled, Closed, Emptied;
      stop := false;
      NoClose<E>([]);
      match wake {
        case Received(arrived) =>
          channel.pending := channel.pending + arrived;
          ghost var offered := channel.pending;
          var first := channel.TryRecv();
          if first.Some? {
            stop, t := OnMessages(first.value, channel, arrived);
          } else {
            t := RestTurn(Config(), Now());
          }
        case AllClientsDropped =>
          if channel.pending == [] {
            t := OnClientsDropped();
            stop := true;
          } else {
            t := RestTurn(Config(), Now());
          }
        case FlushTick => t := OnFlushTick();
        case ResyncTick => t := RestTurn(Config(), Now());
        case SampleTick(points) => t := OnSampleTick(points);
      }
    }

    /**
     The worker's loop over any sequence of wake-ups, cut off anywhere: one turn per
     wake-up, each the answer to it, until one stops the worker. Queues, history, log,
     network and reports are what these turns make of them.
     */
    method WorkerLoop(channel: Channel<E>, wakes: seq<Wake<E>>) returns (stopped: bool, ghost turns: seq<Turn<E>>)
      requires Valid() && channel !in Parts()
      modifies this, Parts(), channel
      ensures Valid() && fresh(Parts() - old(Parts()))
      ensures Now() == AfterAll(Config(), old(Now()), turns)
      ensures RunOf(Config(), drainLimit, old(Now()), old(channel.pending), wakes, turns)
      ensures channel.pending == Waiting(old(channel.pending), wakes, turns, |turns|)
      ensures stopped <==> Stopped(old(channel.pending), wakes, turns)
      ensures !stopped ==> |turns| == |wakes|
      ensures Ready(Config(), old(Now())) ==> Sound(Config(), Now(), stopped, turns)
      ensures Ready(Config(), old(Now())) ==> forall i :: 0 <= i < |trace| ==>
          Retried(trace[i], buffer != null, maxRetries)
    {
      hide TurnOf, Serves, Stops, After, AfterAll, RunOf, Stopped, Waiting, Ready, Sound,
        Retried;
      ghost var s, pending := Now(), channel.pending;
      stopped, turns := false, [];
      RunStarts(Config(), drainLimit, s, pending, wakes);
      for i := 0 to |wakes|
        invariant Valid() && fresh(Parts() - old(Parts())) && channel !in Parts()
        invariant |turns| == i && Now() == AfterAll(Config(), s, turns)
        invariant RunOf(Config(), drainLimit, s, pending, wakes, turns) && !Stopped(pending, wakes, turns) && !stopped
        invariant channel.pending == Waiting(pending, wakes, turns, i)
      {
        ghost var t;
        stopped, t := OnWake(channel, wakes[i]);
        RunMore(Config(), drainLimit, s, pending, wakes, turns, t);
        turns := turns + [t];
        if stopped {
          break;
        }
      }
      if Ready(Config(), s) {
        RunKeeps(Config(), drainLimit, s, pending, wakes, turns);
        AllRetried(Config(), Now(), stopped, turns, maxRetries);
      }
    }
  }
}
