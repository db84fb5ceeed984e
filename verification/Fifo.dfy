/**
 The log is a bounded first-in first-out queue of byte strings. Every operation
 on the bytes is an operation on the queue; a crash between any two durable
 effects loses nothing that is neither evicted nor committed, except in one
 window of compaction; and the file stays within its bounds over whole runs.
 */
module Fifo {
  import opened Bytes
  import opened Frames
  import opened Log

  /** `kept`: handed out since the last durable cursor. `live`: not handed out yet. */
  datatype Queue = Queue(kept: seq<Frame>, live: seq<Frame>, max: nat)

  /** How many of the oldest frames it takes to free `need` bytes (all, if not enough). */
  function Shortest(fs: seq<Frame>, need: int): (k: nat)
    ensures k <= |fs|
  {
    if need <= 0 || fs == [] then 0
    else 1 + Shortest(fs[1..], need - FRAME_HEADER_LEN - |fs[0]|)
  }

  function MustFree(q: Queue, f: Frame): int {
    Size(q.live) + FRAME_HEADER_LEN + |f| - q.max
  }

  function Survivors(q: Queue, f: Frame): seq<Frame> {
    q.live[Shortest(q.live, MustFree(q, f))..]
  }

  /** The queue's own definition of the operations: no bytes, no positions, no files. */
  function QueueStep(q: Queue, op: Op): Queue {
    match op
    case OpAppend(f) =>
      if MustFree(q, f) <= 0 then q.(live := q.live + [f])
      else Queue([], Survivors(q, f) + [f], q.max)
    case OpDrain => if q.live == [] then q else Queue(q.kept + [q.live[0]], q.live[1..], q.max)
    case OpCommit => q.(kept := [])
    case OpReopen => q.(kept := [])
  }

  function QueueOutput(q: Queue, op: Op): seq<Frame> {
    if op.OpDrain? && q.live != [] then [q.live[0]] else []
  }

  function QueueRun(q: Queue, ops: seq<Op>): Queue {
    if ops == [] then q else QueueStep(QueueRun(q, ops[..|ops| - 1]), ops[|ops| - 1])
  }

  function QueueOutputs(q: Queue, ops: seq<Op>): seq<Frame> {
    if ops == [] then []
    else QueueOutputs(q, ops[..|ops| - 1]) + QueueOutput(QueueRun(q, ops[..|ops| - 1]), ops[|ops| - 1])
  }

  // ---- Well-formed logs ----

  /** The three regions of the file hold whole frames; nothing torn is left at the end. */
  ghost predicate WellFormed(l: Log) {
    && l.cursor <= l.read <= |l.wal|
    && Rest(l.wal[l.cursor..l.read]) == []
    && Rest(l.wal[l.read..]) == []
  }

  function View(l: Log): Queue {
    Queue(l.Kept(), l.Live(), l.max)
  }

  ghost predicate SmallOp(op: Op) {
    op.OpAppend? ==> Small(op.frame)
  }

  ghost predicate SmallOps(ops: seq<Op>) {
    forall i :: 0 <= i < |ops| ==> SmallOp(ops[i])
  }

  function Make(dead: seq<byte>, kept: seq<Frame>, live: seq<Frame>, max: nat): Log {
    Log(dead + EncodeAll(kept) + EncodeAll(live), |dead|, |dead| + |EncodeAll(kept)|, max)
  }

  lemma ParseWhole(fs: seq<Frame>)
    requires AllSmall(fs)
    ensures Parse(EncodeAll(fs)) == fs && Rest(EncodeAll(fs)) == []
  {
    assert EncodeAll(fs) + [] == EncodeAll(fs);
    ParseEncode(fs, []);
  }

  /** A log assembled from frames is well formed and shows exactly those frames. */
  lemma Made(dead: seq<byte>, kept: seq<Frame>, live: seq<Frame>, max: nat)
    requires AllSmall(kept) && AllSmall(live)
    ensures WellFormed(Make(dead, kept, live, max))
    ensures View(Make(dead, kept, live, max)) == Queue(kept, live, max)
    ensures Make(dead, kept, live, max).Unread() == EncodeAll(live)
    ensures |EncodeAll(live)| == Size(live)
  {
    hide U32At, LE32;
    var l := Make(dead, kept, live, max);
    assert l.wal[l.cursor..l.read] == EncodeAll(kept);
    assert l.wal[l.read..] == EncodeAll(live);
    ParseWhole(kept);
    ParseWhole(live);
    SizeIsLength(live);
  }

  /** Every well-formed log is assembled from the frames it shows. */
  lemma Taken(l: Log) returns (dead: seq<byte>)
    requires WellFormed(l)
    ensures l == Make(dead, l.Kept(), l.Live(), l.max)
    ensures AllSmall(l.Kept()) && AllSmall(l.Live())
  {
    hide U32At, LE32;
    dead := l.wal[..l.cursor];
    var a, b := l.wal[l.cursor..l.read], l.wal[l.read..];
    EncodeParse(a);
    EncodeParse(b);
    assert EncodeAll(Parse(a)) == a && EncodeAll(Parse(b)) == b;
    assert l.wal == dead + a + b;
  }

  lemma RecoveredMade(dead: seq<byte>, kept: seq<Frame>, live: seq<Frame>, max: nat)
    requires AllSmall(kept) && AllSmall(live)
    ensures Recovered(Make(dead, kept, live, max).Durable()) == kept + live
  {
    hide U32At, LE32;
    var l := Make(dead, kept, live, max);
    EncodeAllConcat(kept, live);
    assert l.wal[|dead|..] == EncodeAll(kept) + EncodeAll(live);
    assert AllSmall(kept + live);
    ParseWhole(kept + live);
  }

  // ---- Eviction walks headers; the queue drops frames ----

  lemma {:induction false} ShortestIsShortest(fs: seq<Frame>, need: int)
    ensures var k := Shortest(fs, need);
      && (Size(fs[..k]) >= need || k == |fs|)
      && forall j :: 0 <= j < k ==> Size(fs[..j]) < need
  {
    var k := Shortest(fs, need);
    if k > 0 {
      var n := need - FRAME_HEADER_LEN - |fs[0]|;
      ShortestIsShortest(fs[1..], n);
      assert fs[..k][1..] == fs[1..][..k - 1];
      forall j | 0 <= j < k
        ensures Size(fs[..j]) < need
      {
        if j > 0 {
          assert fs[..j][1..] == fs[1..][..j - 1];
        }
      }
    }
  }

  lemma ScanStep(f: Frame, rest: seq<byte>, need: int)
    requires Small(f) && need > 0
    ensures Scan(Encode(f) + rest, need) == FRAME_HEADER_LEN + |f| + Scan(rest, need - FRAME_HEADER_LEN - |f|)
  {
    hide U32At, LE32;
    HeaderOfEncode(f, rest);
    assert (Encode(f) + rest)[FRAME_HEADER_LEN + |f|..] == rest;
  }

  lemma SizeTake(fs: seq<Frame>, k: nat)
    requires 0 < k <= |fs|
    ensures Size(fs[..k]) == FRAME_HEADER_LEN + |fs[0]| + Size(fs[1..][..k - 1])
  {
    assert fs[..k][1..] == fs[1..][..k - 1];
  }

  lemma {:induction false} ScanFrames(fs: seq<Frame>, need: int)
    requires AllSmall(fs)
    ensures Scan(EncodeAll(fs), need) == Size(fs[..Shortest(fs, need)])
  {
    hide Encode, Header;
    if need > 0 && fs != [] {
      ScanStep(fs[0], EncodeAll(fs[1..]), need);
      ScanFrames(fs[1..], need - FRAME_HEADER_LEN - |fs[0]|);
      SizeTake(fs, Shortest(fs, need));
    }
  }

  lemma SplitFile(a: seq<byte>, fs: seq<Frame>, k: nat)
    requires k <= |fs|
    ensures a + EncodeAll(fs) == a + EncodeAll(fs[..k]) + EncodeAll(fs[k..])
    ensures |EncodeAll(fs[..k])| == Size(fs[..k])
  {
    assert fs[..k] + fs[k..] == fs;
    EncodeAllConcat(fs[..k], fs[k..]);
    SizeIsLength(fs[..k]);
    Assoc(a, EncodeAll(fs[..k]), EncodeAll(fs[k..]));
  }

  lemma SkippedMade(dead: seq<byte>, kept: seq<Frame>, live: seq<Frame>, max: nat, needed: nat)
    requires AllSmall(kept) && AllSmall(live) && Size(live) + needed > max
    ensures var k := Shortest(live, Size(live) + needed - max);
      && Freed(Make(dead, kept, live, max), needed) == Size(live[..k])
      && Skipped(Make(dead, kept, live, max), needed)
         == Make(dead + EncodeAll(kept) + EncodeAll(live[..k]), [], live[k..], max)
  {
    hide Encode, Scan, Size, Shortest, U32At;
    var k := Shortest(live, Size(live) + needed - max);
    var a := dead + EncodeAll(kept);
    Made(dead, kept, live, max);
    ScanFrames(live, Size(live) + needed - max);
    SplitFile(a, live, k);
    assert (a + EncodeAll(live[..k])) + [] == a + EncodeAll(live[..k]);
  }

  lemma MaybeCompactMade(dead: seq<byte>, live: seq<Frame>, max: nat)
    requires AllSmall(live)
    ensures exists d :: MaybeCompact(Make(dead, [], live, max)) == Make(d, [], live, max)
  {
    hide U32At, LE32;
    var l := Make(dead, [], live, max);
    if WorthCompacting(l) {
      assert l.wal[l.read..] == EncodeAll(live);
      assert [] + EncodeAll([]) + EncodeAll(live) == EncodeAll(live);
      if live == [] {
        assert MaybeCompact(l) == Make([], [], live, max);
      } else {
        assert |EncodeAll(live)| > 0;
        assert MaybeCompact(l) == Make([], [], live, max);
      }
    } else {
      assert MaybeCompact(l) == Make(dead, [], live, max);
    }
  }

  lemma AppendMade(dead: seq<byte>, kept: seq<Frame>, live: seq<Frame>, max: nat, f: Frame)
    ensures var l := Make(dead, kept, live, max);
      l.(wal := l.wal + Encode(f)) == Make(dead, kept, live + [f], max)
  {
    EncodeAllConcat(live, [f]);
    EncodeCons(f, []);
    assert Encode(f) + [] == Encode(f);
    assert [f] + [] == [f];
    Assoc(dead + EncodeAll(kept), EncodeAll(live), Encode(f));
  }

  // ---- Refinement ----

  lemma SkippedFrames(l: Log, needed: nat) returns (d: seq<byte>)
    requires WellFormed(l) && !Fits(l, needed)
    ensures AllSmall(l.Live())
    ensures var k := Shortest(l.Live(), Size(l.Live()) + needed - l.max);
      && Freed(l, needed) == Size(l.Live()[..k])
      && Skipped(l, needed) == Make(d, [], l.Live()[k..], l.max)
  {
    hide U32At, LE32;
    var dead := Taken(l);
    var kept, live := l.Kept(), l.Live();
    assert Size(live) + needed > l.max by {
      Made(dead, kept, live, l.max);
    }
    SkippedMade(dead, kept, live, l.max, needed);
    d := dead + EncodeAll(kept) + EncodeAll(live[..Shortest(live, Size(live) + needed - l.max)]);
  }

  lemma EvictFrames(l: Log, needed: nat) returns (d: seq<byte>)
    requires WellFormed(l) && !Fits(l, needed)
    ensures AllSmall(l.Live())
    ensures var k := Shortest(l.Live(), Size(l.Live()) + needed - l.max);
      && Freed(l, needed) == Size(l.Live()[..k])
      && Evict(l, needed) == Make(d, [], l.Live()[k..], l.max)
  {
    hide U32At, LE32;
    var a := SkippedFrames(l, needed);
    var live := l.Live()[Shortest(l.Live(), Size(l.Live()) + needed - l.max)..];
    MaybeCompactMade(a, live, l.max);
    d :| MaybeCompact(Make(a, [], live, l.max)) == Make(d, [], live, l.max);
  }

  lemma AppendFrames(l: Log, f: Frame)
    requires WellFormed(l) && Small(f)
    ensures WellFormed(Append(l, f))
    ensures View(Append(l, f)) == QueueStep(View(l), OpAppend(f))
    ensures Freed(l, FRAME_HEADER_LEN + |f|) == Size(l.Live()[..Shortest(l.Live(), MustFree(View(l), f))])
    ensures View(Evict(l, FRAME_HEADER_LEN + |f|)).live == Survivors(View(l), f)
  {
    hide U32At, LE32;
    var dead := Taken(l);
    var q := View(l);
    var needed := FRAME_HEADER_LEN + |f|;
    Made(dead, q.kept, q.live, q.max);
    if Fits(l, needed) {
      AppendMade(dead, q.kept, q.live, q.max, f);
      Made(dead, q.kept, q.live + [f], q.max);
      assert q.live[..0] == [];
    } else {
      var d := EvictFrames(l, needed);
      var live := Survivors(q, f);
      Made(d, [], live, q.max);
      AppendMade(d, [], live, q.max, f);
      Made(d, [], live + [f], q.max);
    }
  }

  lemma DrainFrames(l: Log)
    requires WellFormed(l)
    ensures WellFormed(DrainNext(l))
    ensures View(DrainNext(l)) == QueueStep(View(l), OpDrain)
    ensures DrainResult(l) == if l.Live() == [] then Empty else Got(l.Live()[0])
    ensures l.Live() == [] ==> DrainNext(l) == l
    ensures DrainNextEffects(l) == []
  {
    hide U32At, LE32;
    var dead := Taken(l);
    var q := View(l);
    Made(dead, q.kept, q.live, q.max);
    if q.live != [] {
      var f, rest := q.live[0], q.live[1..];
      FrameAtFront(f, EncodeAll(rest));
      HeaderOfEncode(f, EncodeAll(rest));
      EncodeAllConcat(q.kept, [f]);
      EncodeCons(f, []);
      assert [f] + [] == [f] && Encode(f) + [] == Encode(f);
      Assoc(dead, EncodeAll(q.kept), Encode(f));
      Assoc(dead + EncodeAll(q.kept), Encode(f), EncodeAll(rest));
      assert DrainNext(l) == Make(dead, q.kept + [f], rest, q.max);
      Made(dead, q.kept + [f], rest, q.max);
    }
  }

  lemma PersistFrames(l: Log) returns (dead: seq<byte>)
    requires WellFormed(l)
    ensures Persist(l) == Make(dead, [], l.Live(), l.max)
    ensures AllSmall(l.Live())
  {
    hide U32At, LE32;
    var d := Taken(l);
    dead := d + EncodeAll(l.Kept());
    assert dead + [] == dead;
  }

  lemma CommitFrames(l: Log)
    requires WellFormed(l)
    ensures WellFormed(Commit(l))
    ensures View(Commit(l)) == QueueStep(View(l), OpCommit)
  {
    hide U32At, LE32;
    var dead := PersistFrames(l);
    MaybeCompactMade(dead, l.Live(), l.max);
    var d :| MaybeCompact(Make(dead, [], l.Live(), l.max)) == Make(d, [], l.Live(), l.max);
    Made(d, [], l.Live(), l.max);
  }

  lemma StepFrames(l: Log, op: Op)
    requires WellFormed(l) && SmallOp(op)
    ensures WellFormed(Step(l, op))
    ensures View(Step(l, op)) == QueueStep(View(l), op)
    ensures Output(l, op) == QueueOutput(View(l), op)
  {
    hide U32At, LE32;
    match op
    case OpAppend(f) => AppendFrames(l, f);
    case OpDrain => DrainFrames(l);
    case OpCommit => CommitFrames(l);
    case OpReopen =>
      var dead := PersistFrames(l);
      Made(dead, [], l.Live(), l.max);
  }

  /** Over every run the log shows what the queue holds and hands out what the queue hands out. */
  lemma {:induction false} LogRefinesQueue(l: Log, ops: seq<Op>)
    requires WellFormed(l) && SmallOps(ops)
    ensures WellFormed(Run(l, ops))
    ensures View(Run(l, ops)) == QueueRun(View(l), ops)
    ensures Outputs(l, ops) == QueueOutputs(View(l), ops)
  {
    if ops != [] {
      var before := ops[..|ops| - 1];
      LogRefinesQueue(l, before);
      StepFrames(Run(l, before), ops[|ops| - 1]);
    }
  }

  /** A new buffer in an empty directory. */
  lemma FreshIsWellFormed(max: nat)
    ensures WellFormed(Open(Disk([], 0), max))
    ensures View(Open(Disk([], 0), max)) == Queue([], [], max)
  {
  }
}
