/**
 What a restart finds after a crash between any two durable effects, and how
 large the log can grow.
 */
module Crash {
  import opened Bytes
  import opened Frames
  import opened Log
  import opened Fifo

  function Min(a: nat, b: nat): nat {
    if a <= b then a else b
  }

  /** The last effect before the crash replaced the file but not yet the cursor. */
  predicate InCompactionWindow(es: seq<Effect>, k: nat) {
    0 < k <= |es| && es[k - 1].Rename?
  }

  /** Reading gives up quietly here: a short or cut-off frame, not a corrupt header. */
  predicate Torn(s: seq<byte>) {
    !HasFrame(s) && (|s| >= FRAME_HEADER_LEN ==> Header(s) <= MAX_FRAME_LEN)
  }

  function Unrecoverable(d: Disk): seq<byte> {
    Rest(From(d.wal, d.cursor))
  }

  /** The disk a crash leaves after `k` of the operation's effects. */
  function CrashState(l: Log, es: seq<Effect>, k: nat): Disk
    requires k <= |es|
  {
    Replay(l.Durable(), es[..k])
  }

  /** What a restart sees on disk `d`: `fs` and a torn end; inside the window nothing, although there is something. */
  ghost predicate Finds(d: Disk, window: bool, fs: seq<Frame>) {
    && Torn(Unrecoverable(d))
    && (window ==> d.cursor > |d.wal| && Recovered(d) == [] && fs != [])
    && (!window ==> Recovered(d) == fs)
  }

  lemma DropPrefix<T>(a: seq<T>, b: seq<T>)
    ensures (a + b)[|a|..] == b
  {
  }

  lemma EmptyLeft<T>(a: seq<T>)
    ensures [] + a == a
  {
  }

  lemma QuietDisk(dead: seq<byte>, kept: seq<Frame>, live: seq<Frame>, tail: seq<byte>)
    requires AllSmall(kept) && AllSmall(live) && Torn(tail)
    ensures var d := Disk(dead + EncodeAll(kept) + EncodeAll(live) + tail, |dead|);
      Recovered(d) == kept + live && Torn(Unrecoverable(d))
  {
    hide U32At, LE32;
    var d := Disk(dead + EncodeAll(kept) + EncodeAll(live) + tail, |dead|);
    EncodeAllConcat(kept, live);
    Assoc(dead, EncodeAll(kept), EncodeAll(live));
    Assoc(dead, EncodeAll(kept + live), tail);
    DropPrefix(dead, EncodeAll(kept + live) + tail);
    assert AllSmall(kept + live);
    ParseEncode(kept + live, tail);
  }

  lemma QuietLog(dead: seq<byte>, kept: seq<Frame>, live: seq<Frame>, max: nat)
    requires AllSmall(kept) && AllSmall(live)
    ensures var d := Make(dead, kept, live, max).Durable();
      Recovered(d) == kept + live && Torn(Unrecoverable(d))
  {
    var w := dead + EncodeAll(kept) + EncodeAll(live);
    assert w + [] == w;
    QuietDisk(dead, kept, live, []);
  }

  lemma TornEncode(f: Frame, n: nat)
    requires Small(f) && n < |Encode(f)|
    ensures Torn(Encode(f)[..n])
  {
    TornFrame(f, n);
    if n >= FRAME_HEADER_LEN {
      HeaderOfEncode(f, []);
      assert Encode(f)[..n][..FRAME_HEADER_LEN] == (Encode(f) + [])[..FRAME_HEADER_LEN];
    }
  }

  /** A frame is appended byte by byte: until its last byte it is invisible. */
  lemma PutsCrash(dead: seq<byte>, kept: seq<Frame>, live: seq<Frame>, max: nat, f: Frame, k: nat)
    requires AllSmall(kept) && AllSmall(live) && Small(f) && k <= |Encode(f)|
    ensures var d := Replay(Make(dead, kept, live, max).Durable(), Puts(Encode(f))[..k]);
      && Torn(Unrecoverable(d))
      && Recovered(d) == kept + if k == |Encode(f)| then live + [f] else live
  {
    hide U32At, LE32;
    var l := Make(dead, kept, live, max);
    assert Puts(Encode(f))[..k] == Puts(Encode(f)[..k]);
    ReplayPuts(l.Durable(), Encode(f)[..k]);
    if k == |Encode(f)| {
      assert Encode(f)[..k] == Encode(f);
      AppendMade(dead, kept, live, max, f);
      QuietLog(dead, kept, live + [f], max);
    } else {
      TornEncode(f, k);
      QuietDisk(dead, kept, live, Encode(f)[..k]);
    }
  }

  /**
   A compaction the threshold started has consumed more than it keeps. Between
   the rename and the cursor write the cursor therefore lies beyond the file:
   `open` clamps it and every live frame is skipped.
   */
  lemma RenameWindow(l: Log)
    requires WorthCompacting(l) && l.read < |l.wal| && l.cursor == l.read
    ensures var d := Apply(l.Durable(), Rename(l.wal[l.read..]));
      && d.cursor > |d.wal|
      && Open(d, l.max).read == |d.wal| == Open(d, l.max).cursor
      && Recovered(d) == [] && Unrecoverable(d) == []
  {
    hide U32At, LE32;
  }

  lemma FirstCompactEffect(dead: seq<byte>, live: seq<Frame>, max: nat)
    requires AllSmall(live) && |MaybeCompactEffects(Make(dead, [], live, max))| >= 1
    ensures var l := Make(dead, [], live, max);
      var es := MaybeCompactEffects(l);
      Finds(Apply(l.Durable(), es[0]), InCompactionWindow(es, 1), live)
  {
    hide U32At, LE32;
    var l := Make(dead, [], live, max);
    assert l.cursor == l.read;
    if l.read < |l.wal| {
      RenameWindow(l);
    } else {
      assert l.wal[l.read..] == EncodeAll(live) == [];
    }
  }

  /** A crash inside a compaction: before the rename, right after it, or after the cursor write. */
  lemma MaybeCompactCrash(dead: seq<byte>, live: seq<Frame>, max: nat, k: nat)
    requires AllSmall(live)
    requires k <= |MaybeCompactEffects(Make(dead, [], live, max))|
    ensures var l := Make(dead, [], live, max);
      var es := MaybeCompactEffects(l);
      Finds(CrashState(l, es, k), InCompactionWindow(es, k), live)
  {
    hide U32At, LE32;
    var l := Make(dead, [], live, max);
    var es := MaybeCompactEffects(l);
    assert l.cursor == l.read;
    if k == 0 {
      QuietLog(dead, [], live, max);
    } else if k == 1 {
      assert es[..1] == [es[0]];
      ReplayOne(l.Durable(), es[0]);
      FirstCompactEffect(dead, live, max);
    } else {
      assert es[..2] == es;
      MaybeCompactReplay(l);
      MaybeCompactMade(dead, live, max);
      var d :| MaybeCompact(Make(dead, [], live, max)) == Make(d, [], live, max);
      QuietLog(d, [], live, max);
    }
  }

  lemma TakeFromConcat<T>(a: seq<T>, b: seq<T>, k: nat)
    requires k <= |a + b|
    ensures k <= |a| ==> (a + b)[..k] == a[..k]
    ensures k > |a| ==> (a + b)[..k] == a + b[..k - |a|]
  {
  }

  /** What a crash inside `op` may leave: the queue before it, after its eviction, or after it. */
  ghost predicate Legal(q: Queue, op: Op, found: seq<Frame>) {
    || found == q.kept + q.live
    || (op.OpAppend? && MustFree(q, op.frame) > 0 && found == Survivors(q, op.frame))
    || found == QueueStep(q, op).kept + QueueStep(q, op).live
  }

  ghost predicate Accounted(l: Log, op: Op, es: seq<Effect>, k: nat)
    requires k <= |es|
  {
    var d := CrashState(l, es, k);
    && Torn(Unrecoverable(d))
    && (InCompactionWindow(es, k) ==> d.cursor > |d.wal| && Recovered(d) == [])
    && (Legal(View(l), op, Recovered(d)) <==> !InCompactionWindow(es, k))
  }

  lemma EvictCrashState(l: Log, needed: nat, k: nat)
    requires !Fits(l, needed) && 0 < k <= |EvictEffects(l, needed)|
    ensures var m := Skipped(l, needed);
      && CrashState(l, EvictEffects(l, needed), k) == CrashState(m, MaybeCompactEffects(m), k - 1)
      && InCompactionWindow(EvictEffects(l, needed), k) == InCompactionWindow(MaybeCompactEffects(m), k - 1)
  {
    hide U32At, LE32;
    var m := Skipped(l, needed);
    var first, more := [SetCursor(m.read)], MaybeCompactEffects(m);
    TakeFromConcat(first, more, k);
    assert first + more[..k - 1] == (first + more)[..k];
    ReplayOne(l.Durable(), SetCursor(m.read));
    ReplayConcat(l.Durable(), first, more[..k - 1]);
  }

  /** An eviction first writes the cursor and then, perhaps, compacts. */
  lemma EvictCrash(l: Log, needed: nat, k: nat)
    requires WellFormed(l) && !Fits(l, needed) && 0 < k <= |EvictEffects(l, needed)|
    ensures Finds(CrashState(l, EvictEffects(l, needed), k), InCompactionWindow(EvictEffects(l, needed), k),
                  l.Live()[Shortest(l.Live(), Size(l.Live()) + needed - l.max)..])
  {
    hide U32At, LE32;
    var dead := SkippedFrames(l, needed);
    EvictCrashState(l, needed, k);
    MaybeCompactCrash(dead, l.Live()[Shortest(l.Live(), Size(l.Live()) + needed - l.max)..], l.max, k - 1);
  }

  /** A crash in an append falls in its eviction, or after some bytes of the frame. */
  lemma AppendCrashState(l: Log, f: Frame, k: nat)
    requires k <= |AppendEffects(l, f)|
    ensures var needed := FRAME_HEADER_LEN + |f|;
      var ev, puts, es := EvictEffects(l, needed), Puts(Encode(f)), AppendEffects(l, f);
      && (k <= |ev| ==>
            && CrashState(l, es, k) == CrashState(l, ev, k)
            && InCompactionWindow(es, k) == InCompactionWindow(ev, k))
      && (k > |ev| ==>
            && !InCompactionWindow(es, k)
            && CrashState(l, es, k) == Replay(Evict(l, needed).Durable(), puts[..Min(k - |ev|, |puts|)]))
  {
    hide U32At, LE32;
    var needed := FRAME_HEADER_LEN + |f|;
    var ev, puts := EvictEffects(l, needed), Puts(Encode(f));
    Assoc(ev, puts, [Sync]);
    TakeFromConcat(ev, puts + [Sync], k);
    if k > |ev| {
      var j := k - |ev|;
      EvictReplay(l, needed);
      ReplayConcat(l.Durable(), ev, (puts + [Sync])[..j]);
      TakeFromConcat(puts, [Sync], j);
      if j > |puts| {
        assert (puts + [Sync])[..j] == puts + [Sync] && puts[..|puts|] == puts;
        var d := Evict(l, needed).Durable();
        ReplayConcat(d, puts, [Sync]);
        ReplayOne(Replay(d, puts), Sync);
      }
    }
  }

  lemma NothingDone(l: Log, op: Op, es: seq<Effect>)
    requires WellFormed(l)
    ensures Accounted(l, op, es, 0)
  {
    hide U32At, LE32;
    var dead := Taken(l);
    QuietLog(dead, l.Kept(), l.Live(), l.max);
  }

  lemma AppendCrashEvicting(l: Log, f: Frame, k: nat)
    requires WellFormed(l) && Small(f) && 0 < k <= |EvictEffects(l, FRAME_HEADER_LEN + |f|)|
    ensures k <= |AppendEffects(l, f)| && Accounted(l, OpAppend(f), AppendEffects(l, f), k)
  {
    hide U32At, LE32, Torn, Recovered, Unrecoverable, Shortest, Evict, Puts, CrashState;
    AppendCrashState(l, f, k);
    EvictCrash(l, FRAME_HEADER_LEN + |f|, k);
    assert MustFree(View(l), f) > 0 by {
      var dead := Taken(l);
      Made(dead, l.Kept(), l.Live(), l.max);
    }
  }

  /** The queue an append's own frame is written behind. */
  function MadeRoom(q: Queue, f: Frame): Queue {
    if MustFree(q, f) <= 0 then q else Queue([], Survivors(q, f), q.max)
  }

  lemma RoomMade(l: Log, f: Frame) returns (dead: seq<byte>)
    requires WellFormed(l)
    ensures var r := MadeRoom(View(l), f);
      && AllSmall(r.kept) && AllSmall(r.live)
      && Evict(l, FRAME_HEADER_LEN + |f|) == Make(dead, r.kept, r.live, l.max)
  {
    hide U32At, LE32;
    dead := Taken(l);
    assert Fits(l, FRAME_HEADER_LEN + |f|) <==> MustFree(View(l), f) <= 0 by {
      Made(dead, l.Kept(), l.Live(), l.max);
    }
    if !Fits(l, FRAME_HEADER_LEN + |f|) {
      dead := EvictFrames(l, FRAME_HEADER_LEN + |f|);
    }
  }

  lemma RoomLegal(q: Queue, f: Frame, written: bool)
    ensures var r := MadeRoom(q, f);
      Legal(q, OpAppend(f), r.kept + if written then r.live + [f] else r.live)
  {
    EmptyLeft(Survivors(q, f));
  }

  /** The part of an append after its eviction: `k` bytes of the frame are on disk. */
  lemma WriteCrash(l: Log, f: Frame, k: nat)
    requires WellFormed(l) && Small(f) && k <= |Encode(f)|
    ensures var d := Replay(Evict(l, FRAME_HEADER_LEN + |f|).Durable(), Puts(Encode(f))[..k]);
      Torn(Unrecoverable(d)) && Legal(View(l), OpAppend(f), Recovered(d))
  {
    hide U32At, LE32;
    var r := MadeRoom(View(l), f);
    var dead := RoomMade(l, f);
    PutsCrash(dead, r.kept, r.live, l.max, f, k);
    RoomLegal(View(l), f, k == |Encode(f)|);
  }

  lemma AppendCrash(l: Log, f: Frame, k: nat)
    requires WellFormed(l) && Small(f) && k <= |AppendEffects(l, f)|
    ensures Accounted(l, OpAppend(f), AppendEffects(l, f), k)
  {
    hide U32At, LE32, WellFormed, View, AppendEffects;
    var ev := EvictEffects(l, FRAME_HEADER_LEN + |f|);
    if k == 0 {
      NothingDone(l, OpAppend(f), AppendEffects(l, f));
    } else if k <= |ev| {
      AppendCrashEvicting(l, f, k);
    } else {
      AppendCrashState(l, f, k);
      WriteCrash(l, f, Min(k - |ev|, |Encode(f)|));
    }
  }

  lemma PersistCrash(l: Log, k: nat)
    requires WellFormed(l) && k <= |PersistEffects(l)|
    ensures var d := CrashState(l, PersistEffects(l), k);
      && Torn(Unrecoverable(d))
      && Recovered(d) == if k == 0 then l.Kept() + l.Live() else l.Live()
  {
    hide U32At, LE32;
    var q := View(l);
    if k == 0 {
      var dead := Taken(l);
      QuietLog(dead, q.kept, q.live, q.max);
    } else {
      assert PersistEffects(l)[..k] == PersistEffects(l);
      PersistReplay(l);
      var dead := PersistFrames(l);
      QuietLog(dead, [], q.live, q.max);
      assert [] + q.live == q.live;
    }
  }

  lemma CommitCrash(l: Log, k: nat)
    requires WellFormed(l) && k <= |CommitEffects(l)|
    ensures Accounted(l, OpCommit, CommitEffects(l), k)
  {
    hide U32At, LE32;
    var es := CommitEffects(l);
    var ps, cs := PersistEffects(l), MaybeCompactEffects(Persist(l));
    var q := View(l);
    TakeFromConcat(ps, cs, k);
    if k <= |ps| {
      PersistCrash(l, k);
      assert k > 0 ==> es[k - 1] == ps[k - 1];
    } else {
      var dead := PersistFrames(l);
      PersistReplay(l);
      ReplayConcat(l.Durable(), ps, cs[..k - |ps|]);
      MaybeCompactCrash(dead, q.live, q.max, k - |ps|);
      assert es[k - 1] == cs[k - |ps| - 1];
      assert [] + q.live == q.live;
    }
  }

  /** At least once: a crash after any prefix of any operation's effects. */
  lemma CrashRecovers(l: Log, op: Op, k: nat)
    requires WellFormed(l) && SmallOp(op) && k <= |Effects(l, op)|
    ensures Accounted(l, op, Effects(l, op), k)
  {
    hide U32At, LE32;
    match op
    case OpAppend(f) => AppendCrash(l, f, k);
    case OpDrain =>
      DrainFrames(l);
      var dead := Taken(l);
      assert Effects(l, op)[..0] == [];
      QuietLog(dead, l.Kept(), l.Live(), l.max);
    case OpCommit => CommitCrash(l, k);
    case OpReopen =>
      var d := Persist(l).Durable();
      assert OpenEffects(d) == [];
      assert PersistEffects(l) + [] == PersistEffects(l);
      PersistCrash(l, k);
      assert [] + l.Live() == l.Live();
  }

  lemma RunSplit(l: Log, ops: seq<Op>)
    requires ops != []
    ensures var before := ops[..|ops| - 1];
      RunEffects(l, ops) == RunEffects(l, before) + Effects(Run(l, before), ops[|ops| - 1])
  {
  }

  /**
   A crash anywhere in a whole run. It falls in one operation `i`, after `j` of
   its effects, and a restart finds a legal remainder of the queue at that point
   unless the crash hit the window of compaction.
   */
  lemma {:induction false} CrashInRun(l: Log, ops: seq<Op>, k: nat) returns (i: nat, j: nat)
    requires WellFormed(l) && SmallOps(ops) && ops != [] && k <= |RunEffects(l, ops)|
    ensures i < |ops| && j <= |Effects(Run(l, ops[..i]), ops[i])|
    ensures Replay(l.Durable(), RunEffects(l, ops)[..k])
         == CrashState(Run(l, ops[..i]), Effects(Run(l, ops[..i]), ops[i]), j)
    ensures View(Run(l, ops[..i])) == QueueRun(View(l), ops[..i])
    ensures Accounted(Run(l, ops[..i]), ops[i], Effects(Run(l, ops[..i]), ops[i]), j)
  {
    hide Effects, Step, Accounted, WellFormed, View, QueueStep;
    var n := |ops| - 1;
    var before, last := ops[..n], ops[n];
    var es, more := RunEffects(l, before), Effects(Run(l, before), last);
    RunSplit(l, ops);
    TakeFromConcat(es, more, k);
    if k <= |es| && before != [] {
      i, j := CrashInRun(l, before, k);
      assert before[..i] == ops[..i];
    } else {
      i, j := n, k - |es|;
      assert es + more[..j] == (es + more)[..k];
      LogRefinesQueue(l, before);
      RunReplay(l, before);
      ReplayConcat(l.Durable(), es, more[..j]);
      CrashRecovers(Run(l, before), last, j);
    }
  }

  // ---- After the restart ----

  /** Draining any readable log, torn or not: one step pops the first parsed frame. */
  lemma DrainPops(l: Log)
    requires l.cursor <= l.read <= |l.wal|
    ensures l.Live() != [] ==>
      && Output(l, OpDrain) == [l.Live()[0]]
      && DrainNext(l).Live() == l.Live()[1..]
      && DrainNext(l).Unread() == AfterFirst(l.Unread())
      && l.cursor <= DrainNext(l).read <= |l.wal| && DrainNext(l).wal == l.wal && DrainNext(l).cursor == l.cursor
    ensures l.Live() == [] ==> Output(l, OpDrain) == [] && DrainNext(l).read == |l.wal|
    ensures l.Live() == [] && Torn(l.Unread()) ==> DrainResult(l) == Empty
  {
    hide U32At, LE32;
    var s := l.Unread();
    if HasFrame(s) {
      assert DrainNext(l).Unread() == AfterFirst(s);
    }
  }

  lemma TakeOne<T>(s: seq<T>, n: nat)
    requires 0 < n <= |s|
    ensures s[..n] == s[..n - 1] + [s[n - 1..][0]] && s[n..] == s[n - 1..][1..]
  {
  }

  /** A drain pass over any opened disk hands out exactly the recovered frames, in order. */
  lemma {:induction false} DrainsRecovered(d: Disk, max: nat, n: nat)
    requires n <= |Recovered(d)|
    ensures var l := Run(Open(d, max), Drains(n));
      && Outputs(Open(d, max), Drains(n)) == Recovered(d)[..n]
      && l.Live() == Recovered(d)[n..]
      && Rest(l.Unread()) == Unrecoverable(d)
      && l.cursor <= l.read <= |l.wal| && l.wal == d.wal
  {
    hide U32At, LE32;
    if n > 0 {
      var o := Open(d, max);
      DrainsRecovered(d, max, n - 1);
      assert Drains(n)[..n - 1] == Drains(n - 1);
      TakeOne(Recovered(d), n);
      DrainPops(Run(o, Drains(n - 1)));
    }
  }

  /** After the recovered frames a torn end yields `Empty`, and is skipped for good. */
  lemma TornEndIsSkipped(d: Disk, max: nat)
    requires Torn(Unrecoverable(d))
    ensures var l := Run(Open(d, max), Drains(|Recovered(d)|));
      && DrainResult(l) == Empty
      && DrainNext(l).Unread() == []
      && (Unrecoverable(d) != [] ==> WellFormed(DrainNext(l)))
  {
    hide U32At, LE32;
    var n := |Recovered(d)|;
    DrainsRecovered(d, max, n);
    var l := Run(Open(d, max), Drains(n));
    assert l.Live() == [];
    assert l.Unread() == Unrecoverable(d);
  }

  lemma NothingBehindCursor(d: Disk, max: nat)
    requires Unrecoverable(d) == []
    ensures WellFormed(Open(d, max))
  {
    hide U32At, LE32;
  }

  lemma SmallDrains(n: nat)
    ensures SmallOps(Drains(n))
  {
  }

  /**
   So a restart and one drain to the end leave a well-formed empty log, whatever
   the crash left: the theorems about runs and crashes apply again.
   */
  lemma RestartIsWellFormed(d: Disk, max: nat)
    requires Torn(Unrecoverable(d))
    ensures var l := Run(Open(d, max), Drains(|Recovered(d)| + 1));
      WellFormed(l) && l.Live() == []
  {
    hide U32At, LE32, DrainNext, DrainResult;
    var n := |Recovered(d)|;
    var o := Open(d, max);
    TornEndIsSkipped(d, max);
    DrainOneMore(o, n);
    if Unrecoverable(d) == [] {
      NothingBehindCursor(d, max);
      SmallDrains(n + 1);
      LogRefinesQueue(o, Drains(n + 1));
    }
  }

  /** What an operation has returned from is on disk: after any run a restart finds the whole queue. */
  lemma ReturnIsDurable(l: Log, ops: seq<Op>)
    requires WellFormed(l) && SmallOps(ops)
    ensures var q := QueueRun(View(l), ops);
      Recovered(Replay(l.Durable(), RunEffects(l, ops))) == q.kept + q.live
  {
    hide WellFormed, Recovered, Step;
    LogRefinesQueue(l, ops);
    RunReplay(l, ops);
    var r := Run(l, ops);
    var dead := Taken(r);
    RecoveredMade(dead, r.Kept(), r.Live(), r.max);
  }

  lemma NoPuts(l: Log, op: Op)
    ensures !op.OpAppend? ==> forall i :: 0 <= i < |Effects(l, op)| ==> !Effects(l, op)[i].Put?
  {
  }

  lemma SyncLast(l: Log, op: Op, i: nat)
    requires i < |Effects(l, op)| && Effects(l, op)[i].Put?
    ensures i < |Effects(l, op)| - 1 && Effects(l, op)[|Effects(l, op)| - 1] == Sync
  {
    hide EvictEffects, MaybeCompactEffects, PersistEffects;
    NoPuts(l, op);
  }

  /** No append returns before its bytes are synced: every byte written in a run has a sync behind it. */
  lemma {:induction false} ReturnIsSynced(l: Log, ops: seq<Op>, i: nat)
    requires i < |RunEffects(l, ops)| && RunEffects(l, ops)[i].Put?
    ensures exists j :: i < j < |RunEffects(l, ops)| && RunEffects(l, ops)[j] == Sync
  {
    hide Effects, Step;
    var n := |ops| - 1;
    var before, es := RunEffects(l, ops[..n]), Effects(Run(l, ops[..n]), ops[n]);
    if i < |before| {
      ReturnIsSynced(l, ops[..n], i);
      var j :| i < j < |before| && before[j] == Sync;
      assert RunEffects(l, ops)[j] == Sync;
    } else {
      assert es[i - |before|].Put?;
      SyncLast(Run(l, ops[..n]), ops[n], i - |before|);
      assert RunEffects(l, ops)[|before| + |es| - 1] == Sync;
    }
  }

  // ---- Bounds ----

  lemma SizeSplit(fs: seq<Frame>, k: nat)
    requires k <= |fs|
    ensures Size(fs) == Size(fs[..k]) + Size(fs[k..])
  {
    assert fs == fs[..k] + fs[k..];
    EncodeAllConcat(fs[..k], fs[k..]);
  }

  ghost predicate Bounded(q: Queue) {
    Size(q.live) <= q.max || |q.live| == 1
  }

  lemma StepBounded(q: Queue, op: Op)
    requires Bounded(q)
    ensures Bounded(QueueStep(q, op))
  {
    match op
    case OpAppend(f) =>
      ShortestIsShortest(q.live, MustFree(q, f));
      SizeSplit(q.live, Shortest(q.live, MustFree(q, f)));
      EncodeAllConcat(q.live, [f]);
      EncodeAllConcat(Survivors(q, f), [f]);
      assert Size([f]) == FRAME_HEADER_LEN + |f| by {
        assert [f][1..] == [];
      }
    case OpDrain =>
    case OpCommit =>
    case OpReopen =>
  }

  lemma {:induction false} QueueBounded(q: Queue, ops: seq<Op>)
    requires Bounded(q)
    ensures Bounded(QueueRun(q, ops))
  {
    if ops != [] {
      QueueBounded(q, ops[..|ops| - 1]);
      StepBounded(QueueRun(q, ops[..|ops| - 1]), ops[|ops| - 1]);
    }
  }

  lemma {:induction false} MaxFixed(l: Log, ops: seq<Op>)
    ensures Run(l, ops).max == l.max
  {
    if ops != [] {
      MaxFixed(l, ops[..|ops| - 1]);
    }
  }

  /** Over every run from a fresh buffer: within `max`, unless a single frame exceeds it alone. */
  lemma {:induction false} LiveBytesBounded(max: nat, ops: seq<Op>)
    requires SmallOps(ops)
    ensures var l := Run(Open(Disk([], 0), max), ops);
      && Bounded(View(l))
      && |l.Unread()| == Size(l.Live())
      && (|l.Unread()| <= max || |l.Live()| == 1)
  {
    var o := Open(Disk([], 0), max);
    FreshIsWellFormed(max);
    LogRefinesQueue(o, ops);
    QueueBounded(View(o), ops);
    var l := Run(o, ops);
    var dead := Taken(l);
    Made(dead, l.Kept(), l.Live(), l.max);
    MaxFixed(o, ops);
  }

  /** A drain pass is open: frames were handed out since the last commit. */
  predicate InPass(ops: seq<Op>) {
    ops != [] &&
    match ops[|ops| - 1]
    case OpDrain => true
    case OpCommit => false
    case OpAppend(_) => InPass(ops[..|ops| - 1])
    case OpReopen => InPass(ops[..|ops| - 1])
  }

  predicate HalfLive(l: Log) {
    l.cursor <= l.read <= |l.wal| && 2 * l.read <= |l.wal|
  }

  lemma StepInFile(l: Log, op: Op)
    requires l.cursor <= l.read <= |l.wal|
    ensures Step(l, op).cursor <= Step(l, op).read <= |Step(l, op).wal|
    ensures op.OpCommit? || (HalfLive(l) && !op.OpDrain?) ==> HalfLive(Step(l, op))
  {
    hide U32At, LE32;
  }

  /** Outside a drain pass the file is at most twice the live bytes. */
  lemma {:induction false} FileAtMostTwiceLive(max: nat, ops: seq<Op>)
    ensures var l := Run(Open(Disk([], 0), max), ops);
      && l.cursor <= l.read <= |l.wal|
      && (!InPass(ops) ==> |l.wal| <= 2 * |l.Unread()|)
  {
    var o := Open(Disk([], 0), max);
    if ops != [] {
      var before := ops[..|ops| - 1];
      FileAtMostTwiceLive(max, before);
      StepInFile(Run(o, before), ops[|ops| - 1]);
    }
  }

  // ---- Where the queue is not kept ----

  lemma WindowRun()
    ensures var a, b := Log([2, 0, 0, 0, 7, 8], 0, 0, 100), Log([2, 0, 0, 0, 7, 8, 0, 0, 0, 0], 0, 0, 100);
      && Append(Open(Disk([], 0), 100), [7, 8]) == a && Append(a, []) == b && DrainNext(b) == b.(read := 6)
  {
    var b := Log([2, 0, 0, 0, 7, 8, 0, 0, 0, 0], 0, 0, 100);
    assert First(b.Unread()) == [7, 8];
  }

  lemma RunThree(l: Log, a: Op, b: Op, c: Op)
    ensures Run(l, [a, b, c]) == Step(Step(Step(l, a), b), c)
  {
    hide Step;
    RunOne(l, a);
    assert [a, b, c][..2] == [a, b] && [a, b][..1] == [a];
  }

  lemma WindowEffects(l: Log)
    requires l == Log([2, 0, 0, 0, 7, 8, 0, 0, 0, 0], 0, 6, 100)
    ensures Effects(l, OpCommit) == [SetCursor(6), Rename([0, 0, 0, 0]), SetCursor(0)]
    ensures l.Live() == [[]] && Recovered(Disk([0, 0, 0, 0], 6)) == []
  {
    assert l.Unread() == [0, 0, 0, 0] == l.wal[6..];
    assert First([0, 0, 0, 0]) == [] && AfterFirst([0, 0, 0, 0]) == [];
    assert Parse([]) == [];
  }

  /** A short run that enters the window: consumed more than half, one frame live, and a crash finds nothing. */
  lemma WindowIsReached()
    ensures var l := Run(Open(Disk([], 0), 100), [OpAppend([7, 8]), OpAppend([]), OpDrain]);
      var es := Effects(l, OpCommit);
      && l == Log([2, 0, 0, 0, 7, 8, 0, 0, 0, 0], 0, 6, 100) && l.Live() == [[]]
      && es == [SetCursor(6), Rename([0, 0, 0, 0]), SetCursor(0)]
      && InCompactionWindow(es, 2)
      && CrashState(l, es, 2) == Disk([0, 0, 0, 0], 6) && Recovered(CrashState(l, es, 2)) == []
  {
    hide Append, DrainNext, Effects, Recovered, Parse, LE32, U32At;
    var o := Open(Disk([], 0), 100);
    var l := Log([2, 0, 0, 0, 7, 8, 0, 0, 0, 0], 0, 6, 100);
    WindowRun();
    RunThree(o, OpAppend([7, 8]), OpAppend([]), OpDrain);
    WindowEffects(l);
    var es := Effects(l, OpCommit);
    assert es[..2] == [SetCursor(6), Rename([0, 0, 0, 0])];
    ReplayTwo(l.Durable(), SetCursor(6), Rename([0, 0, 0, 0]));
  }

  /** `append` accepts any length, reading does not: a frame survives iff it is at most 256 MiB. */
  lemma AppendOversized(l: Log, f: Frame)
    requires WellFormed(l) && Fits(l, FRAME_HEADER_LEN + |f|)
    ensures Append(l, f).Live() == l.Live() + [f] <==> |f| <= 0x1000_0000
  {
    hide U32At, LE32;
    var dead := Taken(l);
    Made(dead, l.Kept(), l.Live(), l.max);
    assert Append(l, f).Unread() == EncodeAll(l.Live()) + Encode(f);
    ParseEncode(l.Live(), Encode(f));
    assert Encode(f) + [] == Encode(f);
    HeaderOfEncode(f, []);
    if |f| <= MAX_FRAME_LEN {
      FrameAtFront(f, []);
    } else {
      var got := Parse(Encode(f));
      assert got == [] || |got[0]| != |f|;
      assert Append(l, f).Live() == l.Live() + got;
      DropPrefix(l.Live(), got);
      DropPrefix(l.Live(), [f]);
    }
  }
}
