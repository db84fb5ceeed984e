/**
 A log whose end is torn: what draining, committing, crashing and appending do
 before a reader has skipped that end.
 */
module TornTail {
  import opened Bytes
  import opened Frames
  import opened Log
  import opened Fifo
  import opened Crash

  /** Whole frames, then a torn end, or none. */
  ghost predicate Readable(l: Log) {
    && l.cursor <= l.read <= |l.wal|
    && Rest(l.wal[l.cursor..l.read]) == []
    && Torn(Rest(l.wal[l.read..]))
  }

  function MakeTorn(dead: seq<byte>, kept: seq<Frame>, live: seq<Frame>, tail: seq<byte>, max: nat): Log {
    Log(dead + EncodeAll(kept) + EncodeAll(live) + tail, |dead|, |dead| + |EncodeAll(kept)|, max)
  }

  lemma TakenTorn(l: Log) returns (dead: seq<byte>)
    requires Readable(l)
    ensures l == MakeTorn(dead, l.Kept(), l.Live(), Rest(l.Unread()), l.max)
    ensures AllSmall(l.Kept()) && AllSmall(l.Live())
  {
    hide U32At, LE32, Torn, Parse, Rest, EncodeAll;
    dead := l.wal[..l.cursor];
    var a, b := l.wal[l.cursor..l.read], l.wal[l.read..];
    EncodeParse(a);
    EncodeParse(b);
    assert EncodeAll(Parse(a)) + [] == EncodeAll(Parse(a));
    Assoc(dead + a, EncodeAll(Parse(b)), Rest(b));
    Slices(l.wal, l.cursor, l.read);
  }

  lemma Middle<T>(a: seq<T>, b: seq<T>, c: seq<T>)
    ensures ((a + b) + c)[|a|..|a| + |b|] == b
  {
  }

  lemma Unreadable(tail: seq<byte>)
    requires !HasFrame(tail)
    ensures Parse(tail) == [] && Rest(tail) == tail
  {
  }

  /** What the parts of such a log are. */
  lemma MadeTorn(dead: seq<byte>, kept: seq<Frame>, live: seq<Frame>, tail: seq<byte>, max: nat)
    requires AllSmall(kept) && AllSmall(live) && Torn(tail)
    ensures var l := MakeTorn(dead, kept, live, tail, max);
      && Readable(l) && l.Kept() == kept && l.Live() == live && l.Unread() == EncodeAll(live) + tail
      && Rest(l.Unread()) == tail
  {
    hide U32At, LE32, Parse, Rest;
    var l := MakeTorn(dead, kept, live, tail, max);
    var front := dead + EncodeAll(kept);
    Assoc(front, EncodeAll(live), tail);
    DropPrefix(front, EncodeAll(live) + tail);
    Middle(dead, EncodeAll(kept), EncodeAll(live) + tail);
    ParseWhole(kept);
    ParseEncode(live, tail);
    Unreadable(tail);
    assert live + [] == live;
  }

  lemma RecoveredTorn(dead: seq<byte>, kept: seq<Frame>, live: seq<Frame>, tail: seq<byte>, max: nat)
    requires AllSmall(kept) && AllSmall(live) && Torn(tail)
    ensures Recovered(MakeTorn(dead, kept, live, tail, max).Durable()) == kept + live
    ensures Torn(Unrecoverable(MakeTorn(dead, kept, live, tail, max).Durable()))
  {
    hide Recovered, Unrecoverable, Torn;
    QuietDisk(dead, kept, live, tail);
  }

  // ---- Crashes while draining ----

  /** Persisting moves the cursor to the read position; the live frames and the end stay. */
  lemma PersistTorn(l: Log) returns (dead: seq<byte>)
    requires Readable(l)
    ensures Persist(l) == MakeTorn(dead, [], l.Live(), Rest(l.Unread()), l.max) && AllSmall(l.Live())
  {
    hide U32At, LE32, Torn;
    var d := TakenTorn(l);
    dead := d + EncodeAll(l.Kept());
    assert dead + [] == dead;
  }

  lemma FrontOnly(a: seq<byte>, b: seq<byte>, c: seq<byte>)
    ensures a + EncodeAll([]) + b + c == a + (b + c)
  {
    assert a + [] == a;
    Assoc(a, b, c);
  }

  /** Compacting such a log moves its live frames and its end to the front. */
  lemma CompactTorn(dead: seq<byte>, live: seq<Frame>, tail: seq<byte>, max: nat)
    requires AllSmall(live) && Torn(tail)
    ensures var l := MakeTorn(dead, [], live, tail, max);
      var es := MaybeCompactEffects(l);
      && (es == [] ==> MaybeCompact(l) == l)
      && (es != [] ==>
            && |es| == 2 && !es[1].Rename? && l.read > 0 && MaybeCompact(l) == MakeTorn([], [], live, tail, max)
            && (!es[0].Rename? ==> live == [] && tail == [])
            && (es[0].Rename? ==> es[0].wal == EncodeAll(live) + tail && l.read > |es[0].wal|))
  {
    hide U32At, LE32, Torn;
    var l := MakeTorn(dead, [], live, tail, max);
    var rest := EncodeAll(live) + tail;
    FrontOnly(dead, EncodeAll(live), tail);
    DropPrefix(dead, rest);
    if l.read == |l.wal| {
      SizeIsLength(live);
      assert |rest| == 0;
      assert live == [] && MakeTorn([], [], live, tail, max) == Log([], 0, 0, max);
    } else {
      FrontOnly([], EncodeAll(live), tail);
      assert [] + rest == rest;
    }
  }

  /** What a crash inside a drain or a commit may leave. */
  ghost predicate LegalTorn(l: Log, op: Op, found: seq<Frame>) {
    found == l.Kept() + l.Live() || ((op.OpCommit? || l.Live() == []) && found == l.Live())
  }

  /** As for whole logs; in the window nothing is found, which is wrong only if something was live. */
  ghost predicate AccountedTorn(l: Log, op: Op, es: seq<Effect>, k: nat)
    requires k <= |es|
  {
    var d := CrashState(l, es, k);
    && Torn(Unrecoverable(d))
    && (InCompactionWindow(es, k) ==> d.cursor > |d.wal| && Recovered(d) == [])
    && (LegalTorn(l, op, Recovered(d)) <==> !InCompactionWindow(es, k) || l.Live() == [])
  }

  lemma NoLive(kept: seq<Frame>, live: seq<Frame>)
    ensures [] == kept + live ==> live == []
    ensures [] + live == live
  {
  }

  lemma FirstEffectTorn(l: Log, e: Effect)
    requires e in MaybeCompactEffects(l) && MaybeCompactEffects(l)[0] == e
    requires l.read > 0 && (e.Rename? ==> l.read > |e.wal|) && (!e.Rename? ==> l.Unread() == [])
    requires l.cursor == l.read <= |l.wal|
    ensures var d := Apply(l.Durable(), e);
      && Recovered(d) == [] && Unrecoverable(d) == [] && Torn(Unrecoverable(d)) && (e.Rename? ==> d.cursor > |d.wal|)
  {
    hide U32At, LE32;
  }

  lemma CompactCrashTorn(dead: seq<byte>, live: seq<Frame>, tail: seq<byte>, max: nat, k: nat)
    requires AllSmall(live) && Torn(tail) && k <= |MaybeCompactEffects(MakeTorn(dead, [], live, tail, max))|
    ensures var l := MakeTorn(dead, [], live, tail, max);
      var es := MaybeCompactEffects(l);
      var d := CrashState(l, es, k);
      && Torn(Unrecoverable(d))
      && Recovered(d) == (if InCompactionWindow(es, k) then [] else live)
      && (InCompactionWindow(es, k) ==> d.cursor > |d.wal|)
  {
    hide U32At, LE32, Torn, MaybeCompactEffects, MaybeCompact, Recovered, Unrecoverable, Apply;
    var l := MakeTorn(dead, [], live, tail, max);
    var es := MaybeCompactEffects(l);
    MadeTorn(dead, [], live, tail, max);
    RecoveredTorn(dead, [], live, tail, max);
    RecoveredTorn([], [], live, tail, max);
    CompactTorn(dead, live, tail, max);
    NoLive([], live);
    if k == 0 {
      assert es[..0] == [];
    } else if k == 2 {
      assert es[..2] == es;
      MaybeCompactReplay(l);
    } else {
      assert es[..1] == [es[0]];
      ReplayOne(l.Durable(), es[0]);
      FirstEffectTorn(l, es[0]);
    }
  }

  /** A drain with a durable effect has met the torn end: it makes the end of the file durable. */
  lemma TornDrain(l: Log)
    requires Readable(l) && DrainNextEffects(l) != []
    ensures l.Live() == [] && DrainNextEffects(l) == [SetCursor(|l.wal|)]
    ensures var d := Apply(l.Durable(), SetCursor(|l.wal|)); Recovered(d) == [] && Torn(Unrecoverable(d))
  {
    hide U32At, LE32;
  }

  lemma PersistedAtMostOnce(l: Log)
    ensures |PersistEffects(l)| <= 1 && forall i :: 0 <= i < |PersistEffects(l)| ==> !PersistEffects(l)[i].Rename?
  {
  }

  lemma CommitCrashTorn(l: Log, k: nat)
    requires Readable(l) && 0 < k <= |CommitEffects(l)|
    ensures AccountedTorn(l, OpCommit, CommitEffects(l), k)
  {
    hide U32At, LE32, Torn, Recovered, Unrecoverable, MaybeCompactEffects, PersistEffects;
    var es := CommitEffects(l);
    var ps, cs := PersistEffects(l), MaybeCompactEffects(Persist(l));
    var dead := PersistTorn(l);
    var tail := Rest(l.Unread());
    NoLive(l.Kept(), l.Live());
    TakeFromConcat(ps, cs, k);
    PersistReplay(l);
    PersistedAtMostOnce(l);
    if k <= |ps| {
      assert ps[..k] == ps;
      RecoveredTorn(dead, [], l.Live(), tail, l.max);
    } else {
      var j := k - |ps|;
      ReplayConcat(l.Durable(), ps, cs[..j]);
      CompactCrashTorn(dead, l.Live(), tail, l.max, j);
      assert es[k - 1] == cs[j - 1];
    }
  }

  /** At least once, also before a torn end has been skipped: a crash inside a drain or a commit. */
  lemma CrashBehindTail(l: Log, op: Op, k: nat)
    requires Readable(l) && (op.OpDrain? || op.OpCommit?) && k <= |Effects(l, op)|
    ensures AccountedTorn(l, op, Effects(l, op), k)
  {
    hide U32At, LE32, Torn, Recovered, Unrecoverable, MaybeCompactEffects;
    var es := Effects(l, op);
    var dead := TakenTorn(l);
    RecoveredTorn(dead, l.Kept(), l.Live(), Rest(l.Unread()), l.max);
    NoLive(l.Kept(), l.Live());
    assert es[..0] == [];
    if k > 0 {
      if op.OpDrain? {
        TornDrain(l);
        assert es[..1] == es;
        ReplayOne(l.Durable(), es[0]);
      } else {
        CommitCrashTorn(l, k);
      }
    }
  }

  lemma OneFrameOn(dead: seq<byte>, kept: seq<Frame>, f: Frame, live: seq<Frame>, tail: seq<byte>, max: nat)
    requires AllSmall(kept) && AllSmall([f] + live) && Torn(tail)
    ensures DrainNext(MakeTorn(dead, kept, [f] + live, tail, max)) == MakeTorn(dead, kept + [f], live, tail, max)
  {
    hide U32At, LE32, Torn;
    var l := MakeTorn(dead, kept, [f] + live, tail, max);
    var front, rest := dead + EncodeAll(kept), EncodeAll(live) + tail;
    EncodeCons(f, live);
    EncodeAllConcat(kept, [f]);
    EncodeCons(f, []);
    assert [f] + [] == [f] && Encode(f) + EncodeAll([]) == Encode(f);
    Assoc(dead, EncodeAll(kept), Encode(f));
    Assoc(front, Encode(f), EncodeAll(live));
    Assoc(front, Encode(f) + EncodeAll(live), tail);
    Assoc(Encode(f), EncodeAll(live), tail);
    assert l.wal == front + (Encode(f) + rest);
    DropPrefix(front, Encode(f) + rest);
    assert l.Unread() == Encode(f) + rest;
    assert Small(f) by {
      assert ([f] + live)[0] == f;
    }
    FrameAtFront(f, rest);
    HeaderOfEncode(f, rest);
  }

  lemma DrainReadable(l: Log)
    requires Readable(l) && l.Live() != []
    ensures Readable(DrainNext(l)) && DrainNext(l).Live() == l.Live()[1..]
  {
    hide U32At, LE32, Torn, DrainNext;
    var dead := TakenTorn(l);
    var kept, live, tail := l.Kept(), l.Live(), Rest(l.Unread());
    var f: Frame := live[0];
    DrainPops(l);
    EncodeFirst(l.Unread());
    MadeTorn(dead, kept, live, tail, l.max);
    assert live == [f] + live[1..];
    EncodeAllConcat(kept, [f]);
    MadeTorn(dead, kept + [f], live[1..], tail, l.max);
    OneFrameOn(dead, kept, f, live[1..], tail, l.max);
  }

  lemma DrainedReadable(l: Log)
    requires Readable(l) && l.Live() == []
    ensures Readable(DrainNext(l)) && DrainNext(l).Live() == []
  {
    hide U32At, LE32;
  }

  /** Draining and committing lead from one such log to the next. */
  lemma StaysReadable(l: Log, op: Op)
    requires Readable(l) && (op.OpDrain? || op.OpCommit?)
    ensures Readable(Step(l, op))
    ensures op.OpCommit? ==> Step(l, op).Live() == l.Live()
    ensures op.OpDrain? ==> Step(l, op).Live() == if l.Live() == [] then [] else l.Live()[1..]
  {
    hide U32At, LE32, Torn;
    if op.OpCommit? {
      var dead := PersistTorn(l);
      var tail := Rest(l.Unread());
      CompactTorn(dead, l.Live(), tail, l.max);
      MadeTorn(dead, [], l.Live(), tail, l.max);
      MadeTorn([], [], l.Live(), tail, l.max);
    } else if l.Live() != [] {
      DrainReadable(l);
    } else {
      DrainedReadable(l);
    }
  }

  /** Whatever a crash leaves, a restart has such a log. */
  lemma RestartIsReadable(d: Disk, max: nat)
    requires Torn(Unrecoverable(d))
    ensures Readable(Open(d, max)) && Open(d, max).Live() == Recovered(d) && Open(d, max).Kept() == []
  {
    hide U32At, LE32;
  }

  ghost predicate Draining(ops: seq<Op>) {
    forall i :: 0 <= i < |ops| ==> ops[i].OpDrain? || ops[i].OpCommit?
  }

  lemma {:induction false} DrainingKeeps(l: Log, ops: seq<Op>, op: Op)
    requires Readable(l) && Draining(ops + [op])
    ensures Readable(Run(l, ops))
  {
    hide Step, Readable;
    if ops != [] {
      var n := |ops| - 1;
      assert Draining(ops[..n] + [ops[n]]) by {
        assert ops[..n] + [ops[n]] == (ops + [op])[..n + 1];
      }
      assert (ops + [op])[n] == ops[n];
      DrainingKeeps(l, ops[..n], ops[n]);
      StaysReadable(Run(l, ops[..n]), ops[n]);
    }
  }

  /** A crash anywhere while a restarted worker drains and commits, so that crashes may follow one another. */
  lemma {:induction false} CrashAfterRestart(d: Disk, max: nat, ops: seq<Op>, op: Op, k: nat)
    requires Torn(Unrecoverable(d)) && Draining(ops + [op])
    requires k <= |Effects(Run(Open(d, max), ops), op)|
    ensures Readable(Run(Open(d, max), ops))
    ensures AccountedTorn(Run(Open(d, max), ops), op, Effects(Run(Open(d, max), ops), op), k)
  {
    hide Effects, Step, Readable, AccountedTorn, Unrecoverable, Torn;
    RestartIsReadable(d, max);
    DrainingKeeps(Open(d, max), ops, op);
    assert (ops + [op])[|ops|] == op;
    CrashBehindTail(Run(Open(d, max), ops), op, k);
  }

  // ---- Appending before a torn end has been skipped ----

  lemma EvictQuiet(l: Log, needed: nat)
    requires l.cursor <= l.read <= |l.wal| && Rest(l.wal[l.cursor..l.read]) == []
    ensures var e := Evict(l, needed);
      e.cursor <= e.read <= |e.wal| && Rest(e.wal[e.cursor..e.read]) == []
  {
    hide U32At, LE32;
  }

  lemma SameFront<T>(a: seq<T>, b: seq<T>, c: seq<T>)
    ensures a + b == a + c <==> b == c
  {
    if a + b == a + c {
      assert (a + b)[|a|..] == b && (a + c)[|a|..] == c;
    }
  }

  /** Bytes before a frame are read as nothing but that frame only if there are none. */
  lemma FrameAlone(t: seq<byte>, f: Frame)
    requires Small(f)
    ensures Rest(t + Encode(f)) == [] && Parse(t + Encode(f)) == [f] <==> t == []
  {
    hide U32At, LE32;
    var s := t + Encode(f);
    EncodeParse(s);
    assert |EncodeAll(Parse(s))| + |Rest(s)| == |s|;
    EncodeCons(f, []);
    assert [f] + [] == [f];
    if t == [] {
      assert s == Encode(f) + [];
      ParseCons(f, []);
    }
  }

  /**
   `append` does not look at the end of the log: it adds its frame behind the live
   ones if and only if no torn end is left once eviction is done.
   */
  lemma AppendBehindTail(l: Log, f: Frame)
    requires l.cursor <= l.read <= |l.wal| && Rest(l.wal[l.cursor..l.read]) == [] && Small(f)
    ensures var e := Evict(l, FRAME_HEADER_LEN + |f|);
      WellFormed(Append(l, f)) && Append(l, f).Live() == e.Live() + [f] <==> Rest(e.Unread()) == []
  {
    hide U32At, LE32, Evict;
    var e := Evict(l, FRAME_HEADER_LEN + |f|);
    EvictQuiet(l, FRAME_HEADER_LEN + |f|);
    var a := Append(l, f);
    var u, t := e.Unread(), Rest(e.Unread());
    EncodeParse(u);
    assert a.Unread() == u + Encode(f);
    assert a.wal[a.cursor..a.read] == e.wal[e.cursor..e.read];
    assert a.wal[a.read..] == a.Unread();
    Assoc(EncodeAll(e.Live()), t, Encode(f));
    ParseEncode(e.Live(), t + Encode(f));
    SameFront(e.Live(), Parse(t + Encode(f)), [f]);
    FrameAlone(t, f);
  }

  lemma NoScan(u: seq<byte>, need: int)
    requires need <= 0
    ensures Scan(u, need) == 0 && From(u, 0) == u
  {
  }

  /** The walk ends at a torn end: past it if it has a header, or before it. */
  lemma ScanEnd(t: seq<byte>, need: int)
    requires need > 0 && !HasFrame(t)
    ensures Rest(From(t, Scan(t, need))) == [] <==> t == [] || (|t| >= FRAME_HEADER_LEN && Header(t) <= MAX_FRAME_LEN)
  {
    hide U32At, LE32;
    Unreadable(t);
    assert From(t, 0) == t;
    if |t| >= FRAME_HEADER_LEN && Header(t) <= MAX_FRAME_LEN {
      var n := FRAME_HEADER_LEN + Header(t);
      assert From(t, n) == [];
      assert Scan([], need - n) == 0;
    }
  }

  lemma FromMore(u: seq<byte>, n: nat, m: nat)
    requires n <= |u|
    ensures From(From(u, n), m) == From(u, n + m)
  {
  }

  /** The header walk over frames and a torn end. */
  lemma {:induction false} ScanTorn(fs: seq<Frame>, t: seq<byte>, need: int)
    requires AllSmall(fs) && !HasFrame(t)
    ensures var u := EncodeAll(fs) + t;
      Rest(From(u, Scan(u, need))) == []
      <==> t == [] || (need > Size(fs) && |t| >= FRAME_HEADER_LEN && Header(t) <= MAX_FRAME_LEN)
  {
    hide U32At, LE32, Encode, Header, Scan;
    var u := EncodeAll(fs) + t;
    if need <= 0 {
      NoScan(u, need);
      ParseEncode(fs, t);
      Unreadable(t);
    } else if fs == [] {
      assert u == t;
      ScanEnd(t, need);
    } else {
      var more := EncodeAll(fs[1..]) + t;
      Assoc(Encode(fs[0]), EncodeAll(fs[1..]), t);
      var n := FRAME_HEADER_LEN + |fs[0]|;
      ScanStep(fs[0], more, need);
      DropPrefix(Encode(fs[0]), more);
      assert From(u, n) == more;
      ScanTorn(fs[1..], t, need - n);
      FromMore(u, n, Scan(more, need - n));
    }
  }

  lemma CompactKeepsUnread(l: Log)
    requires l.read <= |l.wal|
    ensures MaybeCompact(l).Unread() == l.Unread()
  {
  }

  /**
   When the torn end is gone after eviction: there was none, or even alone it left no
   room and its header could be walked.
   */
  lemma EvictedTail(l: Log, needed: nat)
    requires l.cursor <= l.read <= |l.wal|
    ensures var t := Rest(l.Unread());
      Rest(Evict(l, needed).Unread()) == []
      <==> t == [] || (|t| + needed > l.max && |t| >= FRAME_HEADER_LEN && Header(t) <= MAX_FRAME_LEN)
  {
    hide U32At, LE32, Scan, MaybeCompact;
    var u := l.Unread();
    var t := Rest(u);
    EncodeParse(u);
    SizeIsLength(l.Live());
    if !Fits(l, needed) {
      var need := |u| + needed - l.max;
      ScanTorn(l.Live(), t, need);
      FromMore(l.wal, l.read, Scan(u, need));
      var m := Skipped(l, needed);
      assert m.Unread() == From(l.wal, l.read + Scan(u, need));
      CompactKeepsUnread(m);
    }
  }

  lemma FirstFrame()
    ensures Encode([1, 2, 3, 4, 5]) == [5, 0, 0, 0, 1, 2, 3, 4, 5]
  {
  }

  lemma NothingToEvict(l: Log, needed: nat)
    requires Fits(l, needed)
    ensures EvictEffects(l, needed) == []
  {
  }

  lemma FirstAppend()
    ensures Effects(Open(Disk([], 0), 100), OpAppend([1, 2, 3, 4, 5])) == Puts([5, 0, 0, 0, 1, 2, 3, 4, 5]) + [Sync]
  {
    hide Encode, EvictEffects, Puts;
    var o := Open(Disk([], 0), 100);
    FirstFrame();
    NothingToEvict(o, 9);
    assert [] + Puts(Encode([1, 2, 3, 4, 5])) == Puts(Encode([1, 2, 3, 4, 5]));
  }

  lemma PutsPrefix(a: seq<byte>, b: seq<byte>)
    ensures Puts(a + b)[..|a|] == Puts(a)
  {
  }

  lemma Swallowed()
    ensures Append(Log([5, 0, 0, 0], 0, 0, 100), [9]).Live() == [[1, 0, 0, 0, 9]]
  {
    var w := Append(Log([5, 0, 0, 0], 0, 0, 100), [9]).wal;
    assert w == [5, 0, 0, 0, 1, 0, 0, 0, 9];
    assert First(w) == [1, 0, 0, 0, 9];
    assert AfterFirst(w) == [];
  }

  /**
   The first four bytes of a five-byte frame are what a crash in its append can
   leave; after the restart that torn end swallows the next append.
   */
  lemma TornTailSwallows()
    ensures var o := Open(Disk([], 0), 100);
      var es := Effects(o, OpAppend([1, 2, 3, 4, 5]));
      var l := Log([5, 0, 0, 0], 0, 0, 100);
      && 4 <= |es| && CrashState(o, es, 4) == Disk([5, 0, 0, 0], 0)
      && Open(CrashState(o, es, 4), 100) == l
      && Append(l, [9]).Live() == [[1, 0, 0, 0, 9]]
  {
    hide Effects, Append, Parse, Puts, LE32, U32At, Replay;
    var o := Open(Disk([], 0), 100);
    var es := Effects(o, OpAppend([1, 2, 3, 4, 5]));
    FirstAppend();
    assert es[..4] == Puts([5, 0, 0, 0, 1, 2, 3, 4, 5])[..4];
    PutsPrefix([5, 0, 0, 0], [1, 2, 3, 4, 5]);
    assert [5, 0, 0, 0] + [1, 2, 3, 4, 5] == [5, 0, 0, 0, 1, 2, 3, 4, 5];
    ReplayPuts(Disk([], 0), [5, 0, 0, 0]);
    Swallowed();
  }
}
