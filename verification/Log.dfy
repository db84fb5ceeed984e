/**
 The write-ahead log as bytes: what each operation of the disk buffer does to
 the file, to the durable cursor and to the positions held in memory, and the
 sequence of durable effects it performs on the way.
 */
module Log {
  import opened Bytes
  import opened Frames

  /** What survives a crash: the file and the cursor (a missing cursor file reads as 0). */
  datatype Disk = Disk(wal: seq<byte>, cursor: nat)

  /** One durable step. A crash can fall between any two of them. */
  datatype Effect =
    | Put(b: byte)
    | Sync
    | Rename(wal: seq<byte>)
    | Truncate
    | SetCursor(pos: nat)

  function Apply(d: Disk, e: Effect): Disk {
    match e
    case Put(b) => d.(wal := d.wal + [b])
    case Sync => d
    case Rename(w) => d.(wal := w)
    case Truncate => d.(wal := [])
    case SetCursor(p) => d.(cursor := p)
  }

  function Replay(d: Disk, es: seq<Effect>): Disk {
    if es == [] then d else Apply(Replay(d, es[..|es| - 1]), es[|es| - 1])
  }

  lemma {:induction false} ReplayConcat(d: Disk, a: seq<Effect>, b: seq<Effect>)
    ensures Replay(d, a + b) == Replay(Replay(d, a), b)
  {
    if b == [] {
      assert a + b == a;
    } else {
      var c := b[..|b| - 1];
      assert (a + b)[..|a + b| - 1] == a + c;
      ReplayConcat(d, a, c);
    }
  }

  /** The state of an open buffer. `cursor` is the value last written to disk. */
  datatype Log = Log(wal: seq<byte>, cursor: nat, read: nat, max: nat) {
    function Durable(): Disk {
      Disk(wal, cursor)
    }

    /** Bytes from the read position to the end of the file. */
    function Unread(): seq<byte> {
      From(wal, read)
    }

    function Live(): seq<Frame> {
      Parse(Unread())
    }

    /** Frames handed out since the cursor was last made durable. */
    function Kept(): seq<Frame> {
      if cursor <= read <= |wal| then Parse(wal[cursor..read]) else []
    }
  }

  /** The frames a restart finds: `open` clamps the cursor, then draining parses. */
  function Recovered(d: Disk): seq<Frame> {
    Parse(From(d.wal, d.cursor))
  }

  // ---- Operations ----

  function Open(d: Disk, max: nat): Log {
    if d.cursor > |d.wal| then Log(d.wal, |d.wal|, |d.wal|, max) else Log(d.wal, d.cursor, d.cursor, max)
  }

  function OpenEffects(d: Disk): seq<Effect> {
    if d.cursor > |d.wal| then [SetCursor(|d.wal|)] else []
  }

  function Compact(l: Log): Log {
    if l.read == 0 then l
    else if l.read >= |l.wal| then Log([], 0, 0, l.max)
    else Log(l.wal[l.read..], 0, 0, l.max)
  }

  function CompactEffects(l: Log): seq<Effect> {
    if l.read == 0 then []
    else if l.read >= |l.wal| then [Truncate, SetCursor(0)]
    else [Rename(l.wal[l.read..]), SetCursor(0)]
  }

  /** More than half of the file is consumed. */
  predicate WorthCompacting(l: Log) {
    |l.wal| > 0 && 2 * l.read > |l.wal|
  }

  function MaybeCompact(l: Log): Log {
    if WorthCompacting(l) then Compact(l) else l
  }

  function MaybeCompactEffects(l: Log): seq<Effect> {
    if WorthCompacting(l) then CompactEffects(l) else []
  }

  /** Bytes skipped by walking whole headers from the front of `s` until `need` is met. */
  function Scan(s: seq<byte>, need: int): nat
    decreases |s|
  {
    if need <= 0 || |s| < FRAME_HEADER_LEN || Header(s) > MAX_FRAME_LEN then 0
    else
      var n := FRAME_HEADER_LEN + Header(s);
      n + Scan(From(s, n), need - n)
  }

  predicate Fits(l: Log, needed: nat) {
    |l.Unread()| + needed <= l.max
  }

  /** Bytes `evict_if_needed` reports as freed. */
  function Freed(l: Log, needed: nat): nat {
    if Fits(l, needed) then 0 else Scan(l.Unread(), |l.Unread()| + needed - l.max)
  }

  /** The log after the eviction loop has moved and persisted the cursor. */
  function Skipped(l: Log, needed: nat): Log {
    var r := l.read + Freed(l, needed);
    var to := if r <= |l.wal| then r else |l.wal|;
    l.(read := to, cursor := to)
  }

  function Evict(l: Log, needed: nat): Log {
    if Fits(l, needed) then l else MaybeCompact(Skipped(l, needed))
  }

  function EvictEffects(l: Log, needed: nat): seq<Effect> {
    if Fits(l, needed) then []
    else [SetCursor(Skipped(l, needed).read)] + MaybeCompactEffects(Skipped(l, needed))
  }

  function Puts(s: seq<byte>): (es: seq<Effect>)
    ensures |es| == |s|
  {
    seq(|s|, i requires 0 <= i < |s| => Put(s[i]))
  }

  function Append(l: Log, f: Frame): Log {
    var e := Evict(l, FRAME_HEADER_LEN + |f|);
    e.(wal := e.wal + Encode(f))
  }

  function AppendEffects(l: Log, f: Frame): seq<Effect> {
    EvictEffects(l, FRAME_HEADER_LEN + |f|) + Puts(Encode(f)) + [Sync]
  }

  /** What a drain step hands back: a frame, nothing, or a corruption error. */
  datatype Drained = Got(frame: Frame) | Empty | Corrupt

  function DrainResult(l: Log): Drained {
    var s := l.Unread();
    if HasFrame(s) then Got(First(s))
    else if |s| >= FRAME_HEADER_LEN && Header(s) > MAX_FRAME_LEN then Corrupt
    else Empty
  }

  function DrainNext(l: Log): Log {
    var s := l.Unread();
    if s == [] then l
    else if HasFrame(s) then l.(read := l.read + FRAME_HEADER_LEN + Header(s))
    else l.(read := |l.wal|, cursor := |l.wal|)
  }

  function DrainNextEffects(l: Log): seq<Effect> {
    if l.Unread() == [] || HasFrame(l.Unread()) then [] else [SetCursor(|l.wal|)]
  }

  function Persist(l: Log): Log {
    l.(cursor := l.read)
  }

  function PersistEffects(l: Log): seq<Effect> {
    if l.read == l.cursor then [] else [SetCursor(l.read)]
  }

  function Commit(l: Log): Log {
    MaybeCompact(Persist(l))
  }

  function CommitEffects(l: Log): seq<Effect> {
    PersistEffects(l) + MaybeCompactEffects(Persist(l))
  }

  // ---- Runs ----

  /** `Reopen` is a clean stop (the cursor is persisted on drop) followed by `open`. */
  datatype Op = OpAppend(frame: Frame) | OpDrain | OpCommit | OpReopen

  function Step(l: Log, op: Op): Log {
    match op
    case OpAppend(f) => Append(l, f)
    case OpDrain => DrainNext(l)
    case OpCommit => Commit(l)
    case OpReopen => Open(Persist(l).Durable(), l.max)
  }

  function Effects(l: Log, op: Op): seq<Effect> {
    match op
    case OpAppend(f) => AppendEffects(l, f)
    case OpDrain => DrainNextEffects(l)
    case OpCommit => CommitEffects(l)
    case OpReopen => PersistEffects(l) + OpenEffects(Persist(l).Durable())
  }

  function Output(l: Log, op: Op): seq<Frame> {
    if op.OpDrain? && DrainResult(l).Got? then [DrainResult(l).frame] else []
  }

  function Run(l: Log, ops: seq<Op>): Log {
    if ops == [] then l else Step(Run(l, ops[..|ops| - 1]), ops[|ops| - 1])
  }

  function Outputs(l: Log, ops: seq<Op>): seq<Frame> {
    if ops == [] then []
    else Outputs(l, ops[..|ops| - 1]) + Output(Run(l, ops[..|ops| - 1]), ops[|ops| - 1])
  }

  function RunEffects(l: Log, ops: seq<Op>): seq<Effect> {
    if ops == [] then []
    else RunEffects(l, ops[..|ops| - 1]) + Effects(Run(l, ops[..|ops| - 1]), ops[|ops| - 1])
  }

  function Drains(n: nat): (ops: seq<Op>)
    ensures |ops| == n
  {
    seq(n, _ => OpDrain)
  }

  lemma {:induction false} RunConcat(l: Log, a: seq<Op>, b: seq<Op>)
    ensures Run(l, a + b) == Run(Run(l, a), b)
    ensures Outputs(l, a + b) == Outputs(l, a) + Outputs(Run(l, a), b)
  {
    hide Step, Output;
    if b == [] {
      assert a + b == a;
    } else {
      var n := |b| - 1;
      assert (a + b)[..|a + b| - 1] == a + b[..n];
      RunConcat(l, a, b[..n]);
      Assoc(Outputs(l, a), Outputs(Run(l, a), b[..n]), Output(Run(Run(l, a), b[..n]), b[n]));
    }
  }

  lemma RunOne(l: Log, op: Op)
    ensures Run(l, [op]) == Step(l, op) && Outputs(l, [op]) == Output(l, op)
  {
    hide Step, Output;
    assert [op][..0] == [];
    assert Run(l, []) == l && Outputs(l, []) == [];
  }

  lemma DrainOneMore(l: Log, n: nat)
    ensures Run(l, Drains(n + 1)) == DrainNext(Run(l, Drains(n)))
    ensures Outputs(l, Drains(n + 1)) == Outputs(l, Drains(n)) + Output(Run(l, Drains(n)), OpDrain)
  {
    assert Drains(n + 1)[..n] == Drains(n);
  }

  // ---- The effects are what the operations do to the disk ----

  lemma {:induction false} ReplayPuts(d: Disk, s: seq<byte>)
    ensures Replay(d, Puts(s)) == d.(wal := d.wal + s)
  {
    if s == [] {
      assert d.wal + s == d.wal;
    } else {
      var n := |s| - 1;
      ReplayPuts(d, s[..n]);
      assert Puts(s)[..n] == Puts(s[..n]);
      Assoc(d.wal, s[..n], [s[n]]);
      assert s[..n] + [s[n]] == s;
    }
  }

  lemma ReplayOne(d: Disk, e: Effect)
    ensures Replay(d, [e]) == Apply(d, e)
  {
    assert [e][..0] == [];
    assert Replay(d, []) == d;
  }

  lemma ReplayTwo(d: Disk, e: Effect, f: Effect)
    ensures Replay(d, [e, f]) == Apply(Apply(d, e), f)
  {
    assert [e, f][..1] == [e];
    ReplayOne(d, e);
  }

  lemma MaybeCompactReplay(l: Log)
    ensures Replay(l.Durable(), MaybeCompactEffects(l)) == MaybeCompact(l).Durable()
  {
    var es := MaybeCompactEffects(l);
    if |es| == 2 {
      ReplayTwo(l.Durable(), es[0], es[1]);
      assert es == [es[0], es[1]];
    }
  }

  lemma PersistReplay(l: Log)
    ensures Replay(l.Durable(), PersistEffects(l)) == Persist(l).Durable()
  {
    ReplayOne(l.Durable(), SetCursor(l.read));
  }

  lemma EvictReplay(l: Log, needed: nat)
    ensures Replay(l.Durable(), EvictEffects(l, needed)) == Evict(l, needed).Durable()
  {
    if !Fits(l, needed) {
      var m := Skipped(l, needed);
      ReplayOne(l.Durable(), SetCursor(m.read));
      ReplayConcat(l.Durable(), [SetCursor(m.read)], MaybeCompactEffects(m));
      MaybeCompactReplay(m);
    }
  }

  lemma AppendReplay(l: Log, f: Frame)
    ensures Replay(l.Durable(), AppendEffects(l, f)) == Append(l, f).Durable()
  {
    var needed := FRAME_HEADER_LEN + |f|;
    var e := Evict(l, needed);
    EvictReplay(l, needed);
    ReplayPuts(e.Durable(), Encode(f));
    ReplayOne(Append(l, f).Durable(), Sync);
    ReplayConcat(l.Durable(), EvictEffects(l, needed), Puts(Encode(f)));
    ReplayConcat(l.Durable(), EvictEffects(l, needed) + Puts(Encode(f)), [Sync]);
  }

  lemma StepReplay(l: Log, op: Op)
    ensures Replay(l.Durable(), Effects(l, op)) == Step(l, op).Durable()
  {
    match op
    case OpAppend(f) => AppendReplay(l, f);
    case OpDrain =>
      ReplayOne(l.Durable(), SetCursor(|l.wal|));
    case OpCommit =>
      PersistReplay(l);
      ReplayConcat(l.Durable(), PersistEffects(l), MaybeCompactEffects(Persist(l)));
      MaybeCompactReplay(Persist(l));
    case OpReopen =>
      var d := Persist(l).Durable();
      PersistReplay(l);
      ReplayConcat(l.Durable(), PersistEffects(l), OpenEffects(d));
      ReplayOne(d, SetCursor(|d.wal|));
  }

  /** The disk after a run is the disk before it with all recorded effects applied. */
  lemma {:induction false} RunReplay(l: Log, ops: seq<Op>)
    ensures Replay(l.Durable(), RunEffects(l, ops)) == Run(l, ops).Durable()
  {
    if ops != [] {
      var before := ops[..|ops| - 1];
      var op := ops[|ops| - 1];
      RunReplay(l, before);
      StepReplay(Run(l, before), op);
      ReplayConcat(l.Durable(), RunEffects(l, before), Effects(Run(l, before), op));
    }
  }
}
