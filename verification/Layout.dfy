/**
 The bytes of a FlatBuffers table in closed form: vtable, inline fields with
 their final offsets, then strings, blobs and sub-structures. No placeholders
 and no patching: that is how the encoders get there.
 */
module Layout {
  import opened Wrappers
  import opened Bytes
  import opened Frames
  import opened Reader

  // ---- Where bytes stand ----

  predicate At(b: seq<byte>, i: nat, x: seq<byte>) {
    i + |x| <= |b| && b[i..i + |x|] == x
  }

  lemma AtSelf(x: seq<byte>)
    ensures At(x, 0, x)
  {
  }

  lemma AtLeft(a: seq<byte>, b: seq<byte>, i: nat, x: seq<byte>)
    requires At(a, i, x)
    ensures At(a + b, i, x)
  {
    var s := (a + b)[i..i + |x|];
    assert forall k :: 0 <= k < |x| ==> s[k] == (a + b)[i + k] == a[i..i + |x|][k];
  }

  lemma AtRight(a: seq<byte>, b: seq<byte>, i: nat, x: seq<byte>)
    requires At(b, i, x)
    ensures At(a + b, |a| + i, x)
  {
    var s := (a + b)[|a| + i..|a| + i + |x|];
    assert forall k :: 0 <= k < |x| ==> s[k] == (a + b)[|a| + i + k] == b[i + k] == b[i..i + |x|][k];
  }

  lemma Element(b: seq<byte>, i: nat, x: seq<byte>, k: nat)
    requires At(b, i, x) && k < |x|
    ensures b[i + k] == x[k]
  {
    assert b[i..i + |x|][k] == b[i + k];
  }

  lemma AtIn(b: seq<byte>, i: nat, x: seq<byte>, j: nat, y: seq<byte>)
    requires At(b, i, x) && At(x, j, y)
    ensures At(b, i + j, y)
  {
    var s := b[i + j..i + j + |y|];
    forall k | 0 <= k < |y|
      ensures s[k] == y[k]
    {
      Element(x, j, y, k);
      Element(b, i, x, j + k);
    }
  }

  lemma ReadsU8(b: seq<byte>, i: nat, v: nat)
    requires v < 256 && At(b, i, [v])
    ensures ReadU8(b, i) == Some(v)
  {
    assert b[i] == b[i..i + 1][0];
  }

  lemma ReadsU16(b: seq<byte>, i: nat, v: nat)
    requires v < TWO_16 && At(b, i, LE16(v))
    ensures ReadU16(b, i) == Some(v)
  {
    LE16RoundTrip(v);
    hide LE16;
    Element(b, i, LE16(v), 0); Element(b, i, LE16(v), 1);
    assert U16At(b, i) == U16At(LE16(v), 0);
  }

  lemma ReadsU32(b: seq<byte>, i: nat, v: nat)
    requires v < TWO_32 && At(b, i, LE32(v))
    ensures ReadU32(b, i) == Some(v)
  {
    LE32RoundTrip(v);
    hide LE32;
    Element(b, i, LE32(v), 0); Element(b, i, LE32(v), 1); Element(b, i, LE32(v), 2); Element(b, i, LE32(v), 3);
    assert U32At(b, i) == U32At(LE32(v), 0);
  }

  lemma ReadsU64(b: seq<byte>, i: nat, v: nat)
    requires v < TWO_64 && At(b, i, LE64(v))
    ensures ReadU64(b, i) == Some(v)
  {
    LE64RoundTrip(v);
    hide LE64;
    Element(b, i, LE64(v), 0); Element(b, i, LE64(v), 1); Element(b, i, LE64(v), 2); Element(b, i, LE64(v), 3);
    Element(b, i, LE64(v), 4); Element(b, i, LE64(v), 5); Element(b, i, LE64(v), 6); Element(b, i, LE64(v), 7);
    assert U64At(b, i) == U64At(LE64(v), 0);
  }

  // ---- Inline fields ----

  datatype Field = U8(v: nat) | U16(v: nat) | U32(v: nat) | U64(v: nat) | Zeros(n: nat)

  function Zeroes(n: nat): (s: seq<byte>)
    ensures |s| == n
  {
    seq(n, _ => 0)
  }

  function Width(f: Field): nat {
    match f
    case U8(_) => 1
    case U16(_) => 2
    case U32(_) => 4
    case U64(_) => 8
    case Zeros(n) => n
  }

  /** Offsets are cast to 32 bits on the way in. */
  function FieldBytes(f: Field): (s: seq<byte>)
    ensures |s| == Width(f)
  {
    match f
    case U8(v) => [Low(v)]
    case U16(v) => LE16(v)
    case U32(v) => LE32(AsU32(v))
    case U64(v) => LE64(v)
    case Zeros(n) => Zeroes(n)
  }

  function Inline(fs: seq<Field>): seq<byte> {
    if fs == [] then [] else Inline(fs[..|fs| - 1]) + FieldBytes(fs[|fs| - 1])
  }

  /** The offset of field `i`; for `i == |fs|`, the total width. */
  function Off(fs: seq<Field>, i: nat): nat
    requires i <= |fs|
  {
    if i == 0 then 0 else Off(fs, i - 1) + Width(fs[i - 1])
  }

  lemma {:induction false} OffPrefix(a: seq<Field>, b: seq<Field>, i: nat)
    requires i <= |a| && i <= |b| && a[..i] == b[..i]
    ensures Off(a, i) == Off(b, i)
  {
    if i > 0 {
      assert a[..i][..i - 1] == a[..i - 1] && b[..i][..i - 1] == b[..i - 1];
      assert a[i - 1] == a[..i][i - 1] == b[..i][i - 1] == b[i - 1];
      OffPrefix(a, b, i - 1);
    }
  }

  lemma {:induction false} InlineLength(fs: seq<Field>)
    ensures |Inline(fs)| == Off(fs, |fs|)
  {
    if fs != [] {
      InlineLength(fs[..|fs| - 1]);
      OffPrefix(fs, fs[..|fs| - 1], |fs| - 1);
    }
  }

  lemma {:induction false} InlineAt(fs: seq<Field>, i: nat)
    requires i < |fs|
    ensures At(Inline(fs), Off(fs, i), FieldBytes(fs[i]))
  {
    hide FieldBytes, At;
    var n := |fs| - 1;
    var before := fs[..n];
    InlineLength(before);
    OffPrefix(fs, before, i);
    if i < n {
      InlineAt(before, i);
      AtLeft(Inline(before), FieldBytes(fs[n]), Off(before, i), FieldBytes(fs[i]));
    } else {
      AtSelf(FieldBytes(fs[n]));
      AtRight(Inline(before), FieldBytes(fs[n]), 0, FieldBytes(fs[n]));
    }
  }

  // ---- Patching ----

  /** The buffer with four bytes at `i` overwritten. */
  function Patched(b: seq<byte>, i: nat, v: nat): (r: seq<byte>)
    requires i + 4 <= |b|
    ensures |r| == |b|
  {
    b[..i] + LE32(AsU32(v)) + b[i + 4..]
  }

  lemma PatchedMiddle(a: seq<byte>, x: seq<byte>, c: seq<byte>, v: nat)
    requires |x| == 4
    ensures Patched(a + x + c, |a|, v) == a + LE32(AsU32(v)) + c
  {
    hide LE32;
  }

  lemma PatchedLeft(a: seq<byte>, c: seq<byte>, i: nat, v: nat)
    requires i + 4 <= |a|
    ensures Patched(a + c, i, v) == Patched(a, i, v) + c
  {
    hide LE32;
  }

  lemma PatchedRight(a: seq<byte>, c: seq<byte>, i: nat, v: nat)
    requires i + 4 <= |c|
    ensures Patched(a + c, |a| + i, v) == a + Patched(c, i, v)
  {
    hide LE32;
    assert (a + c)[..|a| + i] == a + c[..i];
    assert (a + c)[|a| + i + 4..] == c[i + 4..];
  }

  /** Patching a 32-bit inline field replaces that field. */
  lemma {:induction false} PatchInline(fs: seq<Field>, i: nat, v: nat)
    requires i < |fs| && fs[i].U32?
    ensures Off(fs, i) + 4 <= |Inline(fs)|
    ensures Patched(Inline(fs), Off(fs, i), v) == Inline(fs[i := U32(v)])
  {
    hide LE32;
    var n := |fs| - 1;
    var before, last := fs[..n], fs[n];
    InlineLength(fs);
    InlineLength(before);
    OffPrefix(fs, before, n);
    OffPrefix(fs, before, i);
    if i < n {
      PatchInline(before, i, v);
      PatchedLeft(Inline(before), FieldBytes(last), Off(fs, i), v);
      assert fs[i := U32(v)][..n] == before[i := U32(v)];
    } else {
      assert Inline(fs) == Inline(before) + FieldBytes(last) + [];
      PatchedMiddle(Inline(before), FieldBytes(last), [], v);
      assert fs[i := U32(v)][..n] == before;
    }
  }

  // ---- Nodes: inline fields, then aligned sub-structures they point to ----

  /** Zero bytes up to the next multiple of four. */
  function Pad(pos: nat): seq<byte> {
    Zeroes((4 - pos % 4) % 4)
  }

  /** A sub-structure; what offsets point to is `root` bytes into it. */
  datatype Kid = Kid(bytes: seq<byte>, root: nat)

  /** A place for a sub-structure, padded to a multiple of four unless `packed`. */
  datatype Part = Part(packed: bool, kid: Option<Kid>)

  function KidBytes(p: Part): seq<byte> {
    if p.kid.Some? then p.kid.value.bytes else []
  }

  function PartPad(p: Part, pos: nat): seq<byte> {
    if p.packed then [] else Pad(pos)
  }

  /** The parts written from position `pos` on; absent ones still leave their padding. */
  function Tail(parts: seq<Part>, pos: nat): seq<byte> {
    if parts == [] then []
    else
      var before := Tail(parts[..|parts| - 1], pos);
      var last := parts[|parts| - 1];
      before + PartPad(last, pos + |before|) + KidBytes(last)
  }

  /** Where in the tail kid `i` starts. */
  function KidAt(parts: seq<Part>, pos: nat, i: nat): nat
    requires i < |parts|
  {
    var before := Tail(parts[..i], pos);
    |before| + |PartPad(parts[i], pos + |before|)|
  }

  lemma TailMore(parts: seq<Part>, p: Part, pos: nat)
    ensures Tail(parts + [p], pos)
         == Tail(parts, pos) + PartPad(p, pos + |Tail(parts, pos)|) + KidBytes(p)
  {
    hide PartPad, KidBytes;
    assert (parts + [p])[..|parts|] == parts;
  }

  lemma PadAligns(pos: nat)
    ensures (pos + |Pad(pos)|) % 4 == 0
  {
  }

  /** Every part that is not packed starts at a multiple of four. */
  lemma PartIsAligned(parts: seq<Part>, pos: nat, i: nat)
    requires i < |parts| && !parts[i].packed
    ensures (pos + KidAt(parts, pos, i)) % 4 == 0
  {
    hide Tail;
    PadAligns(pos + |Tail(parts[..i], pos)|);
  }

  lemma {:induction false} KidFound(parts: seq<Part>, pos: nat, i: nat)
    requires i < |parts|
    ensures At(Tail(parts, pos), KidAt(parts, pos, i), KidBytes(parts[i]))
  {
    hide At, PartPad, KidBytes;
    var n := |parts| - 1;
    var before := Tail(parts[..n], pos);
    var pad := PartPad(parts[n], pos + |before|);
    if i < n {
      KidFound(parts[..n], pos, i);
      assert parts[..n][..i] == parts[..i];
      AtLeft(before, pad, KidAt(parts, pos, i), KidBytes(parts[i]));
      AtLeft(before + pad, KidBytes(parts[n]), KidAt(parts, pos, i), KidBytes(parts[i]));
    } else {
      AtSelf(KidBytes(parts[n]));
      AtRight(before + pad, KidBytes(parts[n]), 0, KidBytes(parts[n]));
    }
  }

  lemma PadMod(p: Part, pos: nat, pos': nat, n: nat)
    requires pos % 4 == pos' % 4
    ensures PartPad(p, pos + n) == PartPad(p, pos' + n)
  {
    assert (pos + n) % 4 == (pos' + n) % 4;
  }

  /** Only the alignment of the position matters. */
  lemma {:induction false} TailMod(parts: seq<Part>, pos: nat, pos': nat)
    requires pos % 4 == pos' % 4
    ensures Tail(parts, pos) == Tail(parts, pos')
  {
    hide PartPad, KidBytes;
    if parts != [] {
      var before := parts[..|parts| - 1];
      TailMod(before, pos, pos');
      PadMod(parts[|parts| - 1], pos, pos', |Tail(before, pos)|);
    }
  }

  lemma KidAtMod(parts: seq<Part>, pos: nat, pos': nat, i: nat)
    requires pos % 4 == pos' % 4 && i < |parts|
    ensures KidAt(parts, pos, i) == KidAt(parts, pos', i)
  {
    hide PartPad, Tail;
    TailMod(parts[..i], pos, pos');
    PadMod(parts[i], pos, pos', |Tail(parts[..i], pos)|);
  }

  /** `head[links[j]]` is the offset field of part `j`. */
  datatype Node = Node(head: seq<Field>, links: seq<nat>, parts: seq<Part>)

  ghost predicate WellLinked(head: seq<Field>, links: seq<nat>) {
    && (forall j :: 0 <= j < |links| ==> links[j] < |head| && head[links[j]].U32?)
    && (forall i, j :: 0 <= i < j < |links| ==> links[i] != links[j])
  }

  function HeadSize(n: Node): nat {
    Off(n.head, |n.head|)
  }

  /** The distance from the offset field of kid `j` to its root. */
  function Rel(n: Node, pos: nat, j: nat): int
    requires j < |n.links| == |n.parts| && n.links[j] < |n.head| && n.parts[j].kid.Some?
  {
    HeadSize(n) + KidAt(n.parts, pos + HeadSize(n), j) + n.parts[j].kid.value.root - Off(n.head, n.links[j])
  }

  lemma {:induction false} OffMonotone(fs: seq<Field>, i: nat, j: nat)
    requires i <= j <= |fs|
    ensures Off(fs, i) <= Off(fs, j)
  {
    if i < j {
      OffMonotone(fs, i, j - 1);
    }
  }

  lemma RelIsForward(n: Node, pos: nat, j: nat)
    requires j < |n.links| == |n.parts| && n.links[j] < |n.head| && n.parts[j].kid.Some?
    ensures Rel(n, pos, j) >= 0
  {
    OffMonotone(n.head, n.links[j], |n.head|);
  }

  /** The head with the offsets of the first `k` kids filled in; absent kids keep a zero. */
  ghost function Linked(n: Node, pos: nat, k: nat): (h: seq<Field>)
    requires WellLinked(n.head, n.links) && |n.links| == |n.parts| && k <= |n.links|
    ensures |h| == |n.head|
    ensures forall i :: 0 <= i < |h| ==> Width(h[i]) == Width(n.head[i]) && (h[i].U32? <==> n.head[i].U32?)
  {
    if k == 0 then n.head
    else
      var h := Linked(n, pos, k - 1);
      if n.parts[k - 1].kid.None? then h
      else
        RelIsForward(n, pos, k - 1);
        h[n.links[k - 1] := U32(Rel(n, pos, k - 1))]
  }

  lemma {:induction false} SameWidths(a: seq<Field>, b: seq<Field>, i: nat)
    requires i <= |a| == |b| && forall k :: 0 <= k < |a| ==> Width(a[k]) == Width(b[k])
    ensures Off(a, i) == Off(b, i)
  {
    if i > 0 {
      SameWidths(a, b, i - 1);
    }
  }

  lemma {:induction false} LinkedOff(n: Node, pos: nat, k: nat, i: nat)
    requires WellLinked(n.head, n.links) && |n.links| == |n.parts| && k <= |n.links| && i <= |n.head|
    ensures Off(Linked(n, pos, k), i) == Off(n.head, i)
  {
    SameWidths(Linked(n, pos, k), n.head, i);
  }

  /** Fields that are nobody's offset are left alone. */
  lemma {:induction false} LinkedOther(n: Node, pos: nat, k: nat, i: nat)
    requires WellLinked(n.head, n.links) && |n.links| == |n.parts| && k <= |n.links| && i < |n.head|
    requires i !in n.links[..k]
    ensures Linked(n, pos, k)[i] == n.head[i]
  {
    if k > 0 {
      assert n.links[..k][..k - 1] == n.links[..k - 1];
      assert n.links[..k][k - 1] == n.links[k - 1];
      LinkedOther(n, pos, k - 1, i);
    }
  }

  lemma {:induction false} LinkedKid(n: Node, pos: nat, k: nat, j: nat)
    requires WellLinked(n.head, n.links) && |n.links| == |n.parts| && j < k <= |n.links| && n.parts[j].kid.Some?
    ensures Rel(n, pos, j) >= 0 && Linked(n, pos, k)[n.links[j]] == U32(Rel(n, pos, j))
  {
    hide Rel, KidAt, Tail, Off;
    RelIsForward(n, pos, j);
    if j < k - 1 {
      LinkedKid(n, pos, k - 1, j);
    }
  }

  /** The bytes of a node that starts at position `pos` (only its alignment matters). */
  ghost function NodeBytes(n: Node, pos: nat): seq<byte>
    requires WellLinked(n.head, n.links) && |n.links| == |n.parts|
  {
    Inline(Linked(n, pos, |n.links|)) + Tail(n.parts, pos + HeadSize(n))
  }

  ghost predicate WellFormed(n: Node) {
    WellLinked(n.head, n.links) && |n.links| == |n.parts|
  }

  lemma NodeSize(n: Node, pos: nat)
    requires WellFormed(n)
    ensures |NodeBytes(n, pos)| == HeadSize(n) + |Tail(n.parts, pos + HeadSize(n))|
    ensures |Inline(Linked(n, pos, |n.links|))| == HeadSize(n)
  {
    hide Inline, Tail, WellLinked, Linked;
    InlineLength(Linked(n, pos, |n.links|));
    LinkedOff(n, pos, |n.links|, |n.head|);
  }

  /** Any field of the head, as linked, wherever the node stands. */
  lemma FieldFound(b: seq<byte>, s: nat, n: Node, pos: nat, i: nat)
    requires WellFormed(n) && At(b, s, NodeBytes(n, pos)) && i < |n.head|
    ensures At(b, s + Off(n.head, i), FieldBytes(Linked(n, pos, |n.links|)[i]))
  {
    hide At, FieldBytes, Inline, Tail, WellLinked, Linked;
    var h := Linked(n, pos, |n.links|);
    LinkedOff(n, pos, |n.links|, i);
    InlineAt(h, i);
    AtLeft(Inline(h), Tail(n.parts, pos + HeadSize(n)), Off(n.head, i), FieldBytes(h[i]));
    AtIn(b, s, NodeBytes(n, pos), Off(n.head, i), FieldBytes(h[i]));
  }

  /** A scalar of the head, wherever the node stands. */
  lemma HeadAt(b: seq<byte>, s: nat, n: Node, pos: nat, i: nat)
    requires WellFormed(n) && At(b, s, NodeBytes(n, pos)) && i < |n.head| && i !in n.links
    ensures At(b, s + Off(n.head, i), FieldBytes(n.head[i]))
  {
    hide At, FieldBytes, Inline, Tail, WellLinked, Linked, NodeBytes;
    FieldFound(b, s, n, pos, i);
    LinkedOther(n, pos, |n.links|, i);
  }

  lemma AtBounds(b: seq<byte>, i: nat, x: seq<byte>)
    requires At(b, i, x)
    ensures i + |x| <= |b|
  {
  }

  /** Following the offset of a kid leads to its root, and its bytes are there. */
  lemma KidReached(b: seq<byte>, s: nat, n: Node, pos: nat, j: nat)
    requires WellFormed(n) && At(b, s, NodeBytes(n, pos)) && |NodeBytes(n, pos)| < TWO_32
    requires j < |n.parts| && n.parts[j].kid.Some? && n.parts[j].kid.value.root <= |n.parts[j].kid.value.bytes|
    ensures var at := s + HeadSize(n) + KidAt(n.parts, pos + HeadSize(n), j);
      && At(b, at, n.parts[j].kid.value.bytes)
      && Deref(b, s + Off(n.head, n.links[j])) == Some(at + n.parts[j].kid.value.root)
  {
    hide At, Inline, Tail, KidAt, LE32, Linked;
    var i := n.links[j];
    var tail := Tail(n.parts, pos + HeadSize(n));
    var kid := n.parts[j].kid.value;
    var at := KidAt(n.parts, pos + HeadSize(n), j);
    FieldFound(b, s, n, pos, i);
    LinkedKid(n, pos, |n.links|, j);
    NodeSize(n, pos);
    KidFound(n.parts, pos + HeadSize(n), j);
    AtRight(Inline(Linked(n, pos, |n.links|)), tail, at, kid.bytes);
    AtIn(b, s, NodeBytes(n, pos), HeadSize(n) + at, kid.bytes);
    AtBounds(tail, at, kid.bytes);
    ReadsU32(b, s + Off(n.head, i), Rel(n, pos, j));
  }
}
