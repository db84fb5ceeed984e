/**
 Half-written nodes: what stands in the buffer while the encoders append the
 head, then the parts one by one, then patch the offsets one by one.
 */
module NodeDraft {
  import opened Wrappers
  import opened Bytes
  import opened Frames
  import opened Layout

  /** `pre`, then a node with `patched` offsets filled in and `written` parts. */
  ghost function Draft(pre: seq<byte>, n: Node, patched: nat, written: nat): seq<byte>
    requires WellFormed(n) && patched <= |n.links| && written <= |n.parts|
  {
    pre + Inline(Linked(n, |pre|, patched)) + Tail(n.parts[..written], |pre| + HeadSize(n))
  }

  lemma DraftStart(pre: seq<byte>, n: Node)
    requires WellFormed(n)
    ensures Draft(pre, n, 0, 0) == pre + Inline(n.head)
  {
    hide Inline;
    assert Tail(n.parts[..0], |pre| + HeadSize(n)) == [];
    assert Linked(n, |pre|, 0) == n.head;
  }

  lemma DraftDone(pre: seq<byte>, n: Node)
    requires WellFormed(n)
    ensures Draft(pre, n, |n.links|, |n.parts|) == pre + NodeBytes(n, |pre|)
  {
    hide Inline, Tail, Linked, WellLinked;
    assert n.parts[..|n.parts|] == n.parts;
    Assoc(pre, Inline(Linked(n, |pre|, |n.links|)), Tail(n.parts, |pre| + HeadSize(n)));
  }

  lemma DraftLength(pre: seq<byte>, n: Node, patched: nat, written: nat)
    requires WellFormed(n) && patched <= |n.links| && written <= |n.parts|
    ensures |Inline(Linked(n, |pre|, patched))| == HeadSize(n)
    ensures |Draft(pre, n, patched, written)|
         == |pre| + HeadSize(n) + |Tail(n.parts[..written], |pre| + HeadSize(n))|
  {
    hide Inline, Tail, Linked, WellLinked;
    InlineLength(Linked(n, |pre|, patched));
    LinkedOff(n, |pre|, patched, |n.head|);
  }

  /** Where part `j` starts in the buffer. */
  function KidStart(start: nat, n: Node, j: nat): nat
    requires j < |n.parts|
  {
    start + HeadSize(n) + KidAt(n.parts, start + HeadSize(n), j)
  }

  /** Aligning, unless packed, and appending the next part. */
  lemma DraftPart(pre: seq<byte>, n: Node, j: nat)
    requires WellFormed(n) && j < |n.parts|
    ensures var d := Draft(pre, n, 0, j);
      && d + PartPad(n.parts[j], |d|) + KidBytes(n.parts[j]) == Draft(pre, n, 0, j + 1)
      && KidStart(|pre|, n, j) == |d| + |PartPad(n.parts[j], |d|)|
  {
    hide Inline, Tail, PartPad, KidBytes, Linked, WellLinked;
    DraftLength(pre, n, 0, j);
    var p := |pre| + HeadSize(n);
    var before, next := n.parts[..j], n.parts[j];
    assert n.parts[..j + 1] == before + [next];
    TailMore(before, next, p);
    var start, tail, pad := pre + Inline(Linked(n, |pre|, 0)), Tail(before, p), PartPad(next, p + |Tail(before, p)|);
    Assoc(start, tail, pad);
    Assoc(start, tail + pad, KidBytes(next));
  }

  lemma LinkIsU32(n: Node, pos: nat, k: nat)
    requires WellFormed(n) && k < |n.links|
    ensures n.links[k] < |Linked(n, pos, k)| && Linked(n, pos, k)[n.links[k]].U32?
    ensures n.links[k] < |n.head| && (n.parts[k].kid.Some? ==> Rel(n, pos, k) >= 0)
  {
    if n.parts[k].kid.Some? {
      RelIsForward(n, pos, k);
    }
  }

  lemma InlineAtBounds(fs: seq<Field>, i: nat)
    requires i < |fs| && fs[i].U32?
    ensures Off(fs, i) + 4 <= |Inline(fs)|
  {
    hide Inline;
    InlineAt(fs, i);
  }

  /** Writing the offset of the next part. */
  lemma DraftPatch(pre: seq<byte>, n: Node, k: nat)
    requires WellFormed(n) && k < |n.links| && n.parts[k].kid.Some?
    ensures var d := Draft(pre, n, k, |n.parts|);
      var at := |pre| + Off(n.head, n.links[k]);
      var target := KidStart(|pre|, n, k) + n.parts[k].kid.value.root;
      && at + 4 <= |d|
      && at <= target
      && Patched(d, at, target - at) == Draft(pre, n, k + 1, |n.parts|)
  {
    hide Inline, Tail, KidAt, WellLinked, Off, Patched;
    var p := |pre|;
    var h := Linked(n, p, k);
    var tail := Tail(n.parts[..|n.parts|], p + HeadSize(n));
    DraftLength(pre, n, k, |n.parts|);
    LinkIsU32(n, p, k);
    LinkedOff(n, p, k, n.links[k]);
    InlineAtBounds(h, n.links[k]);
    PatchInline(h, n.links[k], Rel(n, p, k));
    PatchedRight(pre, Inline(h), Off(h, n.links[k]), Rel(n, p, k));
    PatchedLeft(pre + Inline(h), tail, p + Off(h, n.links[k]), Rel(n, p, k));
  }

  lemma DraftNoPatch(pre: seq<byte>, n: Node, k: nat)
    requires WellFormed(n) && k < |n.links| && n.parts[k].kid.None?
    ensures Draft(pre, n, k + 1, |n.parts|) == Draft(pre, n, k, |n.parts|)
  {
    hide Inline, Tail;
  }

  // ---- Only the alignment of where a node stands matters ----

  lemma RelMod(n: Node, pos: nat, pos': nat, j: nat)
    requires pos % 4 == pos' % 4
    requires j < |n.links| == |n.parts| && n.links[j] < |n.head| && n.parts[j].kid.Some?
    ensures Rel(n, pos, j) == Rel(n, pos', j)
  {
    hide KidAt, Off;
    var h := HeadSize(n);
    assert (pos + h) % 4 == (pos' + h) % 4;
    KidAtMod(n.parts, pos + h, pos' + h, j);
  }

  lemma {:induction false} LinkedMod(n: Node, pos: nat, pos': nat, k: nat)
    requires pos % 4 == pos' % 4
    requires WellFormed(n) && k <= |n.links|
    ensures Linked(n, pos, k) == Linked(n, pos', k)
  {
    hide Rel;
    if k > 0 {
      LinkedMod(n, pos, pos', k - 1);
      if n.parts[k - 1].kid.Some? {
        RelMod(n, pos, pos', k - 1);
      }
    }
  }

  lemma NodeMod(n: Node, pos: nat, pos': nat)
    requires pos % 4 == pos' % 4 && WellFormed(n)
    ensures NodeBytes(n, pos) == NodeBytes(n, pos')
  {
    hide Inline, Tail, Linked, WellLinked;
    var h := HeadSize(n);
    assert (pos + h) % 4 == (pos' + h) % 4;
    LinkedMod(n, pos, pos', |n.links|);
    TailMod(n.parts, pos + h, pos' + h);
  }
}

/** Half-written tables and vectors. */
module TableDraft {
  import opened Wrappers
  import opened Bytes
  import opened Frames
  import opened Layout
  import opened NodeDraft
  import opened Table

  ghost function DraftOf(pre: seq<byte>, t: Table, patched: nat, written: nat): seq<byte>
    requires Sound(t) && patched <= |t.links| && written <= |t.parts|
  {
    NodeWellFormed(t);
    Draft(pre, TableNode(t), patched, written)
  }

  lemma TableStart(pre: seq<byte>, t: Table)
    requires Sound(t)
    ensures DraftOf(pre, t, 0, 0) == pre + Inline(TableHead(t))
    ensures |Inline(TableHead(t))| == TableOff(t) + TableSize(t)
  {
    hide Inline, Draft, TableHead;
    NodeWellFormed(t);
    DraftStart(pre, TableNode(t));
    InlineLength(TableHead(t));
  }

  /** Where part `j` of a table that stands at `start` begins. */
  function StartOf(start: nat, t: Table, j: nat): nat
    requires j < |t.parts|
  {
    start + PartAt(t, start, j)
  }

  lemma PartWritten(pre: seq<byte>, t: Table, j: nat)
    requires Sound(t) && j < |t.parts|
    ensures var d := DraftOf(pre, t, 0, j);
      && d + PartPad(t.parts[j], |d|) + KidBytes(t.parts[j]) == DraftOf(pre, t, 0, j + 1)
      && StartOf(|pre|, t, j) == |d| + |PartPad(t.parts[j], |d|)|
  {
    hide Draft, PartPad, KidBytes, TableHead, KidAt, Off, WellLinked;
    NodeWellFormed(t);
    DraftPart(pre, TableNode(t), j);
  }

  /** Where the offset of part `k` is stored, from the table's own start. */
  function LinkAt(t: Table, k: nat): nat
    requires k < |t.links| && t.links[k] <= |t.body|
  {
    4 + Off(t.body, t.links[k])
  }

  lemma PartPatched(pre: seq<byte>, t: Table, k: nat, start: Option<nat>)
    requires Sound(t) && k < |t.parts|
    requires start.Some? <==> t.parts[k].kid.Some?
    requires start.Some? ==> start.value == StartOf(|pre|, t, k) + t.parts[k].kid.value.root
    ensures var d := DraftOf(pre, t, k, |t.parts|);
      var at := |pre| + TableOff(t) + LinkAt(t, k);
      && (start.Some? ==> at + 4 <= |d| && at <= start.value)
      && DraftOf(pre, t, k + 1, |t.parts|) == if start.None? then d else Patched(d, at, start.value - at)
  {
    hide Draft, TableHead, KidAt, Off, Patched;
    NodeWellFormed(t);
    BodyOff(t, t.links[k]);
    if start.Some? {
      DraftPatch(pre, TableNode(t), k);
    } else {
      DraftNoPatch(pre, TableNode(t), k);
    }
  }

  lemma TableDone(pre: seq<byte>, t: Table)
    requires Sound(t)
    ensures DraftOf(pre, t, |t.links|, |t.parts|) == pre + TableBytes(t, |pre|)
  {
    hide Draft, TableHead, NodeBytes;
    NodeWellFormed(t);
    DraftDone(pre, TableNode(t));
  }

  lemma TableMod(t: Table, pos: nat, pos': nat)
    requires Sound(t) && pos % 4 == pos' % 4
    ensures TableBytes(t, pos) == TableBytes(t, pos')
  {
    hide NodeBytes, TableHead;
    NodeWellFormed(t);
    NodeMod(TableNode(t), pos, pos');
  }

  /** Overwriting the root offset that stands right before the table. */
  lemma RootPatched(before: seq<byte>, t: Table, v: nat, patched: nat)
    requires Sound(t) && patched <= |t.links|
    ensures var d := DraftOf(before + LE32(AsU32(0)), t, patched, |t.parts|);
      && |before| + 4 <= |d|
      && Patched(d, |before|, v) == DraftOf(before + LE32(AsU32(v)), t, patched, |t.parts|)
  {
    hide Inline, Tail, Linked, LE32, Patched, TableHead, WellLinked;
    NodeWellFormed(t);
    var n := TableNode(t);
    var p := |before| + 4;
    var head, tail := Inline(Linked(n, p, patched)), Tail(n.parts[..|n.parts|], p + HeadSize(n));
    var zero, root := LE32(AsU32(0)), LE32(AsU32(v));
    Assoc(before + zero, head, tail);
    Assoc(before + root, head, tail);
    PatchedMiddle(before, zero, head + tail, v);
  }

  /** A finished entry: root offset and table. */
  lemma EntryDone(before: seq<byte>, t: Table)
    requires Sound(t)
    ensures var pre := before + LE32(AsU32(4 + TableOff(t)));
      DraftOf(pre, t, |t.links|, |t.parts|) == before + (LE32(AsU32(4 + TableOff(t))) + TableBytes(t, |before| + 4))
  {
    hide LE32, TableBytes, DraftOf;
    var root := LE32(AsU32(4 + TableOff(t)));
    TableDone(before + root, t);
    Assoc(before, root, TableBytes(t, |before| + 4));
  }

  // ---- Vectors ----

  ghost function VectorDraft(pre: seq<byte>, kids: seq<Kid>, patched: nat, written: nat): seq<byte>
    requires patched <= |kids| && written <= |kids|
  {
    VectorWellFormed(kids);
    Draft(pre, VectorNode(kids), patched, written)
  }

  lemma VectorStart(pre: seq<byte>, kids: seq<Kid>)
    ensures VectorDraft(pre, kids, 0, 0) == pre + Inline([U32(|kids|)] + seq(|kids|, _ => U32(0)))
  {
    hide Inline, Draft;
    VectorWellFormed(kids);
    DraftStart(pre, VectorNode(kids));
  }

  /** Where element `j` of a vector that stands at `start` begins. */
  function ElementStart(start: nat, kids: seq<Kid>, j: nat): nat
    requires j < |kids|
  {
    start + 4 + 4 * |kids| + KidAt(VectorNode(kids).parts, start + 4 + 4 * |kids|, j)
  }

  lemma ElementWritten(pre: seq<byte>, kids: seq<Kid>, j: nat)
    requires j < |kids|
    ensures var d := VectorDraft(pre, kids, 0, j);
      && d + Pad(|d|) + kids[j].bytes == VectorDraft(pre, kids, 0, j + 1)
      && ElementStart(|pre|, kids, j) == |d| + |Pad(|d|)|
  {
    hide Draft, KidAt, Off, WellLinked, Pad;
    VectorWellFormed(kids);
    VectorOff(kids, 1 + |kids|);
    DraftPart(pre, VectorNode(kids), j);
    var d := VectorDraft(pre, kids, 0, j);
    assert VectorNode(kids).parts[j] == Part(false, Some(kids[j]));
    assert PartPad(VectorNode(kids).parts[j], |d|) == Pad(|d|);
  }

  lemma ElementPatched(pre: seq<byte>, kids: seq<Kid>, k: nat)
    requires k < |kids|
    ensures var d := VectorDraft(pre, kids, k, |kids|);
      var at := |pre| + 4 + 4 * k;
      var target := ElementStart(|pre|, kids, k) + kids[k].root;
      && at + 4 <= |d| && at <= target
      && VectorDraft(pre, kids, k + 1, |kids|) == Patched(d, at, target - at)
  {
    hide Draft, KidAt, Off, Patched;
    VectorWellFormed(kids);
    VectorOff(kids, 1 + |kids|);
    VectorOff(kids, 1 + k);
    DraftPatch(pre, VectorNode(kids), k);
  }

  /** A vector of tables from position `pos`. */
  ghost function VectorAt(kids: seq<Kid>, pos: nat): seq<byte> {
    VectorWellFormed(kids);
    NodeBytes(VectorNode(kids), pos)
  }

  lemma VectorDone(pre: seq<byte>, kids: seq<Kid>)
    ensures VectorDraft(pre, kids, |kids|, |kids|) == pre + VectorAt(kids, |pre|)
  {
    hide Draft, NodeBytes;
    VectorWellFormed(kids);
    DraftDone(pre, VectorNode(kids));
  }

  lemma VectorMod(kids: seq<Kid>, pos: nat)
    requires pos % 4 == 0
    ensures VectorAt(kids, pos) == VectorBytes(kids)
  {
    hide NodeBytes;
    VectorWellFormed(kids);
    NodeMod(VectorNode(kids), pos, 0);
  }

  lemma {:induction false} InlineConcat(a: seq<Field>, b: seq<Field>)
    ensures Inline(a + b) == Inline(a) + Inline(b)
  {
    hide FieldBytes;
    if b == [] {
      assert a + b == a;
    } else {
      var n := |b| - 1;
      InlineConcat(a, b[..n]);
      assert (a + b)[..|a + b| - 1] == a + b[..n];
      Assoc(Inline(a), Inline(b[..n]), FieldBytes(b[n]));
    }
  }
}
