/**
 FlatBuffers tables as the encoders lay them out: the vtable first, then the
 table, then what the table points to. The lemmas say that the generic reader
 finds every field again, wherever the bytes stand in a larger buffer.
 */
module Table {
  import opened Wrappers
  import opened Bytes
  import opened Frames
  import opened Reader
  import opened Layout

  /**
   `slots` go to the vtable, and so does `size`, what the vtable claims the table's size to be;
   `body` follows the table's own offset, `links` are body fields.
   */
  datatype Table = Table(slots: seq<nat>, size: nat, pad: nat, body: seq<Field>, links: seq<nat>, parts: seq<Part>)

  function SlotFields(slots: seq<nat>): (fs: seq<Field>)
    ensures |fs| == |slots|
    ensures forall i :: 0 <= i < |slots| ==> fs[i] == U16(slots[i])
  {
    seq(|slots|, i requires 0 <= i < |slots| => U16(slots[i]))
  }

  /** From the start of the vtable to the table. */
  function TableOff(t: Table): nat {
    4 + 2 * |t.slots| + t.pad
  }

  function TableSize(t: Table): nat {
    4 + Off(t.body, |t.body|)
  }

  function TableHead(t: Table): (fs: seq<Field>)
    ensures |fs| == |t.slots| + 4 + |t.body|
  {
    [U16(4 + 2 * |t.slots|), U16(t.size)] + SlotFields(t.slots) + [Zeros(t.pad), U32(TableOff(t))] + t.body
  }

  function TableNode(t: Table): Node {
    Node(TableHead(t), seq(|t.links|, j requires 0 <= j < |t.links| => |t.slots| + 4 + t.links[j]), t.parts)
  }

  /** What every table here satisfies, by its constants. */
  ghost predicate Sound(t: Table) {
    && |t.slots| <= 100
    && t.pad <= 3
    && t.size < TWO_16
    && (forall i :: 0 <= i < |t.slots| ==> t.slots[i] < TWO_16)
    && WellLinked(t.body, t.links)
    && |t.links| == |t.parts|
  }

  lemma HeadFields(t: Table)
    ensures TableHead(t)[0] == U16(4 + 2 * |t.slots|)
    ensures TableHead(t)[1] == U16(t.size)
    ensures forall i :: 0 <= i < |t.slots| ==> TableHead(t)[2 + i] == U16(t.slots[i])
    ensures TableHead(t)[|t.slots| + 2] == Zeros(t.pad)
    ensures TableHead(t)[|t.slots| + 3] == U32(TableOff(t))
    ensures forall i :: 0 <= i < |t.body| ==> TableHead(t)[|t.slots| + 4 + i] == t.body[i]
  {
    hide Off;
  }

  lemma {:induction false} SlotOff(t: Table, i: nat)
    requires i <= |t.slots|
    ensures Off(TableHead(t), 2 + i) == 4 + 2 * i
  {
    hide TableHead;
    HeadFields(t);
    if i == 0 {
      assert Off(TableHead(t), 1) == 2;
    } else {
      SlotOff(t, i - 1);
      assert TableHead(t)[2 + (i - 1)] == U16(t.slots[i - 1]);
    }
  }

  lemma {:induction false} BodyOff(t: Table, i: nat)
    requires i <= |t.body|
    ensures Off(TableHead(t), |t.slots| + 3) == TableOff(t)
    ensures Off(TableHead(t), |t.slots| + 4 + i) == TableOff(t) + 4 + Off(t.body, i)
  {
    hide TableHead;
    HeadFields(t);
    SlotOff(t, |t.slots|);
    assert Off(TableHead(t), |t.slots| + 3) == TableOff(t);
    if i > 0 {
      BodyOff(t, i - 1);
      assert TableHead(t)[|t.slots| + 4 + (i - 1)] == t.body[i - 1];
    }
  }

  lemma NodeWellFormed(t: Table)
    requires Sound(t)
    ensures WellFormed(TableNode(t))
    ensures HeadSize(TableNode(t)) == TableOff(t) + TableSize(t)
  {
    hide TableHead, Off;
    HeadFields(t);
    BodyOff(t, |t.body|);
    var h, links := TableHead(t), TableNode(t).links;
    forall j | 0 <= j < |links|
      ensures links[j] < |h| && h[links[j]].U32?
    {
      assert h[|t.slots| + 4 + t.links[j]] == t.body[t.links[j]];
    }
  }

  lemma NoLinkOutside(t: Table, i: nat)
    requires Sound(t)
    ensures i < |t.slots| + 4 ==> i !in TableNode(t).links
    ensures i < |t.body| && i !in t.links ==> |t.slots| + 4 + i !in TableNode(t).links
  {
    hide TableHead, Off;
  }

  /** The bytes of a table whose vtable starts at position `pos`. */
  ghost function TableBytes(t: Table, pos: nat): seq<byte>
    requires Sound(t)
  {
    NodeWellFormed(t);
    NodeBytes(TableNode(t), pos)
  }

  /** Where the table of a buffer is: this table's vtable starts at `s`. */
  ghost predicate Stands(b: seq<byte>, s: nat, t: Table, pos: nat) {
    Sound(t) && At(b, s, TableBytes(t, pos))
  }

  lemma OffZero(fs: seq<Field>)
    ensures Off(fs, 0) == 0
  {
  }

  lemma SlotAt(b: seq<byte>, s: nat, t: Table, pos: nat, i: nat)
    requires Stands(b, s, t, pos) && i < |t.slots|
    ensures At(b, s + 4 + 2 * i, LE16(t.slots[i]))
    ensures At(b, s, LE16(4 + 2 * |t.slots|))
  {
    hide At, Off, NodeBytes, TableHead, Sound, LE16, WellLinked;
    NodeWellFormed(t);
    HeadFields(t);
    SlotOff(t, i);
    NoLinkOutside(t, 0);
    NoLinkOutside(t, 2 + i);
    HeadAt(b, s, TableNode(t), pos, 0);
    HeadAt(b, s, TableNode(t), pos, 2 + i);
    OffZero(TableHead(t));
  }

  lemma VtableAt(b: seq<byte>, s: nat, t: Table, pos: nat)
    requires Stands(b, s, t, pos)
    ensures At(b, s + TableOff(t), LE32(TableOff(t)))
  {
    hide At, Off, NodeBytes, TableHead, LE32, WellLinked;
    NodeWellFormed(t);
    HeadFields(t);
    BodyOff(t, 0);
    NoLinkOutside(t, |t.slots| + 3);
    HeadAt(b, s, TableNode(t), pos, |t.slots| + 3);
  }

  /** The vtable leads the reader to every field the table has, and to no other. */
  lemma SlotRead(b: seq<byte>, s: nat, t: Table, pos: nat, id: nat)
    requires Stands(b, s, t, pos) && id < |t.slots|
    ensures FieldOf(b, s + TableOff(t), id)
         == Some(if t.slots[id] == 0 then Absent else Present(s + TableOff(t) + t.slots[id]))
  {
    hide At, TableBytes, LE16, LE32, WellLinked, TableSize, U16At, U32At;
    VtableAt(b, s, t, pos);
    SlotAt(b, s, t, pos, id);
    ReadsU32(b, s + TableOff(t), TableOff(t));
    ReadsU16(b, s, 4 + 2 * |t.slots|);
    ReadsU16(b, s + 4 + 2 * id, t.slots[id]);
  }

  lemma BodyAt(b: seq<byte>, s: nat, t: Table, pos: nat, i: nat)
    requires Stands(b, s, t, pos) && i < |t.body| && i !in t.links
    ensures At(b, s + TableOff(t) + 4 + Off(t.body, i), FieldBytes(t.body[i]))
  {
    hide At, Off, NodeBytes, TableHead, FieldBytes, WellLinked;
    NodeWellFormed(t);
    HeadFields(t);
    BodyOff(t, i);
    NoLinkOutside(t, i);
    HeadAt(b, s, TableNode(t), pos, |t.slots| + 4 + i);
  }

  /** A one-byte field is read back. */
  lemma ByteRead(b: seq<byte>, s: nat, t: Table, pos: nat, id: nat, i: nat)
    requires Stands(b, s, t, pos) && id < |t.slots| && i < |t.body| && i !in t.links
    requires t.body[i].U8? && t.body[i].v < 256 && t.slots[id] == 4 + Off(t.body, i)
    ensures FieldU8(b, s + TableOff(t), id) == Some(t.body[i].v)
  {
    hide At, TableBytes, WellLinked, Off, FieldOf;
    SlotRead(b, s, t, pos, id);
    BodyAt(b, s, t, pos, i);
    ReadsU8(b, s + TableOff(t) + t.slots[id], t.body[i].v);
  }

  /** An eight-byte field is read back. */
  lemma WordRead(b: seq<byte>, s: nat, t: Table, pos: nat, id: nat, i: nat)
    requires Stands(b, s, t, pos) && id < |t.slots| && i < |t.body| && i !in t.links
    requires t.body[i].U64? && t.body[i].v < TWO_64 && t.slots[id] == 4 + Off(t.body, i)
    ensures FieldU64(b, s + TableOff(t), id) == Some(t.body[i].v)
  {
    hide At, TableBytes, WellLinked, Off, FieldOf, LE64;
    SlotRead(b, s, t, pos, id);
    BodyAt(b, s, t, pos, i);
    ReadsU64(b, s + TableOff(t) + t.slots[id], t.body[i].v);
  }

  /** How far after the start of the vtable kid `j` starts. */
  function PartAt(t: Table, pos: nat, j: nat): nat
    requires j < |t.parts|
  {
    TableOff(t) + TableSize(t) + KidAt(t.parts, pos + TableOff(t) + TableSize(t), j)
  }

  /** Through field `id` the reader reaches part `j`, whose bytes are all there. */
  lemma PartReached(b: seq<byte>, s: nat, t: Table, pos: nat, id: nat, j: nat)
    requires Stands(b, s, t, pos) && |TableBytes(t, pos)| < TWO_32
    requires id < |t.slots| && j < |t.parts| && t.parts[j].kid.Some?
    requires t.parts[j].kid.value.root <= |t.parts[j].kid.value.bytes|
    requires t.slots[id] == 4 + Off(t.body, t.links[j])
    ensures FieldOf(b, s + TableOff(t), id) == Some(Present(s + TableOff(t) + t.slots[id]))
    ensures Deref(b, s + TableOff(t) + t.slots[id]) == Some(s + PartAt(t, pos, j) + t.parts[j].kid.value.root)
    ensures At(b, s + PartAt(t, pos, j), t.parts[j].kid.value.bytes)
  {
    hide At, NodeBytes, Off, FieldOf, Deref, TableHead, KidAt;
    SlotRead(b, s, t, pos, id);
    NodeWellFormed(t);
    BodyOff(t, t.links[j]);
    KidReached(b, s, TableNode(t), pos, j);
  }

  // ---- Blobs and texts ----

  /** `[u32 length][data]` */
  function BlobBytes(d: seq<byte>): (r: seq<byte>)
    ensures |r| == 4 + |d|
  {
    LE32(AsU32(|d|)) + d
  }

  /** `[u32 length][data][0]` */
  function TextBytes(d: seq<byte>): (r: seq<byte>)
    ensures |r| == 5 + |d|
  {
    BlobBytes(d) + [0]
  }

  function BlobPart(d: Option<seq<byte>>): Part {
    Part(false, if d.None? then None else Some(Kid(BlobBytes(d.value), 0)))
  }

  function TextPart(d: Option<seq<byte>>): Part {
    Part(false, if d.None? then None else Some(Kid(TextBytes(d.value), 0)))
  }

  lemma BlobRead(b: seq<byte>, i: nat, d: seq<byte>)
    requires At(b, i, BlobBytes(d)) && |d| < TWO_32
    ensures Blob(b, i) == Some(d)
  {
    hide LE32;
    var x := BlobBytes(d);
    assert At(x, 0, LE32(AsU32(|d|)));
    AtIn(b, i, x, 0, LE32(AsU32(|d|)));
    ReadsU32(b, i, |d|);
    assert At(x, 4, d);
    AtIn(b, i, x, 4, d);
  }

  lemma TextRead(b: seq<byte>, i: nat, d: seq<byte>)
    requires At(b, i, TextBytes(d)) && |d| < TWO_32
    ensures Text(b, i) == Some(d)
  {
    hide LE32, BlobBytes;
    var x := TextBytes(d);
    AtLeft(BlobBytes(d), [0], 0, BlobBytes(d));
    AtIn(b, i, x, 0, BlobBytes(d));
    BlobRead(b, i, d);
    AtRight(BlobBytes(d), [0], 0, [0]);
    AtIn(b, i, x, |BlobBytes(d)|, [0]);
    ReadsU8(b, i + |BlobBytes(d)|, 0);
  }

  /** A table that has slot `id` exactly when it has part `j`. */
  predicate Serves(t: Table, id: nat, j: nat) {
    && id < |t.slots| && j < |t.parts| == |t.links| && t.links[j] <= |t.body|
    && t.slots[id] == (if t.parts[j].kid.Some? then 4 + Off(t.body, t.links[j]) else 0)
  }

  /** A part is never longer than the table that holds it. */
  lemma PartFits(b: seq<byte>, s: nat, t: Table, pos: nat, j: nat)
    requires Stands(b, s, t, pos) && j < |t.parts| && t.parts[j].kid.Some?
    ensures |t.parts[j].kid.value.bytes| <= |TableBytes(t, pos)|
  {
    hide TableHead, Off, Inline, Tail, Linked, WellLinked, KidAt, At;
    NodeWellFormed(t);
    NodeSize(TableNode(t), pos);
    var p := pos + HeadSize(TableNode(t));
    KidFound(t.parts, p, j);
    AtBounds(Tail(t.parts, p), KidAt(t.parts, p, j), t.parts[j].kid.value.bytes);
  }

  /** An optional blob is read back, absent as absent. */
  lemma BlobFieldRead(b: seq<byte>, s: nat, t: Table, pos: nat, id: nat, j: nat, d: Option<seq<byte>>)
    requires Stands(b, s, t, pos) && |TableBytes(t, pos)| < TWO_32
    requires Serves(t, id, j) && t.parts[j] == BlobPart(d)
    ensures FieldBlob(b, s + TableOff(t), id) == Some(d)
  {
    hide At, TableBytes, Sound, Off, FieldOf, Deref, Blob, BlobBytes, PartAt;
    if d.None? {
      SlotRead(b, s, t, pos, id);
    } else {
      PartFits(b, s, t, pos, j);
      PartReached(b, s, t, pos, id, j);
      BlobRead(b, s + PartAt(t, pos, j), d.value);
    }
  }

  /** An optional text is read back, absent as absent. */
  lemma TextFieldRead(b: seq<byte>, s: nat, t: Table, pos: nat, id: nat, j: nat, d: Option<seq<byte>>)
    requires Stands(b, s, t, pos) && |TableBytes(t, pos)| < TWO_32
    requires Serves(t, id, j) && t.parts[j] == TextPart(d)
    ensures FieldText(b, s + TableOff(t), id) == Some(d)
  {
    hide At, TableBytes, Sound, Off, FieldOf, Deref, Text, TextBytes, PartAt;
    if d.None? {
      SlotRead(b, s, t, pos, id);
    } else {
      PartFits(b, s, t, pos, j);
      PartReached(b, s, t, pos, id, j);
      TextRead(b, s + PartAt(t, pos, j), d.value);
    }
  }

  // ---- Vectors of tables ----

  /** `[u32 count][offset per element]`, then the elements, each aligned. */
  function VectorNode(kids: seq<Kid>): Node {
    Node(
      [U32(|kids|)] + seq(|kids|, _ => U32(0)),
      seq(|kids|, j => 1 + j),
      seq(|kids|, j requires 0 <= j < |kids| => Part(false, Some(kids[j])))
    )
  }

  lemma VectorWellFormed(kids: seq<Kid>)
    ensures WellFormed(VectorNode(kids))
  {
  }

  ghost function VectorBytes(kids: seq<Kid>): seq<byte> {
    VectorWellFormed(kids);
    NodeBytes(VectorNode(kids), 0)
  }

  lemma {:induction false} VectorOff(kids: seq<Kid>, i: nat)
    requires i <= 1 + |kids|
    ensures Off(VectorNode(kids).head, i) == 4 * i
  {
    if i > 0 {
      VectorOff(kids, i - 1);
    }
  }

  /** Where element `j` starts, from the start of the vector. */
  function ElementAt(kids: seq<Kid>, j: nat): nat
    requires j < |kids|
  {
    4 + 4 * |kids| + KidAt(VectorNode(kids).parts, 4 + 4 * |kids|, j)
  }

  lemma ElementReached(b: seq<byte>, s: nat, kids: seq<Kid>, j: nat)
    requires At(b, s, VectorBytes(kids)) && |VectorBytes(kids)| < TWO_32
    requires j < |kids| && kids[j].root <= |kids[j].bytes|
    ensures At(b, s + ElementAt(kids, j), kids[j].bytes)
    ensures Deref(b, s + 4 + 4 * j) == Some(s + ElementAt(kids, j) + kids[j].root)
  {
    hide At, NodeBytes, KidAt, Off, Deref;
    VectorWellFormed(kids);
    VectorOff(kids, 1 + |kids|);
    VectorOff(kids, 1 + j);
    KidReached(b, s, VectorNode(kids), 0, j);
  }

  lemma CountRead(b: seq<byte>, s: nat, kids: seq<Kid>)
    requires At(b, s, VectorBytes(kids)) && |kids| < TWO_32
    ensures ReadU32(b, s) == Some(|kids|) && s + 4 + 4 * |kids| <= |b|
  {
    hide At, NodeBytes, Off, LE32, U32At;
    VectorWellFormed(kids);
    var n := VectorNode(kids);
    OffZero(n.head);
    HeadAt(b, s, n, 0, 0);
    ReadsU32(b, s, |kids|);
    VectorOff(kids, 1 + |kids|);
    NodeSize(n, 0);
    AtBounds(b, s, NodeBytes(n, 0));
  }

  /** The tables the reader should find in a vector that stands at `s`. */
  function Roots(s: nat, kids: seq<Kid>, n: nat): (r: seq<int>)
    requires n <= |kids|
    ensures |r| == n
  {
    if n == 0 then [] else Roots(s, kids, n - 1) + [s + ElementAt(kids, n - 1) + kids[n - 1].root]
  }

  lemma {:induction false} RootsAt(s: nat, kids: seq<Kid>, n: nat, j: nat)
    requires j < n <= |kids|
    ensures Roots(s, kids, n)[j] == s + ElementAt(kids, j) + kids[j].root
  {
    hide ElementAt;
    if j < n - 1 {
      RootsAt(s, kids, n - 1, j);
    }
  }

  ghost predicate Rooted(kids: seq<Kid>) {
    forall j :: 0 <= j < |kids| ==> kids[j].root <= |kids[j].bytes|
  }

  lemma {:induction false} VectorRead(b: seq<byte>, s: nat, kids: seq<Kid>, n: nat)
    requires At(b, s, VectorBytes(kids)) && |VectorBytes(kids)| < TWO_32
    requires Rooted(kids) && n <= |kids|
    ensures Tables(b, s + 4, n) == Some(Roots(s, kids, n))
  {
    hide At, VectorBytes, ElementAt, Deref;
    if n > 0 {
      VectorRead(b, s, kids, n - 1);
      ElementReached(b, s, kids, n - 1);
    }
  }

  lemma TableLength(t: Table, pos: nat)
    requires Sound(t)
    ensures |TableBytes(t, pos)| >= TableOff(t) + TableSize(t)
  {
    hide Inline, Tail, Linked, Off, TableHead;
    NodeWellFormed(t);
    NodeSize(TableNode(t), pos);
  }

  lemma VectorCount(kids: seq<Kid>)
    ensures |VectorBytes(kids)| >= 4 + 4 * |kids|
  {
    hide Inline, Tail, Linked, Off;
    VectorWellFormed(kids);
    VectorOff(kids, 1 + |kids|);
    NodeSize(VectorNode(kids), 0);
  }

  /** A vector field leads the reader to the tables of its elements, in order. */
  lemma VectorFieldRead(b: seq<byte>, s: nat, t: Table, pos: nat, id: nat, j: nat, kids: seq<Kid>)
    requires Stands(b, s, t, pos) && |TableBytes(t, pos)| < TWO_32
    requires Serves(t, id, j) && Rooted(kids)
    requires t.parts[j].kid == Some(Kid(VectorBytes(kids), 0)) || (kids == [] && t.parts[j].kid.None?)
    ensures t.parts[j].kid.Some? ==> At(b, s + PartAt(t, pos, j), VectorBytes(kids))
    ensures FieldTables(b, s + TableOff(t), id)
         == Some(if t.parts[j].kid.None? then [] else Roots(s + PartAt(t, pos, j), kids, |kids|))
    ensures t.parts[j].kid.Some? ==> |VectorBytes(kids)| < TWO_32
  {
    hide At, TableBytes, Sound, Off, FieldOf, Deref, VectorBytes, PartAt, Tables, Roots, Rooted, ReadU32, ElementAt;
    if t.parts[j].kid.None? {
      SlotRead(b, s, t, pos, id);
    } else {
      PartFits(b, s, t, pos, j);
      PartReached(b, s, t, pos, id, j);
      VectorCount(kids);
      CountRead(b, s + PartAt(t, pos, j), kids);
      VectorRead(b, s + PartAt(t, pos, j), kids, |kids|);
    }
  }
}
