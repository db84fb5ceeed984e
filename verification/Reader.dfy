/**
 A bounds-checked reader of the FlatBuffers binary format: root offset, table,
 vtable, scalars, strings and vectors, as the FlatBuffers "Internals" document
 lays them out. It knows nothing about how the encoders work. `None` means that
 a read would leave the buffer or that the bytes are malformed.
 */
module Reader {
  import opened Wrappers
  import opened Bytes

  function ReadU8(b: seq<byte>, i: int): Option<nat> {
    if 0 <= i && i + 1 <= |b| then Some(b[i]) else None
  }

  function ReadU16(b: seq<byte>, i: int): Option<nat> {
    if 0 <= i && i + 2 <= |b| then Some(U16At(b, i)) else None
  }

  function ReadU32(b: seq<byte>, i: int): Option<nat> {
    if 0 <= i && i + 4 <= |b| then Some(U32At(b, i)) else None
  }

  function ReadU64(b: seq<byte>, i: int): Option<nat> {
    if 0 <= i && i + 8 <= |b| then Some(U64At(b, i)) else None
  }

  /** A signed 32-bit number in two's complement. */
  function ReadI32(b: seq<byte>, i: int): Option<int> {
    var v :- ReadU32(b, i);
    Some(if v < 0x8000_0000 then v else v - TWO_32)
  }

  /** The position a relative offset stored at `i` points to. */
  function Deref(b: seq<byte>, i: int): Option<int> {
    var rel :- ReadU32(b, i);
    Some(i + rel)
  }

  /** The root table of a buffer. */
  function Root(b: seq<byte>): Option<int> {
    Deref(b, 0)
  }

  datatype Slot = Absent | Present(pos: int)

  /** Where field `id` of the table at `t` is stored: the vtable says, and 0 or too short means absent. */
  function FieldOf(b: seq<byte>, t: int, id: nat): Option<Slot> {
    var soffset :- ReadI32(b, t);
    var vt := t - soffset;
    var vsize :- ReadU16(b, vt);
    if 4 + 2 * id + 2 > vsize then Some(Absent)
    else
      var off :- ReadU16(b, vt + 4 + 2 * id);
      Some(if off == 0 then Absent else Present(t + off))
  }

  function FieldU8(b: seq<byte>, t: int, id: nat): Option<nat> {
    var s :- FieldOf(b, t, id);
    if s.Absent? then Some(0) else ReadU8(b, s.pos)
  }

  function FieldU64(b: seq<byte>, t: int, id: nat): Option<nat> {
    var s :- FieldOf(b, t, id);
    if s.Absent? then Some(0) else ReadU64(b, s.pos)
  }

  /** A vector of bytes: length, then data. */
  function Blob(b: seq<byte>, i: int): Option<seq<byte>> {
    var n :- ReadU32(b, i);
    if i + 4 + n <= |b| then Some(b[i + 4..i + 4 + n]) else None
  }

  /** A string: a vector of bytes followed by a zero byte. */
  function Text(b: seq<byte>, i: int): Option<seq<byte>> {
    var s :- Blob(b, i);
    var end :- ReadU8(b, i + 4 + |s|);
    if end == 0 then Some(s) else None
  }

  /** An optional blob or text field: `Some(None)` when the table does not have it. */
  function FieldBlob(b: seq<byte>, t: int, id: nat): Option<Option<seq<byte>>> {
    var s :- FieldOf(b, t, id);
    if s.Absent? then Some(None)
    else
      var p :- Deref(b, s.pos);
      var x :- Blob(b, p);
      Some(Some(x))
  }

  function FieldText(b: seq<byte>, t: int, id: nat): Option<Option<seq<byte>>> {
    var s :- FieldOf(b, t, id);
    if s.Absent? then Some(None)
    else
      var p :- Deref(b, s.pos);
      var x :- Text(b, p);
      Some(Some(x))
  }

  /** The first `n` tables of a vector of tables whose offset slots start at `i`. */
  function Tables(b: seq<byte>, i: int, n: nat): Option<seq<int>> {
    if n == 0 then Some([])
    else
      var before :- Tables(b, i, n - 1);
      var t :- Deref(b, i + 4 * (n - 1));
      Some(before + [t])
  }

  /** The tables of an optional vector field; an absent vector has none. */
  function FieldTables(b: seq<byte>, t: int, id: nat): Option<seq<int>> {
    var s :- FieldOf(b, t, id);
    if s.Absent? then Some([])
    else
      var v :- Deref(b, s.pos);
      var n :- ReadU32(b, v);
      if v + 4 + 4 * n <= |b| then Tables(b, v + 4, n) else None
  }

  function FieldTable(b: seq<byte>, t: int, id: nat): Option<Option<int>> {
    var s :- FieldOf(b, t, id);
    if s.Absent? then Some(None)
    else
      var p :- Deref(b, s.pos);
      Some(Some(p))
  }
}
