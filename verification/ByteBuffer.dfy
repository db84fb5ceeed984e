/** The growing byte buffer of the encoders and the helpers that write to it. */
module ByteBuffers {
  import opened Wrappers
  import opened Bytes
  import opened Reader
  import opened Layout
  import opened Table

  /** What a patch leaves to be read at the patched place. */
  lemma PatchReads(b: seq<byte>, i: nat, v: nat)
    requires i + 4 <= |b|
    ensures v < TWO_32 ==> ReadU32(Patched(b, i, v), i) == Some(v)
    ensures forall k :: 0 <= k < |b| && !(i <= k < i + 4) ==> Patched(b, i, v)[k] == b[k]
  {
    hide LE32, U32At;
    var p := Patched(b, i, v);
    assert p[i..i + 4] == LE32(AsU32(v));
    if v < TWO_32 {
      ReadsU32(p, i, v);
    }
  }

  class ByteBuffer {
    var bytes: seq<byte>

    constructor ()
      ensures bytes == []
    {
      bytes := [];
    }

    method Clear()
      modifies this
      ensures bytes == []
    {
      bytes := [];
    }

    /** One fixed-width write: `push`, `write_u16`, `write_u32`, `write_u64`, or zero bytes. */
    method Write(f: Field)
      modifies this
      ensures bytes == old(bytes) + FieldBytes(f)
    {
      bytes := bytes + FieldBytes(f);
    }

    /** A run of fixed-width writes, in order. */
    method WriteFields(fs: seq<Field>)
      modifies this
      ensures bytes == old(bytes) + Inline(fs)
    {
      hide FieldBytes;
      var i := 0;
      assert fs[..0] == [];
      while i < |fs|
        invariant i <= |fs| && bytes == old(bytes) + Inline(fs[..i])
      {
        Write(fs[i]);
        assert fs[..i + 1][..i] == fs[..i];
        i := i + 1;
      }
      assert fs[..|fs|] == fs;
    }

    /** Zero bytes up to the next multiple of four. */
    method Align4()
      modifies this
      ensures bytes == old(bytes) + Pad(|old(bytes)|)
      ensures |bytes| % 4 == 0 && |old(bytes)| <= |bytes| < |old(bytes)| + 4
      ensures bytes[..|old(bytes)|] == old(bytes) && forall k :: |old(bytes)| <= k < |bytes| ==> bytes[k] == 0
    {
      while |bytes| % 4 != 0
        invariant |old(bytes)| <= |bytes| && |bytes| - |old(bytes)| <= |Pad(|old(bytes)|)|
        invariant bytes == old(bytes) + Zeroes(|bytes| - |old(bytes)|)
        decreases 4 - (|bytes| - |old(bytes)|)
      {
        bytes := bytes + [0];
      }
    }

    method WriteByteVector(data: seq<byte>) returns (start: nat)
      modifies this
      ensures start == |old(bytes)| && bytes == old(bytes) + BlobBytes(data)
    {
      hide LE32;
      start := |bytes|;
      Write(U32(|data|));
      bytes := bytes + data;
    }

    method WriteString(s: seq<byte>) returns (start: nat)
      modifies this
      ensures start == |old(bytes)| && bytes == old(bytes) + TextBytes(s)
    {
      hide LE32;
      start := |bytes|;
      Write(U32(|s|));
      bytes := bytes + s;
      bytes := bytes + [0];
    }

    /** Overwrites four bytes with the distance from there to `target`: a reader of the offset reaches the target. */
    method PatchOffset(offsetPos: nat, target: nat)
      requires offsetPos + 4 <= |bytes| && offsetPos <= target
      modifies this
      ensures bytes == Patched(old(bytes), offsetPos, target - offsetPos)
      ensures target - offsetPos < TWO_32 ==> Deref(bytes, offsetPos) == Some(target)
      ensures forall k :: 0 <= k < |bytes| && !(offsetPos <= k < offsetPos + 4) ==> bytes[k] == old(bytes)[k]
    {
      hide LE32, U32At;
      PatchReads(bytes, offsetPos, target - offsetPos);
      bytes := Patched(bytes, offsetPos, target - offsetPos);
    }

    /** Overwrites four bytes with a position. */
    method PatchU32(at: nat, v: nat)
      requires at + 4 <= |bytes|
      modifies this
      ensures bytes == Patched(old(bytes), at, v)
    {
      bytes := Patched(bytes, at, v);
    }

    /** Aligns, then writes the blob if there is one, and says where. */
    method WriteBlobPart(d: Option<seq<byte>>) returns (start: Option<nat>)
      modifies this
      ensures bytes == old(bytes) + PartPad(BlobPart(d), |old(bytes)|) + KidBytes(BlobPart(d))
      ensures d.Some? ==> start == Some(|old(bytes)| + |PartPad(BlobPart(d), |old(bytes)|)|)
      ensures d.None? ==> start.None?
    {
      hide Pad, BlobBytes;
      Align4();
      start := None;
      if d.Some? {
        var at := WriteByteVector(d.value);
        start := Some(at);
      }
    }

    /** Aligns, then writes the text if there is one, and says where. */
    method WriteTextPart(d: Option<seq<byte>>) returns (start: Option<nat>)
      modifies this
      ensures bytes == old(bytes) + PartPad(TextPart(d), |old(bytes)|) + KidBytes(TextPart(d))
      ensures d.Some? ==> start == Some(|old(bytes)| + |PartPad(TextPart(d), |old(bytes)|)|)
      ensures d.None? ==> start.None?
    {
      hide Pad, TextBytes;
      Align4();
      start := None;
      if d.Some? {
        var at := WriteString(d.value);
        start := Some(at);
      }
    }

    /** Patches the offset of a part that was written. */
    method PatchPart(offsetPos: nat, start: Option<nat>)
      requires start.Some? ==> offsetPos + 4 <= |bytes| && offsetPos <= start.value
      modifies this
      ensures bytes == if start.None? then old(bytes) else Patched(old(bytes), offsetPos, start.value - offsetPos)
    {
      if start.Some? {
        PatchOffset(offsetPos, start.value);
      }
    }
  }
}
