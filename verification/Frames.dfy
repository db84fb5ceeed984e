/**
 The frame format of the write-ahead log: `[u32 length][body]`, back to back.
 `Parse` and `Rest` split any byte string into whole frames and the bytes at
 which reading gives up.
 */
module Frames {
  import opened Bytes

  type Frame = seq<byte>

  const FRAME_HEADER_LEN: nat := 4

  /** A header claiming more than this is treated as corruption. */
  const MAX_FRAME_LEN: nat := 256 * 1024 * 1024

  /** What `append` writes; the length is cast to `u32`. */
  function Encode(f: Frame): (s: seq<byte>)
    ensures |s| == FRAME_HEADER_LEN + |f|
  {
    LE32(AsU32(|f|)) + f
  }

  function EncodeAll(fs: seq<Frame>): seq<byte> {
    if fs == [] then [] else Encode(fs[0]) + EncodeAll(fs[1..])
  }

  function Header(s: seq<byte>): nat
    requires |s| >= FRAME_HEADER_LEN
  {
    U32At(s, 0)
  }

  /** Whether a whole, plausible frame stands at the front of `s`. */
  predicate HasFrame(s: seq<byte>) {
    |s| >= FRAME_HEADER_LEN && Header(s) <= MAX_FRAME_LEN && FRAME_HEADER_LEN + Header(s) <= |s|
  }

  function First(s: seq<byte>): Frame
    requires HasFrame(s)
  {
    s[FRAME_HEADER_LEN..FRAME_HEADER_LEN + Header(s)]
  }

  function AfterFirst(s: seq<byte>): seq<byte>
    requires HasFrame(s)
  {
    s[FRAME_HEADER_LEN + Header(s)..]
  }

  /** The frames a reader gets from `s` before it reaches the end or gives up. */
  function Parse(s: seq<byte>): seq<Frame>
    decreases |s|
  {
    if HasFrame(s) then [First(s)] + Parse(AfterFirst(s)) else []
  }

  /** The bytes left when the reader gives up: empty, torn, or corrupt. */
  function Rest(s: seq<byte>): seq<byte>
    decreases |s|
  {
    if HasFrame(s) then Rest(AfterFirst(s)) else s
  }

  /** What is left from position `i` on: nothing beyond the end. */
  function From(s: seq<byte>, i: nat): seq<byte> {
    if i <= |s| then s[i..] else []
  }

  predicate Small(f: Frame) {
    |f| <= MAX_FRAME_LEN
  }

  ghost predicate AllSmall(fs: seq<Frame>) {
    forall i :: 0 <= i < |fs| ==> Small(fs[i])
  }

  function Size(fs: seq<Frame>): nat {
    if fs == [] then 0 else FRAME_HEADER_LEN + |fs[0]| + Size(fs[1..])
  }

  lemma {:induction false} SizeIsLength(fs: seq<Frame>)
    ensures |EncodeAll(fs)| == Size(fs)
  {
    if fs != [] {
      SizeIsLength(fs[1..]);
    }
  }

  lemma Assoc<T>(a: seq<T>, b: seq<T>, c: seq<T>)
    ensures (a + b) + c == a + (b + c)
  {
  }

  lemma HeaderOfEncode(f: Frame, s: seq<byte>)
    ensures Header(Encode(f) + s) == AsU32(|f|)
  {
    LE32RoundTrip(AsU32(|f|));
    assert (Encode(f) + s)[..FRAME_HEADER_LEN] == LE32(AsU32(|f|));
    assert forall i :: 0 <= i < FRAME_HEADER_LEN ==> (Encode(f) + s)[i] == LE32(AsU32(|f|))[i];
  }

  lemma FrameAtFront(f: Frame, s: seq<byte>)
    requires Small(f)
    ensures HasFrame(Encode(f) + s)
    ensures First(Encode(f) + s) == f && AfterFirst(Encode(f) + s) == s
  {
    HeaderOfEncode(f, s);
  }

  lemma ParseCons(f: Frame, s: seq<byte>)
    requires Small(f)
    ensures Parse(Encode(f) + s) == [f] + Parse(s)
    ensures Rest(Encode(f) + s) == Rest(s)
  {
    hide U32At, LE32;
    FrameAtFront(f, s);
  }

  lemma ParseMore(f: Frame, body: seq<byte>, tail: seq<byte>, fs: seq<Frame>)
    requires Small(f) && Parse(body + tail) == fs + Parse(tail) && Rest(body + tail) == Rest(tail)
    ensures Parse((Encode(f) + body) + tail) == ([f] + fs) + Parse(tail)
    ensures Rest((Encode(f) + body) + tail) == Rest(tail)
  {
    hide U32At, LE32;
    Assoc(Encode(f), body, tail);
    ParseCons(f, body + tail);
    Assoc([f], fs, Parse(tail));
  }

  /** Reading undoes writing: whole frames first, then whatever cannot be read. */
  lemma {:induction false} ParseEncode(fs: seq<Frame>, tail: seq<byte>)
    requires AllSmall(fs)
    ensures Parse(EncodeAll(fs) + tail) == fs + Parse(tail)
    ensures Rest(EncodeAll(fs) + tail) == Rest(tail)
  {
    hide U32At, LE32;
    if fs == [] {
      assert EncodeAll(fs) + tail == tail;
    } else {
      ParseEncode(fs[1..], tail);
      ParseMore(fs[0], EncodeAll(fs[1..]), tail, fs[1..]);
      assert [fs[0]] + fs[1..] == fs;
    }
  }

  lemma Slices<T>(s: seq<T>, i: nat, j: nat)
    requires i <= j <= |s|
    ensures (s[..i] + s[i..j]) + s[j..] == s
  {
  }

  lemma EncodeFirst(s: seq<byte>)
    requires HasFrame(s)
    ensures Encode(First(s)) + AfterFirst(s) == s
  {
    U32OfLE32(s, 0);
    assert AsU32(|First(s)|) == Header(s);
    assert Encode(First(s)) == s[..FRAME_HEADER_LEN] + First(s);
    Slices(s, FRAME_HEADER_LEN, FRAME_HEADER_LEN + Header(s));
  }

  lemma EncodeCons(f: Frame, fs: seq<Frame>)
    ensures EncodeAll([f] + fs) == Encode(f) + EncodeAll(fs)
  {
    assert ([f] + fs)[1..] == fs;
  }

  /** Every byte string is its parsed frames, encoded again, and the rest. */
  lemma {:induction false} EncodeParse(s: seq<byte>)
    ensures EncodeAll(Parse(s)) + Rest(s) == s
    ensures AllSmall(Parse(s))
    ensures !HasFrame(Rest(s))
    decreases |s|
  {
    hide U32At, LE32;
    if HasFrame(s) {
      var t := AfterFirst(s);
      EncodeParse(t);
      EncodeFirst(s);
      EncodeCons(First(s), Parse(t));
      Assoc(Encode(First(s)), EncodeAll(Parse(t)), Rest(t));
    }
  }

  lemma {:induction false} EncodeAllConcat(a: seq<Frame>, b: seq<Frame>)
    ensures EncodeAll(a + b) == EncodeAll(a) + EncodeAll(b)
    ensures Size(a + b) == Size(a) + Size(b)
  {
    hide U32At, LE32;
    if a == [] {
      assert a + b == b;
    } else {
      EncodeAllConcat(a[1..], b);
      assert (a + b)[1..] == a[1..] + b;
      Assoc(Encode(a[0]), EncodeAll(a[1..]), EncodeAll(b));
    }
  }

  /** A frame cut off anywhere before its last byte cannot be read. */
  lemma TornFrame(f: Frame, n: nat)
    requires Small(f) && n < |Encode(f)|
    ensures !HasFrame(Encode(f)[..n])
  {
    if n >= FRAME_HEADER_LEN {
      HeaderOfEncode(f, []);
      assert Encode(f)[..n][..FRAME_HEADER_LEN] == (Encode(f) + [])[..FRAME_HEADER_LEN];
    }
  }
}
