/**
 Which keys can stand between quotes as they are. The slow scan looks at one
 byte at a time; the fast one at eight, with arithmetic on the whole word in
 which borrows run from one byte into the next.
 */
module KeyScan {
  const QUOTE: bv8 := 0x22
  const BACKSLASH: bv8 := 0x5C
  const SPACE: bv8 := 0x20

  /** RFC 8259, section 7: everything but quote, backslash and control characters stands unescaped. */
  predicate PlainByte(c: bv8) {
    !(c < SPACE) && c != QUOTE && c != BACKSLASH
  }

  predicate Plain(key: seq<bv8>) {
    forall i :: 0 <= i < |key| ==> PlainByte(key[i])
  }

  /** The byte loop. */
  method KeyIsPlain(key: seq<bv8>) returns (plain: bool)
    ensures plain <==> Plain(key)
  {
    var i := 0;
    while i < |key|
      invariant i <= |key| && Plain(key[..i])
    {
      var c := key[i];
      if c < SPACE || c == QUOTE || c == BACKSLASH {
        return false;
      }
      assert key[..i + 1] == key[..i] + [c];
      i := i + 1;
    }
    assert key[..i] == key;
    return true;
  }

  const LO: bv64 := 0x0101_0101_0101_0101
  const HI: bv64 := 0x8080_8080_8080_8080
  const QUOTES: bv64 := 0x2222_2222_2222_2222
  const BACKSLASHES: bv64 := 0x5C5C_5C5C_5C5C_5C5C
  const SPACES: bv64 := 0x2020_2020_2020_2020

  /** Eight bytes as a little-endian word. */
  function Word(c: seq<bv8>): bv64
    requires |c| == 8
  {
    (c[0] as bv64) | ((c[1] as bv64) << 8) | ((c[2] as bv64) << 16) | ((c[3] as bv64) << 24)
    | ((c[4] as bv64) << 32) | ((c[5] as bv64) << 40) | ((c[6] as bv64) << 48) | ((c[7] as bv64) << 56)
  }

  /** A word with a bit set where some byte is below a space, a quote, or a backslash. */
  function Mask(w: bv64): bv64 {
    var belowSpace := (w - SPACES) & !w & HI;
    var q := w ^ QUOTES;
    var hasQuote := (q - LO) & !q & HI;
    var b := w ^ BACKSLASHES;
    var hasBackslash := (b - LO) & !b & HI;
    belowSpace | hasQuote | hasBackslash
  }

  predicate PlainLane(x: bv64) {
    !(x < 0x20) && x != 0x22 && x != 0x5C
  }

  /** Byte `k` of a word. */
  function Lane(w: bv64, k: nat): bv64
    requires k < 8
  {
    match k
    case 0 => w & 0xFF
    case 1 => (w >> 8) & 0xFF
    case 2 => (w >> 16) & 0xFF
    case 3 => (w >> 24) & 0xFF
    case 4 => (w >> 32) & 0xFF
    case 5 => (w >> 40) & 0xFF
    case 6 => (w >> 48) & 0xFF
    case 7 => (w >> 56) & 0xFF
  }

  predicate AllPlainLanes(w: bv64) {
    && PlainLane(Lane(w, 0)) && PlainLane(Lane(w, 1)) && PlainLane(Lane(w, 2)) && PlainLane(Lane(w, 3))
    && PlainLane(Lane(w, 4)) && PlainLane(Lane(w, 5)) && PlainLane(Lane(w, 6)) && PlainLane(Lane(w, 7))
  }

  /**
   The mask is zero exactly when all eight bytes are plain. Single bits of it can
   be wrong, when a borrow comes in from below, but then a lower byte is not plain.
   */
  lemma MaskOfWord(w: bv64)
    ensures Mask(w) == 0 <==> AllPlainLanes(w)
  {
  }

  lemma LanesOfWord(c: seq<bv8>)
    requires |c| == 8
    ensures forall k :: 0 <= k < 8 ==> Lane(Word(c), k) == c[k] as bv64
  {
  }

  lemma PlainAsLane(c: bv8)
    ensures PlainLane(c as bv64) <==> PlainByte(c)
  {
  }

  lemma MaskOfBytes(c: seq<bv8>)
    requires |c| == 8
    ensures Mask(Word(c)) == 0 <==> Plain(c)
  {
    hide Mask, Word, PlainLane, PlainByte, Lane;
    MaskOfWord(Word(c));
    LanesOfWord(c);
    PlainAsLane(c[0]); PlainAsLane(c[1]); PlainAsLane(c[2]); PlainAsLane(c[3]);
    PlainAsLane(c[4]); PlainAsLane(c[5]); PlainAsLane(c[6]); PlainAsLane(c[7]);
  }

  /** A bit of the mask can be wrong: here a space stands above a byte that borrows from it. */
  lemma MaskBitsAreNotExact()
    ensures var w: bv64 := 0x2020_2020_2020_201F;
      Mask(w) != 0 && Mask(w) & 0x8000 != 0 && PlainLane(Lane(w, 1))
  {
  }

  lemma OrIsZero(a: bv64, b: bv64)
    ensures a | b == 0 <==> a == 0 && b == 0
  {
  }

  lemma PlainConcat(a: seq<bv8>, b: seq<bv8>)
    ensures Plain(a + b) <==> Plain(a) && Plain(b)
  {
    hide PlainByte;
    if Plain(a + b) {
      assert forall i :: 0 <= i < |a| ==> (a + b)[i] == a[i];
      assert forall i :: 0 <= i < |b| ==> (a + b)[|a| + i] == b[i];
    }
  }

  lemma PlainNothing()
    ensures Plain([])
  {
  }

  lemma PlainOne(c: bv8)
    ensures Plain([c]) <==> !(c < SPACE) && c != QUOTE && c != BACKSLASH
  {
    assert [c][0] == c;
  }

  /** Eight bytes a step, then the rest one by one: the same answer as the byte loop for every key. */
  method KeyIsPlainFast(key: seq<bv8>) returns (plain: bool)
    ensures plain <==> Plain(key)
  {
    hide Mask, Word, PlainByte, Plain;
    var bad: bv64 := 0;
    var i := 0;
    PlainNothing();
    assert key[..0] == [];
    while i + 8 <= |key|
      invariant i <= |key|
      invariant bad == 0 <==> Plain(key[..i])
    {
      var chunk := key[i..i + 8];
      var mask := Mask(Word(chunk));
      MaskOfBytes(chunk);
      OrIsZero(bad, mask);
      PlainConcat(key[..i], chunk);
      assert key[..i] + chunk == key[..i + 8];
      bad := bad | mask;
      i := i + 8;
    }
    ghost var whole := i;
    var tailOk := true;
    assert key[whole..whole] == [];
    while i < |key|
      invariant whole <= i <= |key|
      invariant tailOk <==> Plain(key[whole..i])
    {
      var c := key[i];
      PlainOne(c);
      PlainConcat(key[whole..i], [c]);
      assert key[whole..i] + [c] == key[whole..i + 1];
      tailOk := tailOk && !(c < SPACE) && c != QUOTE && c != BACKSLASH;
      i := i + 1;
    }
    PlainConcat(key[..whole], key[whole..]);
    assert key[..whole] + key[whole..] == key;
    assert key[whole..|key|] == key[whole..];
    plain := bad == 0 && tailOk;
  }
}
