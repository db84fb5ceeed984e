/**
 JSON values, the text a compact serialiser prints for them, and a parser for
 such text. Text is a sequence of bytes; bytes of 0x80 and above pass through.
 */
module Json {
  import opened Wrappers
  import opened KeyScan

  type Text = seq<bv8>

  const COMMA: bv8 := 0x2C
  const COLON: bv8 := 0x3A
  const OPEN: bv8 := 0x7B
  const CLOSE: bv8 := 0x7D
  const OPEN_LIST: bv8 := 0x5B
  const CLOSE_LIST: bv8 := 0x5D
  const LOWER_U: bv8 := 0x75

  /** A character a number is made of. */
  predicate NumberByte(c: bv8) {
    (0x30 <= c && c <= 0x39) || c == 0x2D || c == 0x2B || c == 0x2E || c == 0x65 || c == 0x45
  }

  predicate NumberStart(c: bv8) {
    (0x30 <= c && c <= 0x39) || c == 0x2D
  }

  predicate IsNumber(t: Text) {
    t != [] && NumberStart(t[0]) && forall i :: 0 <= i < |t| ==> NumberByte(t[i])
  }

  type NumberText = t: Text | IsNumber(t) witness [0x30]

  datatype Json =
    | Null
    | Bool(b: bool)
    | Num(number: NumberText)
    | Str(text: Text)
    | List(elements: seq<Json>)
    | Object(members: seq<Member>)

  datatype Member = Member(key: Text, value: Json)

  // ---- Printing ----

  function HexDigit(n: bv8): bv8 {
    if n < 10 then 0x30 + n else 0x57 + n
  }

  /** One byte of a string: short escapes where there are any, `\u00xx` for other control characters. */
  function EscapeByte(c: bv8): Text {
    if c == QUOTE || c == BACKSLASH then [BACKSLASH, c]
    else if c == 0x08 then [BACKSLASH, 0x62]
    else if c == 0x0C then [BACKSLASH, 0x66]
    else if c == 0x0A then [BACKSLASH, 0x6E]
    else if c == 0x0D then [BACKSLASH, 0x72]
    else if c == 0x09 then [BACKSLASH, 0x74]
    else if c < SPACE then [BACKSLASH, LOWER_U, 0x30, 0x30, HexDigit(c >> 4), HexDigit(c & 0x0F)]
    else [c]
  }

  function Escape(s: Text): Text {
    if s == [] then [] else EscapeByte(s[0]) + Escape(s[1..])
  }

  function PrintString(s: Text): Text {
    [QUOTE] + Escape(s) + [QUOTE]
  }

  const NULL_TEXT: Text := [0x6E, 0x75, 0x6C, 0x6C]
  const TRUE_TEXT: Text := [0x74, 0x72, 0x75, 0x65]
  const FALSE_TEXT: Text := [0x66, 0x61, 0x6C, 0x73, 0x65]

  function Print(j: Json): Text
    decreases j
  {
    match j
    case Null => NULL_TEXT
    case Bool(b) => if b then TRUE_TEXT else FALSE_TEXT
    case Num(text) => text
    case Str(text) => PrintString(text)
    case List(es) => [OPEN_LIST] + PrintElements(es) + [CLOSE_LIST]
    case Object(ms) => [OPEN] + PrintMembers(ms) + [CLOSE]
  }

  function PrintMember(m: Member): Text
    decreases m
  {
    PrintString(m.key) + [COLON] + Print(m.value)
  }

  /** Elements separated by commas, without the brackets. */
  function PrintElements(es: seq<Json>): Text
    decreases es
  {
    if es == [] then []
    else if |es| == 1 then Print(es[0])
    else Print(es[0]) + [COMMA] + PrintElements(es[1..])
  }

  /** Members separated by commas, without the braces. */
  function PrintMembers(ms: seq<Member>): Text
    decreases ms
  {
    if ms == [] then []
    else if |ms| == 1 then PrintMember(ms[0])
    else PrintMember(ms[0]) + [COMMA] + PrintMembers(ms[1..])
  }

  // ---- Parsing ----

  function HexValue(c: bv8): Option<bv8> {
    if 0x30 <= c && c <= 0x39 then Some(c - 0x30)
    else if 0x61 <= c && c <= 0x66 then Some(c - 0x57)
    else None
  }

  function ShortEscape(c: bv8): Option<bv8> {
    if c == QUOTE || c == BACKSLASH || c == 0x2F then Some(c)
    else if c == 0x62 then Some(0x08)
    else if c == 0x66 then Some(0x0C)
    else if c == 0x6E then Some(0x0A)
    else if c == 0x72 then Some(0x0D)
    else if c == 0x74 then Some(0x09)
    else None
  }

  /** One character of a string: its value and what follows it. */
  function ParseByte(s: Text): (r: Option<(bv8, Text)>)
    ensures r.Some? ==> |r.value.1| < |s|
  {
    if s == [] || s[0] < SPACE || s[0] == QUOTE then None
    else if s[0] != BACKSLASH then Some((s[0], s[1..]))
    else if |s| < 2 then None
    else if s[1] != LOWER_U then
      var c :- ShortEscape(s[1]);
      Some((c, s[2..]))
    else if |s| < 6 || s[2] != 0x30 || s[3] != 0x30 then None
    else
      var hi :- HexValue(s[4]);
      var lo :- HexValue(s[5]);
      if hi < 8 then Some(((hi << 4) | lo, s[6..])) else None
  }

  /** The rest of a string, its opening quote read: the string and what follows the closing quote. */
  function ParseChars(s: Text): (r: Option<(Text, Text)>)
    ensures r.Some? ==> |r.value.1| < |s|
    decreases |s|
  {
    if s != [] && s[0] == QUOTE then Some(([], s[1..]))
    else
      var c :- ParseByte(s);
      var more :- ParseChars(c.1);
      Some(([c.0] + more.0, more.1))
  }

  function NumberLength(s: Text): (n: nat)
    ensures n <= |s|
  {
    if s == [] || !NumberByte(s[0]) then 0 else 1 + NumberLength(s[1..])
  }

  lemma {:induction false} NumberPrefix(s: Text)
    ensures forall i :: 0 <= i < NumberLength(s) ==> NumberByte(s[i])
  {
    if s != [] && NumberByte(s[0]) {
      NumberPrefix(s[1..]);
      forall i | 0 <= i < NumberLength(s)
        ensures NumberByte(s[i])
      {
        if i > 0 {
          assert s[i] == s[1..][i - 1];
        }
      }
    }
  }

  predicate StartsWith(s: Text, t: Text) {
    |t| <= |s| && s[..|t|] == t
  }

  /** A value and what follows it. */
  function ParseValue(s: Text): (r: Option<(Json, Text)>)
    ensures r.Some? ==> |r.value.1| < |s|
    decreases |s|, 0
  {
    if s == [] then None
    else if s[0] == QUOTE then
      var t :- ParseChars(s[1..]);
      Some((Str(t.0), t.1))
    else if s[0] == OPEN then
      if |s| >= 2 && s[1] == CLOSE then Some((Object([]), s[2..]))
      else
        var ms :- ParseMembers(s[1..]);
        Some((Object(ms.0), ms.1))
    else if s[0] == OPEN_LIST then
      if |s| >= 2 && s[1] == CLOSE_LIST then Some((List([]), s[2..]))
      else
        var es :- ParseElements(s[1..]);
        Some((List(es.0), es.1))
    else if NumberStart(s[0]) then
      var n := NumberLength(s);
      NumberPrefix(s);
      assert IsNumber(s[..n]);
      Some((Num(s[..n]), s[n..]))
    else if StartsWith(s, NULL_TEXT) then Some((Null, s[4..]))
    else if StartsWith(s, TRUE_TEXT) then Some((Bool(true), s[4..]))
    else if StartsWith(s, FALSE_TEXT) then Some((Bool(false), s[5..]))
    else None
  }

  function ParseMember(s: Text): (r: Option<(Member, Text)>)
    ensures r.Some? ==> |r.value.1| < |s|
    decreases |s|, 1
  {
    if s == [] || s[0] != QUOTE then None
    else
      var key :- ParseChars(s[1..]);
      if key.1 == [] || key.1[0] != COLON then None
      else
        var value :- ParseValue(key.1[1..]);
        Some((Member(key.0, value.0), value.1))
  }

  /** Members up to the closing brace, which is read too. */
  function ParseMembers(s: Text): (r: Option<(seq<Member>, Text)>)
    ensures r.Some? ==> |r.value.1| < |s|
    decreases |s|, 2
  {
    var m :- ParseMember(s);
    if m.1 == [] then None
    else if m.1[0] == CLOSE then Some(([m.0], m.1[1..]))
    else if m.1[0] == COMMA then
      var more :- ParseMembers(m.1[1..]);
      Some(([m.0] + more.0, more.1))
    else None
  }

  function ParseElements(s: Text): (r: Option<(seq<Json>, Text)>)
    ensures r.Some? ==> |r.value.1| < |s|
    decreases |s|, 2
  {
    var e :- ParseValue(s);
    if e.1 == [] then None
    else if e.1[0] == CLOSE_LIST then Some(([e.0], e.1[1..]))
    else if e.1[0] == COMMA then
      var more :- ParseElements(e.1[1..]);
      Some(([e.0] + more.0, more.1))
    else None
  }

  /** A whole text. */
  function Parse(s: Text): Option<Json> {
    var v :- ParseValue(s);
    if v.1 == [] then Some(v.0) else None
  }

  // ---- Parsing undoes printing ----

  lemma NibblesRoundTrip(c: bv8)
    requires c < SPACE
    ensures HexDigit(c >> 4) == 0x30 || HexDigit(c >> 4) == 0x31
    ensures HexValue(HexDigit(c >> 4)) == Some(c >> 4) && HexValue(HexDigit(c & 0x0F)) == Some(c & 0x0F)
    ensures c >> 4 < 8 && ((c >> 4) << 4) | (c & 0x0F) == c
  {
  }

  lemma ByteRoundTrip(c: bv8, rest: Text)
    ensures ParseByte(EscapeByte(c) + rest) == Some((c, rest))
    ensures (EscapeByte(c) + rest)[0] != QUOTE
  {
    if c < SPACE {
      NibblesRoundTrip(c);
    }
    var s := EscapeByte(c) + rest;
    assert s[|EscapeByte(c)|..] == rest;
  }

  lemma Regroup(a: Text, b: Text, c: Text)
    ensures (a + b) + c == a + (b + c)
  {
  }

  lemma {:induction false} CharsRoundTrip(t: Text, rest: Text)
    ensures ParseChars(Escape(t) + ([QUOTE] + rest)) == Some((t, rest))
  {
    hide ParseByte, EscapeByte;
    var end := [QUOTE] + rest;
    if t == [] {
      assert Escape(t) + end == end;
    } else {
      CharsRoundTrip(t[1..], rest);
      Regroup(EscapeByte(t[0]), Escape(t[1..]), end);
      ByteRoundTrip(t[0], Escape(t[1..]) + end);
      assert [t[0]] + t[1..] == t;
    }
  }

  lemma StringRoundTrip(t: Text, rest: Text)
    ensures var s := PrintString(t) + rest;
      s[0] == QUOTE && ParseChars(s[1..]) == Some((t, rest))
  {
    CharsRoundTrip(t, rest);
    assert (PrintString(t) + rest)[1..] == Escape(t) + ([QUOTE] + rest);
  }

  /** What may follow a value: nothing that could belong to a number. */
  predicate Ends(rest: Text) {
    rest == [] || !NumberByte(rest[0])
  }

  lemma {:induction false} NumberLengthIs(t: Text, rest: Text)
    requires (forall i :: 0 <= i < |t| ==> NumberByte(t[i])) && Ends(rest)
    ensures NumberLength(t + rest) == |t|
  {
    if t == [] {
      assert t + rest == rest;
    } else {
      NumberLengthIs(t[1..], rest);
      assert (t + rest)[1..] == t[1..] + rest;
    }
  }

  lemma FirstByte(j: Json)
    ensures Print(j) != []
    ensures Print(j)[0] != CLOSE && Print(j)[0] != CLOSE_LIST
    ensures j.Object? <==> Print(j)[0] == OPEN
  {
  }

  lemma ListText(es: seq<Json>, rest: Text)
    ensures var s := Print(List(es)) + rest;
      && s[0] == OPEN_LIST
      && s[1..] == PrintElements(es) + ([CLOSE_LIST] + rest)
      && (es == [] ==> s[1] == CLOSE_LIST && s[2..] == rest)
      && (es != [] ==> s[1] != CLOSE_LIST)
  {
    var s := Print(List(es)) + rest;
    assert s[1..] == PrintElements(es) + ([CLOSE_LIST] + rest);
    if es != [] {
      FirstByte(es[0]);
      assert PrintElements(es)[0] == Print(es[0])[0];
      assert s[1] == s[1..][0];
    }
  }

  lemma ObjectText(ms: seq<Member>, rest: Text)
    ensures var s := Print(Object(ms)) + rest;
      && s[0] == OPEN
      && s[1..] == PrintMembers(ms) + ([CLOSE] + rest)
      && (ms == [] ==> s[1] == CLOSE && s[2..] == rest)
      && (ms != [] ==> s[1] == QUOTE)
  {
    var s := Print(Object(ms)) + rest;
    assert s[1..] == PrintMembers(ms) + ([CLOSE] + rest);
    if ms != [] {
      assert PrintMembers(ms)[0] == PrintMember(ms[0])[0] == QUOTE;
      assert s[1] == s[1..][0];
    }
  }

  lemma {:induction false} ValueRoundTrip(j: Json, rest: Text)
    requires Ends(rest)
    ensures ParseValue(Print(j) + rest) == Some((j, rest))
    decreases j
  {
    var s := Print(j) + rest;
    match j
    case Null =>
      assert s[..4] == NULL_TEXT && s[4..] == rest;
    case Bool(b) =>
      assert b ==> s[..4] == TRUE_TEXT && s[4..] == rest;
      assert !b ==> s[..5] == FALSE_TEXT && s[5..] == rest;
    case Num(text) =>
      NumberLengthIs(text, rest);
      assert s[..|text|] == text && s[|text|..] == rest;
    case Str(text) =>
      StringRoundTrip(text, rest);
    case List(es) =>
      ListText(es, rest);
      if es != [] {
        ElementsRoundTrip(es, rest);
      }
    case Object(ms) =>
      ObjectText(ms, rest);
      if ms != [] {
        MembersRoundTrip(ms, rest);
      }
  }

  lemma {:induction false} MemberRoundTrip(m: Member, rest: Text)
    requires Ends(rest)
    ensures ParseMember(PrintMember(m) + rest) == Some((m, rest))
    decreases m
  {
    hide ParseValue, ParseChars, PrintString, Print;
    ValueRoundTrip(m.value, rest);
    var value := Print(m.value) + rest;
    StringRoundTrip(m.key, [COLON] + value);
    assert PrintMember(m) + rest == PrintString(m.key) + ([COLON] + value);
  }

  lemma {:induction false} MembersRoundTrip(ms: seq<Member>, rest: Text)
    requires ms != []
    ensures ParseMembers(PrintMembers(ms) + ([CLOSE] + rest)) == Some((ms, rest))
    decreases ms
  {
    hide ParseMember, PrintMember;
    var end := [CLOSE] + rest;
    if |ms| == 1 {
      MemberRoundTrip(ms[0], end);
      assert ms == [ms[0]];
    } else {
      var more := PrintMembers(ms[1..]) + end;
      MembersRoundTrip(ms[1..], rest);
      MemberRoundTrip(ms[0], [COMMA] + more);
      assert PrintMembers(ms) + end == PrintMember(ms[0]) + ([COMMA] + more);
      assert ([COMMA] + more)[1..] == more;
      assert [ms[0]] + ms[1..] == ms;
    }
  }

  lemma ElementsText(es: seq<Json>)
    requires es != []
    ensures PrintElements(es)
         == if |es| == 1 then Print(es[0]) else Print(es[0]) + [COMMA] + PrintElements(es[1..])
  {
  }

  lemma {:induction false} ElementsRoundTrip(es: seq<Json>, rest: Text)
    requires es != []
    ensures ParseElements(PrintElements(es) + ([CLOSE_LIST] + rest)) == Some((es, rest))
    decreases es
  {
    hide ParseValue, Print, PrintElements;
    ElementsText(es);
    var end := [CLOSE_LIST] + rest;
    if |es| == 1 {
      ValueRoundTrip(es[0], end);
      assert es == [es[0]];
    } else {
      var more := PrintElements(es[1..]) + end;
      ElementsRoundTrip(es[1..], rest);
      ValueRoundTrip(es[0], [COMMA] + more);
      assert PrintElements(es) + end == Print(es[0]) + ([COMMA] + more);
      assert ([COMMA] + more)[1..] == more;
      assert [es[0]] + es[1..] == es;
    }
  }

  /** Parsing what was printed gives back the value. */
  lemma PrintedIsParsed(j: Json)
    ensures Parse(Print(j)) == Some(j)
  {
    ValueRoundTrip(j, []);
    assert Print(j) + [] == Print(j);
  }

  lemma PlainByteUnescaped(c: bv8)
    ensures EscapeByte(c) == [c] <==> PlainByte(c)
    ensures |EscapeByte(c)| >= 1
  {
  }

  /** A key is copied unescaped exactly when escaping would not change it. */
  lemma {:induction false} PlainIsUnescaped(key: Text)
    ensures Escape(key) == key <==> Plain(key)
    ensures |Escape(key)| >= |key|
  {
    if key != [] {
      PlainIsUnescaped(key[1..]);
      PlainByteUnescaped(key[0]);
      PlainConcat([key[0]], key[1..]);
      assert [key[0]] + key[1..] == key;
      PlainOne(key[0]);
      if Escape(key) == key {
        assert |EscapeByte(key[0])| == 1;
        assert Escape(key)[..1] == EscapeByte(key[0]) && key[..1] == [key[0]];
        assert Escape(key)[1..] == Escape(key[1..]);
      }
    }
  }

  /** Member lists put one after the other, with a comma if neither is empty. */
  lemma {:induction false} MembersConcat(a: seq<Member>, b: seq<Member>)
    ensures PrintMembers(a + b)
         == if a == [] then PrintMembers(b) else if b == [] then PrintMembers(a)
            else PrintMembers(a) + [COMMA] + PrintMembers(b)
    decreases |a|
  {
    hide PrintMember;
    if a == [] {
      assert a + b == b;
    } else if b == [] {
      assert a + b == a;
    } else {
      MembersConcat(a[1..], b);
      assert (a + b)[1..] == a[1..] + b;
      if |a| > 1 {
        Regroup(PrintMember(a[0]) + [COMMA], PrintMembers(a[1..]), [COMMA] + PrintMembers(b));
        assert PrintMembers(a + b) == PrintMember(a[0]) + [COMMA] + (PrintMembers(a[1..]) + [COMMA] + PrintMembers(b));
      }
    }
  }

  lemma NoMembersNoText(ms: seq<Member>)
    ensures PrintMembers(ms) == [] <==> ms == []
  {
  }

  lemma TwoElements(a: Json, b: Json)
    ensures Print(List([a, b])) == [0x5B] + Print(a) + [0x2C] + Print(b) + [0x5D]
  {
    var es: seq<Json> := [a, b];
    assert es[1..] == [b];
    assert PrintElements([b]) == Print(b);
    assert PrintElements(es) == Print(a) + [COMMA] + Print(b);
    assert [OPEN_LIST] + (Print(a) + [COMMA] + Print(b)) == [0x5B] + Print(a) + [0x2C] + Print(b);
  }

  lemma OnePlainMember(k: Text, v: Json)
    requires Plain(k)
    ensures Print(Object([Member(k, v)])) == [0x7B, 0x22] + k + [0x22, 0x3A] + Print(v) + [0x7D]
  {
    hide Escape;
    PlainIsUnescaped(k);
    assert PrintMembers([Member(k, v)]) == PrintMember(Member(k, v));
  }

  lemma OneEscape(c: bv8)
    ensures Escape([c]) == EscapeByte(c)
  {
    hide EscapeByte;
    assert [c][1..] == [];
    assert EscapeByte(c) + [] == EscapeByte(c);
  }

  lemma ShortEscapes()
    ensures Escape([0x08, 0x0C, 0x0D, 0x09]) == [0x5C, 0x62, 0x5C, 0x66, 0x5C, 0x72, 0x5C, 0x74]
  {
    var s: Text := [0x08, 0x0C, 0x0D, 0x09];
    assert s[1..] == [0x0C, 0x0D, 0x09] && s[1..][1..] == [0x0D, 0x09] && s[1..][1..][1..] == [0x09];
    OneEscape(0x09);
    assert Escape([0x0D, 0x09]) == [0x5C, 0x72, 0x5C, 0x74];
    assert Escape([0x0C, 0x0D, 0x09]) == [0x5C, 0x66, 0x5C, 0x72, 0x5C, 0x74];
  }

  lemma KnownEscapes()
    ensures Escape([0x22]) == [0x5C, 0x22] && Escape([0x5C]) == [0x5C, 0x5C] && Escape([0x0A]) == [0x5C, 0x6E]
    ensures Escape([0x1F]) == [0x5C, 0x75, 0x30, 0x30, 0x31, 0x66]
    ensures Escape([0x00]) == [0x5C, 0x75, 0x30, 0x30, 0x30, 0x30]
    ensures Escape([0x08, 0x0C, 0x0D, 0x09]) == [0x5C, 0x62, 0x5C, 0x66, 0x5C, 0x72, 0x5C, 0x74]
  {
    ShortEscapes();
    assert EscapeByte(0x00) == [0x5C, 0x75, 0x30, 0x30, 0x30, 0x30];
    OneEscape(0x00);
    assert EscapeByte(0x1F) == [0x5C, 0x75, 0x30, 0x30, 0x31, 0x66];
    OneEscape(0x22);
    OneEscape(0x5C);
    OneEscape(0x0A);
    OneEscape(0x1F);
  }

  lemma NoElementsNoText()
    ensures PrintElements([]) == [] && PrintMembers([]) == []
  {
  }

  lemma Quoted(t: Text)
    ensures Print(Str(t)) == [0x22] + Escape(t) + [0x22]
  {
  }

  /** Strings written out: every kind of escape. */
  lemma KnownStrings()
    ensures Print(Str([0x22])) == [0x22, 0x5C, 0x22, 0x22] && Print(Str([0x5C])) == [0x22, 0x5C, 0x5C, 0x22]
    ensures Print(Str([0x0A])) == [0x22, 0x5C, 0x6E, 0x22]
    ensures Print(Str([0x1F])) == [0x22, 0x5C, 0x75, 0x30, 0x30, 0x31, 0x66, 0x22]
    ensures Print(Str([0x08, 0x0C, 0x0D, 0x09])) == [0x22, 0x5C, 0x62, 0x5C, 0x66, 0x5C, 0x72, 0x5C, 0x74, 0x22]
    ensures Print(Str([0x00])) == [0x22, 0x5C, 0x75, 0x30, 0x30, 0x30, 0x30, 0x22]
  {
    hide Escape, EscapeByte, Print;
    KnownEscapes();
    Quoted([0x22]);
    Quoted([0x5C]);
    Quoted([0x0A]);
    Quoted([0x1F]);
    Quoted([0x08, 0x0C, 0x0D, 0x09]);
    Quoted([0x00]);
  }

  /** Texts written out: the literals and the punctuation of lists and objects. */
  lemma KnownTexts(a: Json, b: Json, k: Text, v: Json)
    ensures Print(Null) == [0x6E, 0x75, 0x6C, 0x6C]
    ensures Print(Bool(true)) == [0x74, 0x72, 0x75, 0x65]
    ensures Print(Bool(false)) == [0x66, 0x61, 0x6C, 0x73, 0x65]
    ensures Print(List([])) == [0x5B, 0x5D] && Print(Object([])) == [0x7B, 0x7D]
    ensures Print(List([a, b])) == [0x5B] + Print(a) + [0x2C] + Print(b) + [0x5D]
    ensures Plain(k) ==>
      Print(Object([Member(k, v)])) == [0x7B, 0x22] + k + [0x22, 0x3A] + Print(v) + [0x7D]
  {
    TwoElements(a, b);
    if Plain(k) {
      OnePlainMember(k, v);
    }
    hide Escape, PrintElements, PrintMembers;
    NoElementsNoText();
  }
}
