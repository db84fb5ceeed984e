/**
 Event payloads, spliced together from text that is already serialised: the
 `Props` builder, the `JsonObject` writer and the cached super properties.
 */
module Payload {
  import opened Wrappers
  import opened KeyScan
  import opened Json

  lemma PlainKeyText(key: Text)
    requires Plain(key)
    ensures [QUOTE] + key + [QUOTE, COLON] == PrintString(key) + [COLON]
  {
    PlainIsUnescaped(key);
  }

  lemma Grouped(a: Text, b: Text, c: Text, d: Text)
    ensures ((a + b) + c) + d == a + (b + c + d)
  {
  }

  /** The text of a member list grows by a separator and the member. */
  lemma OneMoreMember(ms: seq<Member>, m: Member)
    ensures var open := [OPEN] + PrintMembers(ms);
      [OPEN] + PrintMembers(ms + [m])
      == (if ms == [] then [OPEN] else open + [COMMA]) + (PrintString(m.key) + [COLON] + Print(m.value))
  {
    hide PrintString, Print;
    MembersConcat(ms, [m]);
    assert PrintMembers([m]) == PrintMember(m);
    if ms != [] {
      Regroup([OPEN], PrintMembers(ms) + [COMMA], PrintMember(m));
      Regroup([OPEN], PrintMembers(ms), [COMMA]);
    }
  }

  /** The builder of caller properties. */
  class Props {
    var buf: Text
    var count: nat
    ghost var members: seq<Member>

    ghost predicate Valid()
      reads this
    {
      count == |members| && buf == if members == [] then [] else [OPEN] + PrintMembers(members)
    }

    constructor ()
      ensures Valid() && members == []
    {
      buf := [];
      count := 0;
      members := [];
    }

    method Separator()
      modifies this`buf
      ensures buf == old(buf) + [if count == 0 then OPEN else COMMA]
    {
      if count == 0 {
        buf := buf + [OPEN];
      } else {
        buf := buf + [COMMA];
      }
    }

    /** Keys the fast scan finds plain are copied, others escaped: the text is the same member either way. */
    method Add(key: Text, value: Json)
      requires Valid()
      modifies this
      ensures Valid() && members == old(members) + [Member(key, value)]
    {
      hide PrintString, Print, Escape;
      Separator();
      var plain := KeyIsPlainFast(key);
      ghost var before := buf;
      if plain {
        PlainKeyText(key);
        buf := buf + [QUOTE];
        buf := buf + key;
        buf := buf + [QUOTE, COLON];
        Grouped(before, [QUOTE], key, [QUOTE, COLON]);
      } else {
        buf := buf + PrintString(key);
        buf := buf + [COLON];
        Regroup(before, PrintString(key), [COLON]);
      }
      assert buf == before + (PrintString(key) + [COLON]);
      buf := buf + Print(value);
      count := count + 1;
      Regroup(before, PrintString(key) + [COLON], Print(value));
      OneMoreMember(members, Member(key, value));
      members := members + [Member(key, value)];
    }

    /** For a key the `props!` macro has checked at compile time. */
    method AddPlain(key: Text, value: Json)
      requires Valid() && Plain(key)
      modifies this
      ensures Valid() && members == old(members) + [Member(key, value)]
    {
      hide PrintString, Print, Escape;
      Separator();
      ghost var before := buf;
      PlainKeyText(key);
      buf := buf + [QUOTE];
      buf := buf + key;
      buf := buf + [QUOTE, COLON];
      Grouped(before, [QUOTE], key, [QUOTE, COLON]);
      buf := buf + Print(value);
      count := count + 1;
      Regroup(before, PrintString(key) + [COLON], Print(value));
      OneMoreMember(members, Member(key, value));
      members := members + [Member(key, value)];
    }

    method Finish() returns (text: Text)
      requires Valid()
      modifies this
      ensures text == Print(Object(old(members)))
    {
      if count == 0 {
        buf := buf + [OPEN, CLOSE];
      } else {
        buf := buf + [CLOSE];
      }
      text := buf;
    }
  }

  // ---- Splicing ----

  /** The members of a serialised object, without the braces. */
  function ObjectInner(bytes: Option<Text>): Option<Text> {
    var b :- bytes;
    if |b| > 2 && b[0] == OPEN && b[|b| - 1] == CLOSE then Some(b[1..|b| - 1]) else None
  }

  function MembersOf(j: Option<Json>): seq<Member> {
    if j.Some? && j.value.Object? then j.value.members else []
  }

  function TextOf(j: Option<Json>): Option<Text> {
    if j.Some? then Some(Print(j.value)) else None
  }

  lemma MemberIsLong(m: Member)
    ensures |PrintMember(m)| >= 4
  {
    FirstByte(m.value);
  }

  lemma MembersAreLong(ms: seq<Member>)
    requires ms != []
    ensures |PrintMembers(ms)| >= 4
  {
    hide PrintMember;
    MemberIsLong(ms[0]);
  }

  /** Exactly the non-empty objects have an inside, and it is their members' text. */
  lemma InnerOfPrinted(j: Json)
    ensures ObjectInner(Some(Print(j)))
         == if j.Object? && j.members != [] then Some(PrintMembers(j.members)) else None
  {
    FirstByte(j);
    if j.Object? {
      var inside := PrintMembers(j.members);
      hide PrintMembers;
      NoMembersNoText(j.members);
      if j.members != [] {
        MembersAreLong(j.members);
      }
      assert Print(j)[1..|Print(j)| - 1] == inside;
    }
  }

  lemma Spliced(a: seq<Member>, b: seq<Member>)
    ensures b == [] ==> a + b == a
    ensures b != [] ==>
      [OPEN] + PrintMembers(a + b) == [OPEN] + PrintMembers(a) + (if a == [] then [] else [COMMA]) + PrintMembers(b)
  {
    hide PrintMember;
    MembersConcat(a, b);
  }

  /** The incremental writer of one object. */
  class JsonObject {
    var buf: Text
    ghost var members: seq<Member>

    ghost predicate Valid()
      reads this
    {
      buf == [OPEN] + PrintMembers(members)
    }

    constructor ()
      ensures Valid() && members == []
    {
      buf := [OPEN];
      members := [];
    }

    method Separator()
      requires Valid()
      modifies this`buf
      ensures buf == old(buf) + if members == [] then [] else [COMMA]
    {
      NoMembersNoText(members);
      if |buf| > 1 {
        buf := buf + [COMMA];
      }
    }

    /** One more member; `keyColon` is the literal text of the key and its colon. */
    method Field(keyColon: Text, ghost key: Text, value: Json)
      requires Valid() && keyColon == PrintString(key) + [COLON]
      modifies this
      ensures Valid() && members == old(members) + [Member(key, value)]
    {
      hide PrintString, Print;
      Separator();
      ghost var before := buf;
      buf := buf + keyColon;
      buf := buf + Print(value);
      Regroup(before, keyColon, Print(value));
      OneMoreMember(members, Member(key, value));
      members := members + [Member(key, value)];
    }

    /** Splices in members that are serialised already. */
    method Fragment(fragment: Text, ghost ms: seq<Member>)
      requires Valid() && fragment == PrintMembers(ms)
      modifies this
      ensures Valid() && members == old(members) + ms
    {
      NoMembersNoText(ms);
      Spliced(members, ms);
      hide PrintMembers;
      if fragment == [] {
        return;
      }
      Separator();
      buf := buf + fragment;
      members := members + ms;
    }

    /** Splices in the members of a serialised object; what is not an object is ignored. */
    method Splice(text: Option<Text>, ghost j: Option<Json>)
      requires Valid() && text == TextOf(j)
      modifies this
      ensures Valid() && members == old(members) + MembersOf(j)
    {
      if j.Some? {
        InnerOfPrinted(j.value);
      }
      Spliced(members, MembersOf(j));
      hide PrintMembers, Print;
      var inner := ObjectInner(text);
      if inner.Some? {
        Separator();
        buf := buf + inner.value;
      }
      members := members + MembersOf(j);
    }

    method Finish() returns (text: Text)
      requires Valid()
      modifies this
      ensures text == Print(Object(members)) && members == old(members)
    {
      buf := buf + [CLOSE];
      text := buf;
    }
  }

  // ---- Last name wins ----

  /** How a reader of an object with repeated names finds a value: the last one counts. */
  function Lookup(ms: seq<Member>, key: Text): Option<Json> {
    if ms == [] then None
    else if ms[|ms| - 1].key == key then Some(ms[|ms| - 1].value)
    else Lookup(ms[..|ms| - 1], key)
  }

  lemma {:induction false} LookupConcat(a: seq<Member>, b: seq<Member>, key: Text)
    ensures Lookup(a + b, key) == if Lookup(b, key).Some? then Lookup(b, key) else Lookup(a, key)
  {
    if b == [] {
      assert a + b == a;
    } else {
      LookupConcat(a, b[..|b| - 1], key);
      assert (a + b)[..|a + b| - 1] == a + b[..|b| - 1];
    }
  }

  // ---- Maps, printed in the order of their keys ----

  predicate LexLe(a: Text, b: Text) {
    a == [] || (b != [] && (a[0] < b[0] || (a[0] == b[0] && LexLe(a[1..], b[1..]))))
  }

  /** Keys are compared as in a dictionary: the first byte that differs decides, and a prefix comes first. */
  lemma {:induction false} FirstDifferenceDecides(p: Text, x: bv8, y: bv8, u: Text, v: Text)
    requires x < y
    ensures LexLe(p + [x] + u, p + [y] + v) && !LexLe(p + [y] + v, p + [x] + u)
    ensures LexLe(p, p + u)
  {
    if p != [] {
      FirstDifferenceDecides(p[1..], x, y, u, v);
      assert (p + [x] + u)[1..] == p[1..] + [x] + u;
      assert (p + [y] + v)[1..] == p[1..] + [y] + v;
      assert (p + u)[1..] == p[1..] + u;
    }
  }

  lemma {:induction false} LexTotal(a: Text, b: Text)
    ensures LexLe(a, b) || LexLe(b, a)
    ensures LexLe(a, b) && LexLe(b, a) ==> a == b
  {
    if a != [] && b != [] && a[0] == b[0] {
      LexTotal(a[1..], b[1..]);
      if a[1..] == b[1..] {
        assert a == [a[0]] + a[1..] && b == [b[0]] + b[1..];
      }
    }
  }

  lemma {:induction false} LexTransitive(a: Text, b: Text, c: Text)
    requires LexLe(a, b) && LexLe(b, c)
    ensures LexLe(a, c)
  {
    if a != [] && a[0] == b[0] && b[0] == c[0] {
      LexTransitive(a[1..], b[1..], c[1..]);
    }
  }

  predicate IsFirst(k: Text, ks: set<Text>) {
    k in ks && forall o :: o in ks ==> LexLe(k, o)
  }

  lemma FirstOfTwo(ks: set<Text>, k: Text, f: Text)
    requires k in ks && IsFirst(f, ks - {k})
    ensures IsFirst(k, ks) || IsFirst(f, ks)
  {
    hide LexLe;
    LexTotal(k, f);
    LexTotal(k, k);
    if LexLe(f, k) {
      assert IsFirst(f, ks);
    } else {
      forall o | o in ks
        ensures LexLe(k, o)
      {
        if o != k {
          LexTransitive(k, f, o);
        }
      }
    }
  }

  lemma {:induction false} FirstExists(ks: set<Text>)
    requires ks != {}
    ensures exists k :: IsFirst(k, ks)
    decreases |ks|
  {
    hide LexLe;
    var k :| k in ks;
    var rest := ks - {k};
    LexTotal(k, k);
    if rest == {} {
      assert ks == {k};
      assert IsFirst(k, ks);
    } else {
      FirstExists(rest);
      var f :| IsFirst(f, rest);
      FirstOfTwo(ks, k, f);
    }
  }

  lemma FirstIsUnique(ks: set<Text>)
    ensures forall a, b :: IsFirst(a, ks) && IsFirst(b, ks) ==> a == b
  {
    forall a, b | IsFirst(a, ks) && IsFirst(b, ks)
      ensures a == b
    {
      LexTotal(a, b);
    }
  }

  function SortedKeys(ks: set<Text>): seq<Text>
    decreases |ks|
  {
    if ks == {} then []
    else
      FirstExists(ks);
      FirstIsUnique(ks);
      var k :| IsFirst(k, ks);
      [k] + SortedKeys(ks - {k})
  }

  lemma FirstIsIn(k: Text, ks: set<Text>)
    requires IsFirst(k, ks)
    ensures k in ks && forall o :: o in ks ==> LexLe(k, o)
  {
  }

  lemma {:induction false} KeysAreSorted(ks: set<Text>)
    ensures forall k :: k in SortedKeys(ks) <==> k in ks
    ensures |SortedKeys(ks)| == |ks|
    ensures forall i, j :: 0 <= i < j < |ks| ==>
      LexLe(SortedKeys(ks)[i], SortedKeys(ks)[j]) && SortedKeys(ks)[i] != SortedKeys(ks)[j]
    decreases |ks|
  {
    hide IsFirst, LexLe;
    if ks != {} {
      FirstExists(ks);
      var rest: seq<Text>;
      var k :| IsFirst(k, ks) && SortedKeys(ks) == [k] + SortedKeys(ks - {k});
      rest := SortedKeys(ks - {k});
      FirstIsIn(k, ks);
      KeysAreSorted(ks - {k});
      forall j | 0 <= j < |rest|
        ensures LexLe(k, rest[j]) && k != rest[j]
      {
        assert rest[j] in rest;
      }
    }
  }

  /** A map's members in the order of its keys. */
  function MapMembers(m: map<Text, Json>): seq<Member> {
    KeysAreSorted(m.Keys);
    var keys := SortedKeys(m.Keys);
    seq(|keys|, i requires 0 <= i < |keys| => Member(keys[i], m[keys[i]]))
  }

  lemma {:induction false} LookupIn(ms: seq<Member>, m: map<Text, Json>, key: Text)
    requires forall i :: 0 <= i < |ms| ==> ms[i].key in m && ms[i].value == m[ms[i].key]
    ensures Lookup(ms, key) == if exists i :: 0 <= i < |ms| && ms[i].key == key then Some(m[key]) else None
  {
    if ms != [] {
      LookupIn(ms[..|ms| - 1], m, key);
    }
  }

  /** Looking a key up in a printed map is looking it up in the map. */
  lemma LookupMap(m: map<Text, Json>, key: Text)
    ensures Lookup(MapMembers(m), key) == if key in m then Some(m[key]) else None
  {
    KeysAreSorted(m.Keys);
    var ms, keys := MapMembers(m), SortedKeys(m.Keys);
    LookupIn(ms, m, key);
    if key in m {
      assert key in keys;
      var i :| 0 <= i < |keys| && keys[i] == key;
      assert ms[i].key == key;
    }
  }

  // ---- Super properties ----

  /** A parsed value: every object in it has become a map, so names are unique and in order. */
  function Normal(j: Json): Json
    decreases j
  {
    match j
    case List(es) => List(NormalAll(es))
    case Object(ms) => Object(MapMembers(ToMap(ms)))
    case _ => j
  }

  function NormalAll(es: seq<Json>): seq<Json>
    decreases es
  {
    if es == [] then [] else [Normal(es[0])] + NormalAll(es[1..])
  }

  /** The map a parser makes of members: the last of equal names stays. */
  function ToMap(ms: seq<Member>): map<Text, Json>
    decreases ms
  {
    if ms == [] then map[] else ToMap(ms[..|ms| - 1])[ms[|ms| - 1].key := Normal(ms[|ms| - 1].value)]
  }

  lemma {:induction false} ToMapLookup(ms: seq<Member>, key: Text)
    ensures key in ToMap(ms) <==> Lookup(ms, key).Some?
    ensures key in ToMap(ms) ==> ToMap(ms)[key] == Normal(Lookup(ms, key).value)
  {
    if ms != [] {
      ToMapLookup(ms[..|ms| - 1], key);
    }
  }

  // ---- Parsing preserves what a value means ----

  /**
   Two values say the same: equal scalars, lists element by element, and objects in
   which every name, read so that the last of equal names wins, has the same value.
   */
  ghost predicate Means(a: Json, b: Json)
    decreases a
  {
    match a
    case Null => b.Null?
    case Bool(x) => b.Bool? && b.b == x
    case Num(t) => b.Num? && b.number == t
    case Str(t) => b.Str? && b.text == t
    case List(es) =>
      && b.List? && |b.elements| == |es|
      && forall i :: 0 <= i < |es| ==> Means(es[i], b.elements[i])
    case Object(ms) =>
      && b.Object?
      && (forall key :: Lookup(ms, key).Some? <==> Lookup(b.members, key).Some?)
      && forall i :: 0 <= i < |ms| && Lookup(ms, ms[i].key) == Some(ms[i].value) ==>
           Lookup(b.members, ms[i].key).Some? && Means(ms[i].value, Lookup(b.members, ms[i].key).value)
  }

  /** No object in the value has a name twice. */
  ghost predicate UniqueNames(j: Json)
    decreases j
  {
    match j
    case List(es) => forall i :: 0 <= i < |es| ==> UniqueNames(es[i])
    case Object(ms) =>
      && (forall i, k :: 0 <= i < k < |ms| ==> ms[i].key != ms[k].key)
      && forall i :: 0 <= i < |ms| ==> UniqueNames(ms[i].value)
    case _ => true
  }

  lemma {:induction false} LookupAt(ms: seq<Member>, key: Text) returns (i: nat)
    requires Lookup(ms, key).Some?
    ensures i < |ms| && ms[i].key == key && Lookup(ms, key) == Some(ms[i].value)
  {
    var n := |ms| - 1;
    if ms[n].key == key {
      i := n;
    } else {
      i := LookupAt(ms[..n], key);
    }
  }

  lemma {:induction false} NormalElements(es: seq<Json>)
    ensures |NormalAll(es)| == |es|
    ensures forall i :: 0 <= i < |es| ==> NormalAll(es)[i] == Normal(es[i])
  {
    hide Normal;
    if es != [] {
      NormalElements(es[1..]);
    }
  }

  /** Looking a name up in a parsed object is looking it up in the text and parsing that. */
  lemma NormalLookup(ms: seq<Member>, key: Text)
    ensures Lookup(MapMembers(ToMap(ms)), key)
         == if Lookup(ms, key).Some? then Some(Normal(Lookup(ms, key).value)) else None
  {
    hide Normal, MapMembers;
    ToMapLookup(ms, key);
    LookupMap(ToMap(ms), key);
  }

  /** A parsed value says what the text says. */
  lemma {:induction false} ParsingPreserves(j: Json)
    ensures Means(j, Normal(j))
    decreases j
  {
    match j
    case List(es) =>
      NormalElements(es);
      forall i | 0 <= i < |es|
        ensures Means(es[i], Normal(es[i]))
      {
        ParsingPreserves(es[i]);
      }
    case Object(ms) =>
      forall key: Text
        ensures Lookup(ms, key).Some? <==> Lookup(MapMembers(ToMap(ms)), key).Some?
      {
        NormalLookup(ms, key);
      }
      forall i | 0 <= i < |ms| && Lookup(ms, ms[i].key) == Some(ms[i].value)
        ensures Lookup(MapMembers(ToMap(ms)), ms[i].key).Some?
        ensures Means(ms[i].value, Lookup(MapMembers(ToMap(ms)), ms[i].key).value)
      {
        NormalLookup(ms, ms[i].key);
        ParsingPreserves(ms[i].value);
      }
    case _ =>
  }

  lemma NormalObject(ms: seq<Member>)
    ensures Normal(Object(ms)) == Object(MapMembers(ToMap(ms)))
  {
  }

  /** A parsed value has every name once. */
  lemma {:induction false} ParsedNamesAreUnique(j: Json)
    ensures UniqueNames(Normal(j))
    decreases j
  {
    match j
    case List(es) =>
      NormalElements(es);
      forall i | 0 <= i < |es|
        ensures UniqueNames(Normal(es[i]))
      {
        ParsedNamesAreUnique(es[i]);
      }
    case Object(ms) =>
      var m := ToMap(ms);
      var ns := MapMembers(m);
      KeysAreSorted(m.Keys);
      hide LexLe, SortedKeys, Normal;
      forall i | 0 <= i < |ns|
        ensures UniqueNames(ns[i].value)
      {
        ToMapLookup(ms, ns[i].key);
        assert SortedKeys(m.Keys)[i] in m;
        var k := LookupAt(ms, ns[i].key);
        ParsedNamesAreUnique(ms[k].value);
      }
      NormalObject(ms);
    case _ =>
  }

  /** What registering a payload makes of the map: an object's members override, anything else is ignored. */
  function Registered(m: map<Text, Json>, properties: Option<Text>): map<Text, Json> {
    if properties.None? then m
    else
      var parsed := Parse(properties.value);
      if parsed.Some? && parsed.value.Object? then m + ToMap(parsed.value.members) else m
  }

  /** Kept as a map, for changes, and as text, for splicing; `rebuild` makes the text anew. */
  class SuperProps {
    var props: map<Text, Json>
    var fragment: Text

    ghost predicate Valid()
      reads this
    {
      fragment == PrintMembers(MapMembers(props))
    }

    constructor ()
      ensures Valid() && props == map[]
    {
      hide SortedKeys;
      props := map[];
      fragment := [];
      new;
      KeysAreSorted({});
      assert props.Keys == {};
      assert MapMembers(props) == [];
    }

    method Rebuild()
      modifies this`fragment
      ensures Valid()
    {
      hide MapMembers, Print, PrintMembers;
      var bytes := Print(Object(MapMembers(props)));
      InnerOfPrinted(Object(MapMembers(props)));
      NoMembersNoText(MapMembers(props));
      var inner := ObjectInner(Some(bytes));
      fragment := if inner.Some? then inner.value else [];
    }

    method Register(properties: Option<Text>)
      requires Valid()
      modifies this
      ensures Valid() && props == Registered(old(props), properties)
    {
      if properties.Some? {
        var parsed := Parse(properties.value);
        if parsed.Some? && parsed.value.Object? {
          props := props + ToMap(parsed.value.members);
          Rebuild();
        }
      }
    }

    method Unregister(key: Text)
      requires Valid()
      modifies this
      ensures Valid() && props == old(props) - {key}
    {
      hide MapMembers;
      if key in props {
        props := props - {key};
        Rebuild();
      } else {
        assert props - {key} == props;
      }
    }

    method SuperFragment() returns (r: Option<Text>)
      requires Valid()
      ensures r.None? <==> props == map[]
      ensures r.Some? ==> r.value == PrintMembers(MapMembers(props))
    {
      NoMembersNoText(MapMembers(props));
      KeysAreSorted(props.Keys);
      hide SortedKeys;
      if fragment == [] {
        assert |MapMembers(props)| == |props.Keys|;
        assert props.Keys == {};
        return None;
      }
      return Some(fragment);
    }
  }

  const USER_ID: Text := [0x75, 0x73, 0x65, 0x72, 0x5F, 0x69, 0x64]

  /** `{"user_id":..,<super props>,<props>}` */
  function PayloadMembers(userId: Text, super: map<Text, Json>, j: Option<Json>): seq<Member> {
    [Member(USER_ID, Str(userId))] + MapMembers(super) + MembersOf(j)
  }

  lemma EmptyMap(m: map<Text, Json>)
    ensures m == map[] ==> MapMembers(m) == [] && PrintMembers(MapMembers(m)) == []
  {
    if m == map[] {
      assert m.Keys == {};
    }
  }

  method EventPayload(sp: SuperProps, userId: Text, properties: Option<Text>, ghost j: Option<Json>)
      returns (payload: Text)
    requires sp.Valid() && properties == TextOf(j)
    ensures payload == Print(Object(PayloadMembers(userId, sp.props, j)))
  {
    hide MapMembers, Print, PrintMembers, PrintString;
    var fragment := sp.SuperFragment();
    var writer := new JsonObject();
    writer.Field(PrintString(USER_ID) + [COLON], USER_ID, Str(userId));
    EmptyMap(sp.props);
    writer.Fragment(if fragment.Some? then fragment.value else [], MapMembers(sp.props));
    writer.Splice(properties, j);
    assert writer.members == PayloadMembers(userId, sp.props, j);
    payload := writer.Finish();
  }

  /**
   A reader that lets the last of equal names win finds the caller's property
   first, then the super property, then the user id.
   */
  lemma PayloadReads(userId: Text, super: map<Text, Json>, j: Option<Json>, key: Text)
    ensures var ms := PayloadMembers(userId, super, j);
      && Parse(Print(Object(ms))) == Some(Object(ms))
      && Lookup(ms, key) ==
         if Lookup(MembersOf(j), key).Some? then Lookup(MembersOf(j), key)
         else if key in super then Some(super[key])
         else if key == USER_ID then Some(Str(userId))
         else None
  {
    hide MapMembers, Print, Parse;
    var user := [Member(USER_ID, Str(userId))];
    PrintedIsParsed(Object(PayloadMembers(userId, super, j)));
    LookupConcat(user + MapMembers(super), MembersOf(j), key);
    LookupConcat(user, MapMembers(super), key);
    LookupMap(super, key);
    assert user[..0] == [];
  }

  /** Registering printed properties overrides by name and leaves other names alone. */
  lemma RegisteredReads(m: map<Text, Json>, j: Json, key: Text)
    ensures var after := Registered(m, Some(Print(j)));
      var given := Lookup(MembersOf(Some(j)), key);
      && (given.Some? ==> key in after && Means(given.value, after[key]) && UniqueNames(after[key]))
      && (given.None? ==> (key in after <==> key in m) && (key in m ==> after[key] == m[key]))
    ensures Registered(m, None) == m
  {
    hide Parse, Print, Normal, Means, UniqueNames;
    PrintedIsParsed(j);
    if j.Object? {
      ToMapLookup(j.members, key);
      if Lookup(j.members, key).Some? {
        ParsingPreserves(Lookup(j.members, key).value);
        ParsedNamesAreUnique(Lookup(j.members, key).value);
      }
    }
  }

  // ---- Whole runs of register and unregister ----

  datatype Change = Register(properties: Option<Json>) | Unregister(key: Text)

  /** The super properties after a run of changes. */
  function After(changes: seq<Change>): map<Text, Json> {
    if changes == [] then map[]
    else
      var before := After(changes[..|changes| - 1]);
      match changes[|changes| - 1]
      case Register(properties) => Registered(before, TextOf(properties))
      case Unregister(key) => before - {key}
  }

  /** What the latest change that names `key` says about it. */
  function Latest(changes: seq<Change>, key: Text): Option<Json> {
    if changes == [] then None
    else
      var earlier := Latest(changes[..|changes| - 1], key);
      match changes[|changes| - 1]
      case Register(properties) =>
        var given := Lookup(MembersOf(properties), key);
        if given.Some? then given else earlier
      case Unregister(k) => if k == key then None else earlier
  }

  /** The super properties hold, for every name, what was given for it last. */
  lemma {:induction false} AfterIsLatest(changes: seq<Change>, key: Text)
    ensures key in After(changes) <==> Latest(changes, key).Some?
    ensures key in After(changes) ==>
      Means(Latest(changes, key).value, After(changes)[key]) && UniqueNames(After(changes)[key])
  {
    hide Registered, Parse, Print, Means, UniqueNames;
    if changes != [] {
      var n := |changes| - 1;
      AfterIsLatest(changes[..n], key);
      match changes[n]
      case Register(properties) =>
        RegisteredReads(After(changes[..n]), if properties.Some? then properties.value else Null, key);
      case Unregister(_) =>
    }
  }

  /** After any run the cached fragment is the inside of the printed map. */
  method RunChanges(changes: seq<Change>) returns (sp: SuperProps)
    ensures fresh(sp) && sp.Valid() && sp.props == After(changes)
  {
    hide Registered, MapMembers, PrintMembers;
    sp := new SuperProps();
    var i := 0;
    assert changes[..0] == [];
    while i < |changes|
      invariant fresh(sp) && i <= |changes| && sp.Valid() && sp.props == After(changes[..i])
    {
      assert changes[..i + 1][..i] == changes[..i];
      match changes[i] {
        case Register(properties) => sp.Register(TextOf(properties));
        case Unregister(key) => sp.Unregister(key);
      }
      i := i + 1;
    }
    assert changes[..|changes|] == changes;
  }

  /** What a receiver finds in a track payload after any run of changes. */
  lemma TrackPayloadReads(changes: seq<Change>, userId: Text, j: Option<Json>, key: Text)
    ensures var ms := PayloadMembers(userId, After(changes), j);
      && Parse(Print(Object(ms))) == Some(Object(ms))
      && (Lookup(MembersOf(j), key).Some? ==> Lookup(ms, key) == Lookup(MembersOf(j), key))
      && (Lookup(MembersOf(j), key).None? && Latest(changes, key).Some? ==>
            Lookup(ms, key).Some? && Means(Latest(changes, key).value, Lookup(ms, key).value))
      && (Lookup(MembersOf(j), key).None? && Latest(changes, key).None? ==>
            Lookup(ms, key) ==
            if key == [0x75, 0x73, 0x65, 0x72, 0x5F, 0x69, 0x64] then Some(Str(userId)) else None)
  {
    hide After, Latest, Parse, Print, Means, UniqueNames;
    PayloadReads(userId, After(changes), j, key);
    AfterIsLatest(changes, key);
  }
}
