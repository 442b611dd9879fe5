/**
 * A reader of JSON texts, after RFC 8259 and with nothing taken from the serializer, that takes no blanks and
 * only the escapes of RFC 8785; and what it reads in a canonical text: the value that was serialized, with the
 * members of every object in the order of their keys.
 */
module CanonicalReader {
  import opened Seqs
  import opened Wrappers
  import opened CanonicalJson
  import opened CanonicalReading

  // ---------- the reader ----------

  /** What stands in a text; the members of an object in the order in which they stand. */
  datatype Tree =
    | TNull
    | TBool(b: bool)
    | TNumber(n: int)
    | TStr(s: Text)
    | TArr(items: seq<Tree>)
    | TObj(pairs: seq<Pair>)

  datatype Pair = Pair(key: Text, value: Tree)

  /** What was read, and what is left of the text. */
  datatype Got<T> = Got(value: T, rest: Text)

  predicate StartsWith(t: Text, c: char) {
    t != [] && t[0] == c as int
  }

  predicate Begins(t: Text, s: string) {
    |s| <= |t| && forall i | 0 <= i < |s| :: t[i] == s[i] as int
  }

  function Literal(t: Text, s: string, tree: Tree): (r: Option<Got<Tree>>)
    requires s != ""
    ensures r.Some? ==> |r.value.rest| < |t|
  {
    if Begins(t, s) then Some(Got(tree, t[|s|..])) else None
  }

  /** Small letters only. */
  function HexValue(u: Unit): Option<nat> {
    if '0' as int <= u <= '9' as int then Some(u - '0' as int)
    else if 'a' as int <= u <= 'f' as int then Some(u - 'a' as int + 10)
    else None
  }

  /** The four hexadecimal digits of an escape. */
  function ReadHex(t: Text): Option<Unit>
    requires |t| >= 4
  {
    var a, b, c, d := HexValue(t[0]), HexValue(t[1]), HexValue(t[2]), HexValue(t[3]);
    if a.None? || b.None? || c.None? || d.None? then None
    else
      assert a.value < 16 && b.value < 16 && c.value < 16 && d.value < 16;
      Some(4096 * a.value + 256 * b.value + 16 * c.value + d.value)
  }

  /** The units that have an escape of two units. */
  predicate HasShortEscape(u: Unit) {
    u in {8, 9, 10, 12, 13}
  }

  /** One unit of a string: as itself, or with the one escape that section 3.2.2.2 of RFC 8785 leaves it. */
  function ReadUnit(t: Text): (r: Option<Got<Unit>>)
    ensures r.Some? ==> |r.value.rest| < |t|
  {
    if t == [] || t[0] < 0x20 || t[0] == '"' as int then None
    else if t[0] != '\\' as int then Some(Got(t[0], t[1..]))
    else if |t| < 2 then None
    else if t[1] == '"' as int then Some(Got('"' as int, t[2..]))
    else if t[1] == '\\' as int then Some(Got('\\' as int, t[2..]))
    else if t[1] == 'b' as int then Some(Got(8, t[2..]))
    else if t[1] == 't' as int then Some(Got(9, t[2..]))
    else if t[1] == 'n' as int then Some(Got(10, t[2..]))
    else if t[1] == 'f' as int then Some(Got(12, t[2..]))
    else if t[1] == 'r' as int then Some(Got(13, t[2..]))
    else if t[1] == 'u' as int && |t| >= 6 then
      var u := ReadHex(t[2..6]);
      if u.Some? && u.value < 0x20 && !HasShortEscape(u.value) then Some(Got(u.value, t[6..])) else None
    else None
  }

  /** A string after its opening quote. */
  function ReadString(t: Text): (r: Option<Got<Text>>)
    ensures r.Some? ==> |r.value.rest| < |t|
    decreases |t|
  {
    if StartsWith(t, '"') then Some(Got([], t[1..]))
    else
      match ReadUnit(t)
      case None => None
      case Some(Got(u, rest)) =>
        var more := ReadString(rest);
        if more.None? then None else Some(Got([u] + more.value.value, more.value.rest))
  }

  predicate IsDigit(u: Unit) {
    '0' as int <= u <= '9' as int
  }

  /** How many digits a text starts with. */
  function DigitCount(t: Text): (n: nat)
    ensures n <= |t|
  {
    if t != [] && IsDigit(t[0]) then 1 + DigitCount(t[1..]) else 0
  }

  /** The number that digits write. */
  function ValueOfDigits(t: Text): int {
    if t == [] then 0 else 10 * ValueOfDigits(t[..|t| - 1]) + (t[|t| - 1] - '0' as int)
  }

  function ReadNumber(t: Text): (r: Option<Got<Tree>>)
    ensures r.Some? ==> |r.value.rest| < |t|
  {
    var digits := if StartsWith(t, '-') then t[1..] else t;
    var n := DigitCount(digits);
    if n == 0 then None
    else
      var value := ValueOfDigits(digits[..n]);
      Some(Got(TNumber(if StartsWith(t, '-') then -value else value), digits[n..]))
  }

  function ReadValue(t: Text): (r: Option<Got<Tree>>)
    ensures r.Some? ==> |r.value.rest| < |t|
    decreases |t|, 1
  {
    if t == [] then None
    else if t[0] == 'n' as int then Literal(t, "null", TNull)
    else if t[0] == 't' as int then Literal(t, "true", TBool(true))
    else if t[0] == 'f' as int then Literal(t, "false", TBool(false))
    else if t[0] == '"' as int then
      var s := ReadString(t[1..]);
      if s.None? then None else Some(Got(TStr(s.value.value), s.value.rest))
    else if t[0] == '[' as int then
      if StartsWith(t[1..], ']') then Some(Got(TArr([]), t[2..]))
      else
        var items := ReadItems(t[1..]);
        if items.None? then None else Some(Got(TArr(items.value.value), items.value.rest))
    else if t[0] == '{' as int then
      if StartsWith(t[1..], '}') then Some(Got(TObj([]), t[2..]))
      else
        var pairs := ReadPairs(t[1..]);
        if pairs.None? then None else Some(Got(TObj(pairs.value.value), pairs.value.rest))
    else ReadNumber(t)
  }

  /** One item or more, with the closing bracket. */
  function ReadItems(t: Text): (r: Option<Got<seq<Tree>>>)
    ensures r.Some? ==> |r.value.rest| < |t|
    decreases |t|, 2
  {
    match ReadValue(t)
    case None => None
    case Some(Got(v, rest)) =>
      if StartsWith(rest, ']') then Some(Got([v], rest[1..]))
      else if StartsWith(rest, ',') then
        var more := ReadItems(rest[1..]);
        if more.None? then None else Some(Got([v] + more.value.value, more.value.rest))
      else None
  }

  /** A key and its value. */
  function ReadPair(t: Text): (r: Option<Got<Pair>>)
    ensures r.Some? ==> |r.value.rest| < |t|
    decreases |t|, 2
  {
    if !StartsWith(t, '"') then None
    else
      match ReadString(t[1..])
      case None => None
      case Some(Got(key, rest)) =>
        if !StartsWith(rest, ':') then None
        else
          match ReadValue(rest[1..])
          case None => None
          case Some(Got(v, end)) => Some(Got(Pair(key, v), end))
  }

  /** One member or more, with the closing bracket. */
  function ReadPairs(t: Text): (r: Option<Got<seq<Pair>>>)
    ensures r.Some? ==> |r.value.rest| < |t|
    decreases |t|, 3
  {
    match ReadPair(t)
    case None => None
    case Some(Got(p, rest)) =>
      if StartsWith(rest, '}') then Some(Got([p], rest[1..]))
      else if StartsWith(rest, ',') then
        var more := ReadPairs(rest[1..]);
        if more.None? then None else Some(Got([p] + more.value.value, more.value.rest))
      else None
  }

  // ---------- order and meaning of what was read ----------

  /** Section 3.2.3 of RFC 8785: by the first unit that differs, and a text before its continuations. */
  predicate Before(a: Text, b: Text) {
    exists n: nat | n <= |a| && n < |b| :: a[..n] == b[..n] && (n == |a| || a[n] < b[n])
  }

  /** The members of every object, at every depth, stand in the order of their keys. */
  predicate Ordered(tree: Tree) {
    match tree
    case TArr(items) => forall i | 0 <= i < |items| :: Ordered(items[i])
    case TObj(pairs) =>
      && (forall i, j | 0 <= i < j < |pairs| :: Before(pairs[i].key, pairs[j].key))
      && (forall i | 0 <= i < |pairs| :: Ordered(pairs[i].value))
    case _ => true
  }

  /** What stands in the text means this value. */
  ghost predicate Means(tree: Tree, v: Val) {
    match tree
    case TNull => v == VNull
    case TBool(b) => v == VBool(b)
    case TNumber(n) => v == VNumber(n)
    case TStr(s) => v == VStr(s)
    case TArr(items) => v.VArr? && |v.items| == |items| && forall i | 0 <= i < |items| :: Means(items[i], v.items[i])
    case TObj(pairs) =>
      && v.VObj?
      && (forall i | 0 <= i < |pairs| :: pairs[i].key in v.members && Means(pairs[i].value, v.members[pairs[i].key]))
      && (forall k | k in v.members :: exists i :: 0 <= i < |pairs| && pairs[i].key == k)
  }

  // ---------- one step of the reader ----------

  lemma StringStep(t: Text, u: Unit, rest: Text, more: Text, x: Text)
    requires t != [] && t[0] != QUOTE && ReadUnit(t) == Some(Got(u, rest)) && ReadString(rest) == Some(Got(more, x))
    ensures ReadString(t) == Some(Got([u] + more, x))
  {
  }

  lemma StringEnd(x: Text)
    ensures ReadString([QUOTE] + x) == Some(Got([], x))
  {
    Cut([QUOTE], x);
  }

  lemma ItemsEnd(t: Text, tree: Tree, x: Text)
    requires ReadValue(t) == Some(Got(tree, [CLOSE_LIST] + x))
    ensures ReadItems(t) == Some(Got([tree], x))
  {
    Cut([CLOSE_LIST], x);
  }

  lemma ItemsStep(t: Text, tree: Tree, rest: Text, more: seq<Tree>, x: Text)
    requires ReadValue(t) == Some(Got(tree, [COMMA] + rest)) && ReadItems(rest) == Some(Got(more, x))
    ensures ReadItems(t) == Some(Got([tree] + more, x))
  {
    Cut([COMMA], rest);
  }

  lemma PairsEnd(t: Text, pair: Pair, x: Text)
    requires ReadPair(t) == Some(Got(pair, [CLOSE_OBJECT] + x))
    ensures ReadPairs(t) == Some(Got([pair], x))
  {
    Cut([CLOSE_OBJECT], x);
  }

  lemma PairsStep(t: Text, pair: Pair, rest: Text, more: seq<Pair>, x: Text)
    requires ReadPair(t) == Some(Got(pair, [COMMA] + rest)) && ReadPairs(rest) == Some(Got(more, x))
    ensures ReadPairs(t) == Some(Got([pair] + more, x))
  {
    Cut([COMMA], rest);
  }

  lemma ListStep(after: Text, items: seq<Tree>, x: Text)
    requires after != [] && after[0] != CLOSE_LIST && ReadItems(after) == Some(Got(items, x))
    ensures ReadValue([OPEN_LIST] + after) == Some(Got(TArr(items), x))
  {
    Cut([OPEN_LIST], after);
  }

  lemma ObjectStep(after: Text, pairs: seq<Pair>, x: Text)
    requires after != [] && after[0] != CLOSE_OBJECT && ReadPairs(after) == Some(Got(pairs, x))
    ensures ReadValue([OPEN_OBJECT] + after) == Some(Got(TObj(pairs), x))
  {
    Cut([OPEN_OBJECT], after);
  }

  lemma EmptyBrackets(x: Text)
    ensures ReadValue([OPEN_LIST] + ([CLOSE_LIST] + x)) == Some(Got(TArr([]), x))
    ensures ReadValue([OPEN_OBJECT] + ([CLOSE_OBJECT] + x)) == Some(Got(TObj([]), x))
  {
    Cut([OPEN_LIST], [CLOSE_LIST] + x);
    Cut([OPEN_OBJECT], [CLOSE_OBJECT] + x);
    assert ([OPEN_LIST] + ([CLOSE_LIST] + x))[2..] == x && ([OPEN_OBJECT] + ([CLOSE_OBJECT] + x))[2..] == x;
  }

  lemma PairStep(after: Text, key: Text, tree: Tree, rest: Text, x: Text)
    requires ReadString(after) == Some(Got(key, [COLON] + rest)) && ReadValue(rest) == Some(Got(tree, x))
    ensures ReadPair([QUOTE] + after) == Some(Got(Pair(key, tree), x))
  {
    Cut([QUOTE], after);
    Cut([COLON], rest);
  }

  // ---------- strings ----------

  lemma EscapeIsRead(c: Unit, x: Text)
    ensures ReadUnit(Escape(c) + x) == Some(Got(c, x))
  {
    var t := Escape(c) + x;
    Cut(Escape(c), x);
    assert forall i | 0 <= i < |Escape(c)| :: t[i] == Escape(c)[i];
    if c < 0x20 && |Escape(c)| == 6 {
      assert t[2..6] == Escape(c)[2..6];
      HexIsRead(c);
    }
  }

  lemma HexIsRead(c: Unit)
    requires c < 0x20
    ensures ReadHex([0x30, 0x30, HexDigit(c / 16), HexDigit(c % 16)]) == Some(c)
  {
  }

  lemma EscapeStarts(c: Unit, x: Text)
    ensures Escape(c) + x != [] && (Escape(c) + x)[0] != QUOTE
  {
  }

  lemma {:induction false} StringIsRead(s: Text, x: Text)
    ensures ReadString(Escaped(s) + ([QUOTE] + x)) == Some(Got(s, x))
  {
    EscapedHead(s, [QUOTE] + x);
    if s == [] {
      StringEnd(x);
    } else {
      var rest := Escaped(s[1..]) + ([QUOTE] + x);
      StringIsRead(s[1..], x);
      EscapeIsRead(s[0], rest);
      EscapeStarts(s[0], rest);
      StringStep(Escape(s[0]) + rest, s[0], rest, s[1..], x);
      assert [s[0]] + s[1..] == s;
    }
  }

  // ---------- numbers ----------

  lemma {:induction false} DigitsAreCounted(ds: Text, x: Text)
    requires forall i | 0 <= i < |ds| :: IsDigit(ds[i])
    requires x == [] || !IsDigit(x[0])
    ensures DigitCount(ds + x) == |ds|
  {
    Seqs.Head(ds, x);
    if ds != [] {
      DigitsAreCounted(ds[1..], x);
    }
  }

  lemma {:induction false} DigitsHaveValue(n: nat)
    ensures ValueOfDigits(Digits(n)) == n
  {
    var ds := Digits(n);
    if n < 10 {
      assert ds[..0] == [];
    } else {
      DigitsHaveValue(n / 10);
      assert ds[..|ds| - 1] == Digits(n / 10);
    }
  }

  lemma NaturalIsRead(n: nat, x: Text)
    requires Delimited(x)
    ensures var t := Digits(n) + x;
            DigitCount(t) == |Digits(n)| && ValueOfDigits(t[..|Digits(n)|]) == n && t[|Digits(n)|..] == x
  {
    DigitsAreCounted(Digits(n), x);
    DigitsHaveValue(n);
    Cut(Digits(n), x);
  }

  lemma NumberIsRead(n: int, x: Text)
    requires Delimited(x)
    ensures ReadNumber(Decimal(n) + x) == Some(Got(TNumber(n), x))
    ensures Decimal(n) != [] && (Decimal(n)[0] == '-' as int || IsDigit(Decimal(n)[0]))
  {
    var ds := Digits(if n < 0 then -n else n);
    NaturalIsRead(if n < 0 then -n else n, x);
    if n < 0 {
      Assoc([0x2d], ds, x);
      Cut([0x2d], ds + x);
    } else {
      Seqs.Head(ds, x);
    }
  }

  // ---------- values ----------

  /** What stands in the canonical text of a value. */
  ghost function TreeOf(v: Json): Tree
    requires Fine(v)
    decreases v, 1, 0
  {
    match v
    case Null => TNull
    case Bool(b) => TBool(b)
    case Number(n) => TNumber(if n.NegativeZero? then 0 else n.id)
    case Str(s) => TStr(s)
    case Arr(items) => TArr(TreesOf(items))
    case Obj(_) => TObj(PairsOf(v, Written(v)))
  }

  ghost function TreesOf(items: seq<Json>): (trees: seq<Tree>)
    requires FineItems(items)
    ensures |trees| == |items|
    decreases items, 0, 0
  {
    if items == [] then []
    else [if items[0].Undefined? then TNull else TreeOf(items[0])] + TreesOf(items[1..])
  }

  ghost function PairsOf(v: Json, ms: seq<Member>): (pairs: seq<Pair>)
    requires FineMembers(v, ms)
    ensures |pairs| == |ms|
    decreases v, 0, |ms|
  {
    if ms == [] then []
    else
      assert ms[0] in ms;
      [Pair(ms[0].key, TreeOf(ms[0].value))] + PairsOf(v, ms[1..])
  }

  lemma LiteralIsRead(v: Json, x: Text)
    requires v.Null? || v.Bool?
    ensures ReadValue(TextOf(Decimal, v) + x) == Some(Got(if v.Null? then TNull else TBool(v.b), x))
  {
    var text := TextOf(Decimal, v);
    var t := text + x;
    Cut(text, x);
    assert forall i | 0 <= i < |text| :: t[i] == text[i];
    assert v.Null? ==> Begins(t, "null");
    assert v.Bool? && v.b ==> Begins(t, "true");
    assert v.Bool? && !v.b ==> Begins(t, "false");
  }

  lemma {:induction false} ValueIsRead(v: Json, x: Text)
    requires Fine(v) && Delimited(x)
    ensures ReadValue(TextOf(Decimal, v) + x) == Some(Got(TreeOf(v), x))
    decreases v, 2, 0
  {
    match v
    case Null =>
      LiteralIsRead(v, x);
    case Bool(_) =>
      LiteralIsRead(v, x);
    case Number(n) =>
      NumberIsRead(if n.NegativeZero? then 0 else n.id, x);
      assert Decimal(0) == [0x30];
    case Str(s) =>
      Unquote(s, x);
      StringIsRead(s, x);
      Cut([QUOTE], Escaped(s) + ([QUOTE] + x));
    case Arr(items) =>
      ListIsRead(v, x);
    case Obj(_) =>
      ObjectIsRead(v, x);
  }

  lemma {:induction false} ListIsRead(v: Json, x: Text)
    requires v.Arr? && Fine(v) && Delimited(x)
    ensures ReadValue(TextOf(Decimal, v) + x) == Some(Got(TreeOf(v), x))
    decreases v, 1, 0
  {
    var parts := ItemTexts(Decimal, v.items);
    var after := AfterOpen(parts, CLOSE_LIST) + x;
    Opened(OPEN_LIST, parts, CLOSE_LIST, x);
    if v.items == [] {
      EmptyBrackets(x);
    } else {
      ItemsAreRead(v.items, x);
      ItemStarts(v.items[0], Rest(parts[1..], CLOSE_LIST) + x);
      Assoc(parts[0], Rest(parts[1..], CLOSE_LIST), x);
      ListStep(after, TreesOf(v.items), x);
    }
  }

  /** What stands after the opening bracket: the first part, and then the closing bracket or a comma and the others. */
  lemma FirstPart(parts: seq<Text>, close: Unit, x: Text)
    requires parts != []
    ensures AfterOpen(parts, close) + x ==
            parts[0] + (if |parts| == 1 then [close] + x else [COMMA] + (AfterOpen(parts[1..], close) + x))
  {
    Assoc(parts[0], Rest(parts[1..], close), x);
    if |parts| > 1 {
      var more := parts[1..];
      Assoc([COMMA], more[0] + Rest(more[1..], close), x);
    }
  }

  /** No value starts with a closing bracket. */
  lemma ItemStarts(p: Json, x: Text)
    requires p.Undefined? || Fine(p)
    ensures var t := (if p.Undefined? then NULL else TextOf(Decimal, p)) + x;
            t != [] && t[0] != CLOSE_LIST && t[0] != CLOSE_OBJECT
  {
    DecimalIsFaithful();
    if !p.Undefined? {
      FirstUnit(Decimal, p, x);
    }
  }

  lemma {:induction false} ItemIsRead(p: Json, x: Text)
    requires (p.Undefined? || Fine(p)) && Delimited(x)
    ensures ReadValue((if p.Undefined? then NULL else TextOf(Decimal, p)) + x) ==
            Some(Got(if p.Undefined? then TNull else TreeOf(p), x))
    decreases p, 3, 0
  {
    if p.Undefined? {
      LiteralIsRead(Null, x);
    } else {
      ValueIsRead(p, x);
    }
  }

  lemma {:induction false} ItemsAreRead(items: seq<Json>, x: Text)
    requires items != [] && FineItems(items)
    ensures ReadItems(AfterOpen(ItemTexts(Decimal, items), CLOSE_LIST) + x) == Some(Got(TreesOf(items), x))
    decreases items, 4, 0
  {
    var parts, more := ItemTexts(Decimal, items), ItemTexts(Decimal, items[1..]);
    var t, next := AfterOpen(parts, CLOSE_LIST) + x, AfterOpen(more, CLOSE_LIST) + x;
    var tree := if items[0].Undefined? then TNull else TreeOf(items[0]);
    assert parts[1..] == more;
    FirstPart(parts, CLOSE_LIST, x);
    if |items| == 1 {
      ItemIsRead(items[0], [CLOSE_LIST] + x);
      ItemsEnd(t, tree, x);
      Empty([tree]);
      assert TreesOf(items) == [tree];
    } else {
      ItemIsRead(items[0], [COMMA] + next);
      ItemsAreRead(items[1..], x);
      ItemsStep(t, tree, next, TreesOf(items[1..]), x);
    }
  }

  lemma {:induction false} ObjectIsRead(v: Json, x: Text)
    requires v.Obj? && Fine(v) && Delimited(x)
    ensures ReadValue(TextOf(Decimal, v) + x) == Some(Got(TreeOf(v), x))
    decreases v, 1, 0
  {
    var ms := Written(v);
    var parts := MemberTexts(Decimal, v, ms);
    var after := AfterOpen(parts, CLOSE_OBJECT) + x;
    Opened(OPEN_OBJECT, parts, CLOSE_OBJECT, x);
    if ms == [] {
      EmptyBrackets(x);
    } else {
      PairsAreRead(v, ms, x);
      MemberStarts(v, ms, x);
      ObjectStep(after, PairsOf(v, ms), x);
    }
  }

  lemma MemberStarts(v: Json, ms: seq<Member>, x: Text)
    requires ms != [] && FineMembers(v, ms)
    ensures var after := AfterOpen(MemberTexts(Decimal, v, ms), CLOSE_OBJECT) + x;
            after != [] && after[0] == QUOTE
  {
    var parts := MemberTexts(Decimal, v, ms);
    assert ms[0] in ms;
    assert parts[0] == Quoted(ms[0].key) + [COLON] + TextOf(Decimal, ms[0].value);
  }

  lemma {:induction false} PairIsRead(m: Member, x: Text)
    requires Fine(m.value) && Delimited(x)
    ensures ReadPair(Quoted(m.key) + [COLON] + TextOf(Decimal, m.value) + x) ==
            Some(Got(Pair(m.key, TreeOf(m.value)), x))
    decreases m.value, 3, 0
  {
    var text := TextOf(Decimal, m.value);
    var rest := [COLON] + (text + x);
    Assoc(Quoted(m.key) + [COLON], text, x);
    Assoc(Quoted(m.key), [COLON], text + x);
    Unquote(m.key, rest);
    StringIsRead(m.key, rest);
    ValueIsRead(m.value, x);
    PairStep(Escaped(m.key) + ([QUOTE] + rest), m.key, TreeOf(m.value), text + x, x);
  }

  lemma {:induction false} PairsAreRead(v: Json, ms: seq<Member>, x: Text)
    requires ms != [] && FineMembers(v, ms)
    ensures ReadPairs(AfterOpen(MemberTexts(Decimal, v, ms), CLOSE_OBJECT) + x) == Some(Got(PairsOf(v, ms), x))
    decreases v, 0, |ms|
  {
    assert ms[0] in ms;
    var parts, more := MemberTexts(Decimal, v, ms), MemberTexts(Decimal, v, ms[1..]);
    var t, next := AfterOpen(parts, CLOSE_OBJECT) + x, AfterOpen(more, CLOSE_OBJECT) + x;
    var pair := Pair(ms[0].key, TreeOf(ms[0].value));
    assert parts[1..] == more;
    FirstPart(parts, CLOSE_OBJECT, x);
    if |ms| == 1 {
      PairIsRead(ms[0], [CLOSE_OBJECT] + x);
      PairsEnd(t, pair, x);
      Empty([pair]);
      assert PairsOf(v, ms) == [pair];
    } else {
      PairIsRead(ms[0], [COMMA] + next);
      PairsAreRead(v, ms[1..], x);
      PairsStep(t, pair, next, PairsOf(v, ms[1..]), x);
    }
  }

  // ---------- what was read is ordered, and means the value ----------

  lemma {:induction false} LessIsBefore(a: Text, b: Text)
    requires Less(a, b)
    ensures Before(a, b)
  {
    if a == [] || a[0] < b[0] {
      assert a[..0] == b[..0];
    } else {
      LessIsBefore(a[1..], b[1..]);
      var n: nat :| n <= |a[1..]| && n < |b[1..]| && a[1..][..n] == b[1..][..n]
                    && (n == |a[1..]| || a[1..][n] < b[1..][n]);
      assert a[..n + 1] == [a[0]] + a[1..][..n] && b[..n + 1] == [b[0]] + b[1..][..n];
      assert n + 1 == |a| || a[n + 1] < b[n + 1];
    }
  }

  lemma {:induction false} PairAt(v: Json, ms: seq<Member>, i: nat)
    requires FineMembers(v, ms) && i < |ms|
    ensures ms[i] in ms && PairsOf(v, ms)[i] == Pair(ms[i].key, TreeOf(ms[i].value))
    decreases |ms|
  {
    if i > 0 {
      PairAt(v, ms[1..], i - 1);
    }
  }

  lemma {:induction false} TreeAt(items: seq<Json>, i: nat)
    requires FineItems(items) && i < |items|
    ensures TreesOf(items)[i] == if items[i].Undefined? then TNull else TreeOf(items[i])
    decreases |items|
  {
    if i > 0 {
      TreeAt(items[1..], i - 1);
    }
  }

  lemma {:induction false} TreeIsOrdered(v: Json)
    requires Fine(v)
    ensures Ordered(TreeOf(v))
    decreases v
  {
    match v
    case Arr(items) =>
      forall i | 0 <= i < |items|
        ensures Ordered(TreesOf(items)[i])
      {
        TreeAt(items, i);
        if !items[i].Undefined? {
          TreeIsOrdered(items[i]);
        }
      }
    case Obj(_) =>
      var ms := Written(v);
      WrittenStrict(v);
      forall i | 0 <= i < |ms|
        ensures PairsOf(v, ms)[i].key == ms[i].key && Ordered(PairsOf(v, ms)[i].value)
      {
        PairAt(v, ms, i);
        TreeIsOrdered(ms[i].value);
      }
      forall i, j | 0 <= i < j < |ms|
        ensures Before(PairsOf(v, ms)[i].key, PairsOf(v, ms)[j].key)
      {
        LessIsBefore(ms[i].key, ms[j].key);
      }
    case _ =>
  }

  lemma {:induction false} TreeMeansValue(v: Json)
    requires Fine(v)
    ensures Means(TreeOf(v), Meaning(v))
    decreases v
  {
    match v
    case Arr(items) =>
      forall i | 0 <= i < |items|
        ensures Means(TreesOf(items)[i], Meaning(v).items[i])
      {
        TreeAt(items, i);
        if !items[i].Undefined? {
          TreeMeansValue(items[i]);
        }
      }
    case Obj(_) =>
      ObjectMeansValue(v);
    case _ =>
  }

  lemma {:induction false} ObjectMeansValue(v: Json)
    requires v.Obj? && Fine(v)
    ensures Means(TreeOf(v), Meaning(v))
    decreases v, 0
  {
    var ms, pairs, members := Written(v), PairsOf(v, Written(v)), Meaning(v).members;
    forall i | 0 <= i < |ms|
      ensures pairs[i].key in members && Means(pairs[i].value, members[pairs[i].key])
    {
      PairAt(v, ms, i);
      EntryOf(v, ms[i]);
      TreeMeansValue(ms[i].value);
    }
    forall k | k in members
      ensures exists i :: 0 <= i < |pairs| && pairs[i].key == k
    {
      var m := EntryFrom(v, k);
      var i :| 0 <= i < |ms| && ms[i] == m;
      PairAt(v, ms, i);
    }
  }

  // ---------- what cannot be written ----------

  /** What stands at a path of positions inside a value. */
  function At(v: Json, path: seq<nat>): Option<Json> {
    if path == [] then Some(v)
    else
      match v
      case Arr(items) => if path[0] < |items| then At(items[path[0]], path[1..]) else None
      case Obj(members) => if path[0] < |members| then At(members[path[0]].value, path[1..]) else None
      case _ => None
  }

  predicate Unwritable(v: Json) {
    v == Unsupported || v == Number(NonFinite)
  }

  lemma {:induction false} ThrowsAt(v: Json, path: seq<nat>)
    requires At(v, path).Some? && Unwritable(At(v, path).value)
    ensures !Serializable(v) && !v.Undefined?
    decreases |path|
  {
    if path != [] {
      match v
      case Arr(items) => ThrowsAt(items[path[0]], path[1..]);
      case Obj(members) => ThrowsAt(members[path[0]].value, path[1..]);
      case _ =>
    }
  }

  lemma {:induction false} SomePath(v: Json) returns (path: seq<nat>)
    requires !Serializable(v) && !v.Undefined?
    ensures At(v, path).Some? && Unwritable(At(v, path).value)
    decreases v
  {
    path := [];
    match v
    case Arr(items) =>
      var i: nat :| i < |items| && !items[i].Undefined? && !Serializable(items[i]);
      var inner := SomePath(items[i]);
      path := [i] + inner;
      assert path[1..] == inner;
    case Obj(members) =>
      var i: nat :| i < |members| && !members[i].value.Undefined? && !Serializable(members[i].value);
      var inner := SomePath(members[i].value);
      path := [i] + inner;
      assert path[1..] == inner;
    case _ =>
  }

  /** The serializer throws exactly on `undefined`, and where a function, a symbol, a bigint or no finite number is. */
  lemma ThrowsIff(v: Json)
    ensures Serialize(Decimal, v).Err? <==>
            v.Undefined? || exists path :: At(v, path).Some? && Unwritable(At(v, path).value)
  {
    if Serialize(Decimal, v).Err? && !v.Undefined? {
      var path := SomePath(v);
    }
    if path :| At(v, path).Some? && Unwritable(At(v, path).value) {
      ThrowsAt(v, path);
    }
  }

  /**
   * Main result: the canonical text of a value is JSON that reads back as that value and as nothing else, and the
   * members of its objects stand in the order of their keys.
   */
  lemma CanonicalIsRead(v: Json)
    requires Proper(v) && Serialize(Decimal, v).Ok?
    ensures var read := ReadValue(Serialize(Decimal, v).value);
            read.Some? && read.value.rest == [] && Ordered(read.value.value) && Means(read.value.value, Meaning(v))
  {
    Empty(TextOf(Decimal, v));
    ValueIsRead(v, []);
    TreeIsOrdered(v);
    TreeMeansValue(v);
  }
}
