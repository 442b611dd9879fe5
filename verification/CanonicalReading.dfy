/** Unique readability of the canonical text, in both directions. */
module CanonicalReading {
  import opened Seqs
  import opened CanonicalJson

  /** What may follow a value inside a text: nothing, or a separator that no number contains. */
  predicate Delimited(x: Text) {
    x == [] || x[0] == COMMA || x[0] == CLOSE_LIST || x[0] == CLOSE_OBJECT
  }

  // ---------- strings ----------

  lemma EscapeReadable(c: Unit, d: Unit, x: Text, y: Text)
    requires Escape(c) + x == Escape(d) + y
    ensures c == d && x == y
  {
    var s, t := Escape(c) + x, Escape(d) + y;
    assert s[0] == Escape(c)[0] && t[0] == Escape(d)[0];
    if c >= 0x20 && c != 0x22 && c != 0x5c {
      Cut(Escape(c), x);
      Cut(Escape(d), y);
    } else {
      assert s[1] == Escape(c)[1] && t[1] == Escape(d)[1];
      if s[1] == 0x75 {
        assert s[4] == Escape(c)[4] && t[4] == Escape(d)[4];
        assert s[5] == Escape(c)[5] && t[5] == Escape(d)[5];
      }
      Cut(Escape(c), x);
      Cut(Escape(d), y);
    }
  }

  lemma EscapedHead(s: Text, x: Text)
    ensures s == [] ==> Escaped(s) + x == x
    ensures s != [] ==> Escaped(s) + x == Escape(s[0]) + (Escaped(s[1..]) + x) != []
                        && (Escaped(s) + x)[0] != QUOTE
  {
    if s == [] {
      Empty(x);
    } else {
      Assoc(Escape(s[0]), Escaped(s[1..]), x);
      Head(Escape(s[0]), Escaped(s[1..]) + x);
    }
  }

  lemma {:induction false} EscapedReadable(s: Text, t: Text, x: Text, y: Text)
    requires Escaped(s) + ([QUOTE] + x) == Escaped(t) + ([QUOTE] + y)
    ensures s == t && x == y
    decreases |s|
  {
    EscapedHead(s, [QUOTE] + x);
    EscapedHead(t, [QUOTE] + y);
    if s == [] && t == [] {
      Cut([QUOTE], x);
      Cut([QUOTE], y);
    } else if s != [] && t != [] {
      EscapeReadable(s[0], t[0], Escaped(s[1..]) + ([QUOTE] + x), Escaped(t[1..]) + ([QUOTE] + y));
      EscapedReadable(s[1..], t[1..], x, y);
      assert s == [s[0]] + s[1..] && t == [t[0]] + t[1..];
    }
  }

  lemma QuotedReadable(s: Text, t: Text, x: Text, y: Text)
    requires Quoted(s) + x == Quoted(t) + y
    ensures s == t && x == y
  {
    Unquote(s, x);
    Unquote(t, y);
    Cut([QUOTE], Escaped(s) + ([QUOTE] + x));
    Cut([QUOTE], Escaped(t) + ([QUOTE] + y));
    EscapedReadable(s, t, x, y);
  }

  lemma Unquote(s: Text, x: Text)
    ensures Quoted(s) + x == [QUOTE] + (Escaped(s) + ([QUOTE] + x))
  {
    Assoc([QUOTE] + Escaped(s), [QUOTE], x);
    Assoc([QUOTE], Escaped(s), [QUOTE] + x);
  }

  // ---------- numbers ----------

  lemma {:induction false} NumberReadable(a: Text, b: Text, x: Text, y: Text)
    requires (forall i | 0 <= i < |a| :: NumberUnit(a[i])) && (forall i | 0 <= i < |b| :: NumberUnit(b[i]))
    requires Delimited(x) && Delimited(y) && a + x == b + y
    ensures a == b && x == y
  {
    Head(a, x);
    Head(b, y);
    if a != [] && b != [] {
      NumberReadable(a[1..], b[1..], x, y);
      assert a == [a[0]] + a[1..] && b == [b[0]] + b[1..];
    }
  }

  // ---------- lists of parts ----------

  /** What follows the first part of a joined list, with its closing bracket. */
  function Rest(parts: seq<Text>, close: Unit): Text {
    if parts == [] then [close] else [COMMA] + (parts[0] + Rest(parts[1..], close))
  }

  lemma {:induction false} JoinIsRest(parts: seq<Text>, close: Unit, x: Text)
    requires parts != []
    ensures Join(parts) + [close] + x == parts[0] + (Rest(parts[1..], close) + x)
  {
    if |parts| == 1 {
      Assoc(parts[0], [close], x);
    } else {
      JoinIsRest(parts[1..], close, []);
      var tail := Join(parts[1..]);
      Empty(tail + [close]);
      Empty(Rest(parts[1..][1..], close));
      Assoc(parts[0] + [COMMA], tail, [close]);
      Assoc(parts[0], [COMMA], tail + [close]);
      Assoc(parts[0], Rest(parts[1..], close), x);
    }
  }

  lemma RestStarts(parts: seq<Text>, close: Unit, x: Text)
    ensures Rest(parts, close) + x != []
    ensures (Rest(parts, close) + x)[0] == if parts == [] then close else COMMA
  {
  }

  lemma RestStep(parts: seq<Text>, close: Unit, x: Text)
    requires parts != []
    ensures (Rest(parts, close) + x)[1..] == parts[0] + (Rest(parts[1..], close) + x)
  {
    Assoc([COMMA], parts[0] + Rest(parts[1..], close), x);
    Cut([COMMA], parts[0] + Rest(parts[1..], close) + x);
    Assoc(parts[0], Rest(parts[1..], close), x);
  }

  // ---------- first units tell the kinds of values apart ----------

  datatype Kind = KNull | KTrue | KFalse | KNumber | KString | KList | KObject

  function KindOf(v: Json): Kind
    requires Serializable(v)
  {
    match v
    case Null => KNull
    case Bool(b) => if b then KTrue else KFalse
    case Number(_) => KNumber
    case Str(_) => KString
    case Arr(_) => KList
    case Obj(_) => KObject
  }

  predicate Starts(u: Unit, k: Kind) {
    match k
    case KNull => u == 0x6e
    case KTrue => u == 0x74
    case KFalse => u == 0x66
    case KNumber => NumberUnit(u)
    case KString => u == QUOTE
    case KList => u == OPEN_LIST
    case KObject => u == OPEN_OBJECT
  }

  lemma FirstUnit(num: int -> Text, v: Json, x: Text)
    requires Faithful(num) && Serializable(v)
    ensures TextOf(num, v) + x != [] && Starts((TextOf(num, v) + x)[0], KindOf(v))
  {
    if v.Number? && v.n.Finite? {
      assert NumberText(num(v.n.id));
    }
  }

  lemma NumberForm(num: int -> Text, v: Json)
    requires Faithful(num) && Fine(v) && v.Number?
    ensures Meaning(v).VNumber? && TextOf(num, v) == num(Meaning(v).id) && NumberText(TextOf(num, v))
  {
  }

  lemma SameKind(num: int -> Text, a: Json, b: Json, x: Text, y: Text)
    requires Faithful(num) && Serializable(a) && Serializable(b)
    requires TextOf(num, a) + x == TextOf(num, b) + y
    ensures KindOf(a) == KindOf(b)
  {
    FirstUnit(num, a, x);
    FirstUnit(num, b, y);
  }

  // ---------- unique readability ----------

  predicate Fine(v: Json) {
    Serializable(v) && Proper(v)
  }

  predicate FineItems(items: seq<Json>) {
    forall i | 0 <= i < |items| :: items[i].Undefined? || Fine(items[i])
  }

  /** The written members of an object, or a tail of them. */
  predicate FineMembers(v: Json, ms: seq<Member>) {
    v.Obj? && Fine(v) && forall m | m in ms :: m in v.members && !m.value.Undefined? && Fine(m.value)
  }

  ghost predicate SameItems(ps: seq<Json>, qs: seq<Json>)
    requires FineItems(ps) && FineItems(qs)
  {
    |ps| == |qs| && forall i | 0 <= i < |ps| :: ItemMeaning(ps[i]) == ItemMeaning(qs[i])
  }

  ghost predicate SameMembers(ps: seq<Member>, qs: seq<Member>) {
    && |ps| == |qs|
    && forall i | 0 <= i < |ps| :: Fine(ps[i].value) && Fine(qs[i].value)
         && ps[i].key == qs[i].key && Meaning(ps[i].value) == Meaning(qs[i].value)
  }

  /** Two values whose texts agree, whatever follows them, mean the same and are followed by the same. */
  lemma {:induction false} Readable(num: int -> Text, a: Json, b: Json, x: Text, y: Text)
    requires Faithful(num) && Fine(a) && Fine(b) && Delimited(x) && Delimited(y)
    requires TextOf(num, a) + x == TextOf(num, b) + y
    ensures Meaning(a) == Meaning(b) && x == y
    decreases a, 2, 0
  {
    SameKind(num, a, b, x, y);
    Cut(TextOf(num, a), x);
    Cut(TextOf(num, b), y);
    match a
    case Null =>
    case Bool(_) =>
    case Number(n) =>
      NumberForm(num, a);
      NumberForm(num, b);
      NumberReadable(TextOf(num, a), TextOf(num, b), x, y);
    case Str(s) =>
      QuotedReadable(s, b.s, x, y);
    case Arr(items) =>
      ListReadable(num, a, b, x, y);
    case Obj(members) =>
      ObjectReadable(num, a, b, x, y);
  }

  function AfterOpen(parts: seq<Text>, close: Unit): Text {
    if parts == [] then [close] else parts[0] + Rest(parts[1..], close)
  }

  lemma Opened(open: Unit, parts: seq<Text>, close: Unit, x: Text)
    ensures [open] + Join(parts) + [close] + x == [open] + (AfterOpen(parts, close) + x)
  {
    Assoc([open] + Join(parts), [close], x);
    Assoc([open], Join(parts), [close] + x);
    Assoc(Join(parts), [close], x);
    if parts == [] {
      Empty([close] + x);
    } else {
      JoinIsRest(parts, close, x);
      Assoc(parts[0], Rest(parts[1..], close), x);
    }
  }

  lemma BothOpened(open: Unit, ps: seq<Text>, qs: seq<Text>, close: Unit, x: Text, y: Text)
    requires [open] + Join(ps) + [close] + x == [open] + Join(qs) + [close] + y
    ensures AfterOpen(ps, close) + x == AfterOpen(qs, close) + y
  {
    Opened(open, ps, close, x);
    Opened(open, qs, close, y);
    Cut([open], AfterOpen(ps, close) + x);
    Cut([open], AfterOpen(qs, close) + y);
  }

  // ---------- lists ----------

  lemma NullReadable(num: int -> Text, b: Json, x: Text, y: Text)
    requires Faithful(num) && Fine(b) && NULL + x == TextOf(num, b) + y
    ensures b.Null? && x == y
  {
    SameKind(num, Null, b, x, y);
    Cut(NULL, x);
    Cut(NULL, y);
  }

  lemma {:induction false} ItemReadable(num: int -> Text, p: Json, q: Json, x: Text, y: Text)
    requires Faithful(num) && Delimited(x) && Delimited(y)
    requires (p.Undefined? || Fine(p)) && (q.Undefined? || Fine(q))
    requires ItemTexts(num, [p])[0] + x == ItemTexts(num, [q])[0] + y
    ensures ItemMeaning(p) == ItemMeaning(q) && x == y
    decreases p, 3, 0
  {
    if p.Undefined? && q.Undefined? {
      Cut(NULL, x);
      Cut(NULL, y);
    } else if p.Undefined? {
      NullReadable(num, q, x, y);
    } else if q.Undefined? {
      NullReadable(num, p, y, x);
    } else {
      Readable(num, p, q, x, y);
    }
  }

  /** Only an empty list is closed right after its bracket. */
  lemma ListStarts(num: int -> Text, items: seq<Json>, x: Text)
    requires Faithful(num) && FineItems(items)
    ensures var texts := ItemTexts(num, items); var after := AfterOpen(texts, CLOSE_LIST) + x;
            && after != [] && (after[0] == CLOSE_LIST <==> items == [])
            && (items != [] ==> after == texts[0] + (Rest(texts[1..], CLOSE_LIST) + x))
  {
    if items != [] {
      var texts := ItemTexts(num, items);
      Assoc(texts[0], Rest(texts[1..], CLOSE_LIST), x);
      if !items[0].Undefined? {
        FirstUnit(num, items[0], Rest(texts[1..], CLOSE_LIST) + x);
      }
    }
  }

  lemma {:induction false} RestItemsReadable(num: int -> Text, ps: seq<Json>, qs: seq<Json>, x: Text, y: Text)
    requires Faithful(num) && FineItems(ps) && FineItems(qs) && Delimited(x) && Delimited(y)
    requires Rest(ItemTexts(num, ps), CLOSE_LIST) + x == Rest(ItemTexts(num, qs), CLOSE_LIST) + y
    ensures SameItems(ps, qs) && x == y
    decreases ps, 0, 0
  {
    var pt, qt := ItemTexts(num, ps), ItemTexts(num, qs);
    RestStarts(pt, CLOSE_LIST, x);
    RestStarts(qt, CLOSE_LIST, y);
    if ps == [] {
      Cut([CLOSE_LIST], x);
      Cut([CLOSE_LIST], y);
    } else {
      RestStep(pt, CLOSE_LIST, x);
      RestStep(qt, CLOSE_LIST, y);
      ItemsReadable(num, ps, qs, x, y);
    }
  }

  /** Two nonempty lists of items, from the first item on. */
  lemma {:induction false} ItemsReadable(num: int -> Text, ps: seq<Json>, qs: seq<Json>, x: Text, y: Text)
    requires Faithful(num) && FineItems(ps) && FineItems(qs) && Delimited(x) && Delimited(y)
    requires ps != [] && qs != []
    requires var pt, qt := ItemTexts(num, ps), ItemTexts(num, qs);
             pt[0] + (Rest(pt[1..], CLOSE_LIST) + x) == qt[0] + (Rest(qt[1..], CLOSE_LIST) + y)
    ensures SameItems(ps, qs) && x == y
    decreases ps, -1, 0
  {
    var pt, qt := ItemTexts(num, ps), ItemTexts(num, qs);
    var px, qy := Rest(pt[1..], CLOSE_LIST) + x, Rest(qt[1..], CLOSE_LIST) + y;
    RestStarts(pt[1..], CLOSE_LIST, x);
    RestStarts(qt[1..], CLOSE_LIST, y);
    ItemReadable(num, ps[0], qs[0], px, qy);
    assert pt[1..] == ItemTexts(num, ps[1..]) && qt[1..] == ItemTexts(num, qs[1..]);
    RestItemsReadable(num, ps[1..], qs[1..], x, y);
    forall i | 0 <= i < |ps|
      ensures ItemMeaning(ps[i]) == ItemMeaning(qs[i])
    {
      if i > 0 {
        assert ps[i] == ps[1..][i - 1] && qs[i] == qs[1..][i - 1];
      }
    }
  }

  lemma {:induction false} ListReadable(num: int -> Text, a: Json, b: Json, x: Text, y: Text)
    requires Faithful(num) && Fine(a) && Fine(b) && Delimited(x) && Delimited(y)
    requires a.Arr? && b.Arr? && TextOf(num, a) + x == TextOf(num, b) + y
    ensures Meaning(a) == Meaning(b) && x == y
    decreases a, 1, 0
  {
    var pt, qt := ItemTexts(num, a.items), ItemTexts(num, b.items);
    BothOpened(OPEN_LIST, pt, qt, CLOSE_LIST, x, y);
    ListStarts(num, a.items, x);
    ListStarts(num, b.items, y);
    if a.items == [] {
      Cut([CLOSE_LIST], x);
      Cut([CLOSE_LIST], y);
    } else {
      ItemsReadable(num, a.items, b.items, x, y);
    }
  }

  // ---------- objects ----------

  /** Only an empty object is closed right after its brace. */
  lemma ObjectStarts(num: int -> Text, v: Json, ms: seq<Member>, x: Text)
    requires FineMembers(v, ms)
    ensures var texts := MemberTexts(num, v, ms); var after := AfterOpen(texts, CLOSE_OBJECT) + x;
            && after != [] && (after[0] == CLOSE_OBJECT <==> ms == [])
            && (ms != [] ==> after == texts[0] + (Rest(texts[1..], CLOSE_OBJECT) + x))
  {
    if ms != [] {
      var texts := MemberTexts(num, v, ms);
      assert ms[0] in ms;
      assert texts[0][0] == QUOTE;
      Assoc(texts[0], Rest(texts[1..], CLOSE_OBJECT), x);
    }
  }

  lemma {:induction false} MemberReadable(num: int -> Text, p: Member, q: Member, x: Text, y: Text)
    requires Faithful(num) && Fine(p.value) && Fine(q.value) && Delimited(x) && Delimited(y)
    requires Quoted(p.key) + [COLON] + TextOf(num, p.value) + x == Quoted(q.key) + [COLON] + TextOf(num, q.value) + y
    ensures p.key == q.key && Meaning(p.value) == Meaning(q.value) && x == y
    decreases p.value, 3, 0
  {
    var s, t := TextOf(num, p.value), TextOf(num, q.value);
    Assoc(Quoted(p.key) + [COLON], s, x);
    Assoc(Quoted(p.key), [COLON], s + x);
    Assoc(Quoted(q.key) + [COLON], t, y);
    Assoc(Quoted(q.key), [COLON], t + y);
    QuotedReadable(p.key, q.key, [COLON] + (s + x), [COLON] + (t + y));
    Cut([COLON], s + x);
    Cut([COLON], t + y);
    Readable(num, p.value, q.value, x, y);
  }

  lemma {:induction false} RestMembersReadable(num: int -> Text, a: Json, b: Json,
                                               ps: seq<Member>, qs: seq<Member>, x: Text, y: Text)
    requires Faithful(num) && FineMembers(a, ps) && FineMembers(b, qs) && Delimited(x) && Delimited(y)
    requires Rest(MemberTexts(num, a, ps), CLOSE_OBJECT) + x == Rest(MemberTexts(num, b, qs), CLOSE_OBJECT) + y
    ensures SameMembers(ps, qs) && x == y
    decreases a, 0, 2 * |ps| + 1
  {
    var pt, qt := MemberTexts(num, a, ps), MemberTexts(num, b, qs);
    RestStarts(pt, CLOSE_OBJECT, x);
    RestStarts(qt, CLOSE_OBJECT, y);
    if ps == [] {
      Cut([CLOSE_OBJECT], x);
      Cut([CLOSE_OBJECT], y);
    } else {
      RestStep(pt, CLOSE_OBJECT, x);
      RestStep(qt, CLOSE_OBJECT, y);
      MembersReadable(num, a, b, ps, qs, x, y);
    }
  }

  /** Two nonempty lists of members, from the first member on. */
  lemma {:induction false} MembersReadable(num: int -> Text, a: Json, b: Json,
                                           ps: seq<Member>, qs: seq<Member>, x: Text, y: Text)
    requires Faithful(num) && FineMembers(a, ps) && FineMembers(b, qs) && Delimited(x) && Delimited(y)
    requires ps != [] && qs != []
    requires var pt, qt := MemberTexts(num, a, ps), MemberTexts(num, b, qs);
             pt[0] + (Rest(pt[1..], CLOSE_OBJECT) + x) == qt[0] + (Rest(qt[1..], CLOSE_OBJECT) + y)
    ensures SameMembers(ps, qs) && x == y
    decreases a, 0, 2 * |ps|
  {
    var pt, qt := MemberTexts(num, a, ps), MemberTexts(num, b, qs);
    var px, qy := Rest(pt[1..], CLOSE_OBJECT) + x, Rest(qt[1..], CLOSE_OBJECT) + y;
    RestStarts(pt[1..], CLOSE_OBJECT, x);
    RestStarts(qt[1..], CLOSE_OBJECT, y);
    assert ps[0] in ps && qs[0] in qs;
    MemberReadable(num, ps[0], qs[0], px, qy);
    assert pt[1..] == MemberTexts(num, a, ps[1..]) && qt[1..] == MemberTexts(num, b, qs[1..]);
    RestMembersReadable(num, a, b, ps[1..], qs[1..], x, y);
    SameMembersCons(ps, qs);
  }

  lemma SameMembersCons(ps: seq<Member>, qs: seq<Member>)
    requires ps != [] && qs != [] && SameMembers(ps[1..], qs[1..])
    requires Fine(ps[0].value) && Fine(qs[0].value)
    requires ps[0].key == qs[0].key && Meaning(ps[0].value) == Meaning(qs[0].value)
    ensures SameMembers(ps, qs)
  {
    forall i | 0 <= i < |ps|
      ensures Fine(ps[i].value) && Fine(qs[i].value)
      ensures ps[i].key == qs[i].key && Meaning(ps[i].value) == Meaning(qs[i].value)
    {
      if i > 0 {
        assert ps[i] == ps[1..][i - 1] && qs[i] == qs[1..][i - 1];
      }
    }
  }

  lemma {:induction false} ObjectReadable(num: int -> Text, a: Json, b: Json, x: Text, y: Text)
    requires Faithful(num) && Fine(a) && Fine(b) && Delimited(x) && Delimited(y)
    requires a.Obj? && b.Obj? && TextOf(num, a) + x == TextOf(num, b) + y
    ensures Meaning(a) == Meaning(b) && x == y
    decreases a, 1, 0
  {
    var ps, qs := Written(a), Written(b);
    var pt, qt := MemberTexts(num, a, ps), MemberTexts(num, b, qs);
    BothOpened(OPEN_OBJECT, pt, qt, CLOSE_OBJECT, x, y);
    ObjectStarts(num, a, ps, x);
    ObjectStarts(num, b, qs, y);
    if ps == [] {
      Cut([CLOSE_OBJECT], x);
      Cut([CLOSE_OBJECT], y);
    } else {
      MembersReadable(num, a, b, ps, qs, x, y);
    }
    SameMembersSameMap(a, b);
  }

  /** The members an object writes, in the order it writes them. */
  function Written(v: Json): (ms: seq<Member>)
    requires v.Obj? && Fine(v)
    ensures FineMembers(v, ms)
    ensures forall m :: m in ms <==> m in v.members && !m.value.Undefined?
  {
    WrittenElements(v.members);
    Kept(Sorted(v.members))
  }

  lemma EntryOf(v: Json, m: Member)
    requires v.Obj? && Fine(v) && m in v.members && !m.value.Undefined?
    ensures Fine(m.value)
    ensures m.key in Meaning(v).members && Meaning(v).members[m.key] == Meaning(m.value)
  {
    var i :| 0 <= i < |v.members| && v.members[i] == m;
    assert m.key in DefinedKeys(v.members);
    var found := Lookup(v.members, m.key);
    var j :| 0 <= j < |v.members| && v.members[j] == found;
    assert i == j;
  }

  lemma EntryFrom(v: Json, k: Text) returns (m: Member)
    requires v.Obj? && Fine(v) && k in Meaning(v).members
    ensures m in v.members && !m.value.Undefined? && m.key == k && Fine(m.value)
    ensures Meaning(v).members[k] == Meaning(m.value)
  {
    m := Lookup(v.members, k);
    EntryOf(v, m);
  }

  lemma SameEntry(a: Json, b: Json, k: Text)
    requires a.Obj? && b.Obj? && Fine(a) && Fine(b) && SameMembers(Written(a), Written(b))
    requires k in Meaning(a).members
    ensures k in Meaning(b).members && Meaning(a).members[k] == Meaning(b).members[k]
  {
    var m := EntryFrom(a, k);
    var w :| 0 <= w < |Written(a)| && Written(a)[w] == m;
    var other := Written(b)[w];
    assert other in Written(b);
    EntryOf(b, other);
  }

  lemma SameMembersFlip(ps: seq<Member>, qs: seq<Member>)
    requires SameMembers(ps, qs)
    ensures SameMembers(qs, ps)
  {
  }

  lemma MapsEqual<K, V>(p: map<K, V>, q: map<K, V>)
    requires forall k | k in p :: k in q && p[k] == q[k]
    requires forall k | k in q :: k in p
    ensures p == q
  {
  }

  lemma SameEntries(a: Json, b: Json, p: map<Text, Val>, q: map<Text, Val>)
    requires a.Obj? && b.Obj? && Fine(a) && Fine(b) && SameMembers(Written(a), Written(b))
    requires p == Meaning(a).members && q == Meaning(b).members
    ensures forall k | k in p :: k in q && p[k] == q[k]
  {
    forall k | k in p
      ensures k in q && p[k] == q[k]
    {
      SameEntry(a, b, k);
    }
  }

  lemma SameMembersSameMap(a: Json, b: Json)
    requires a.Obj? && b.Obj? && Fine(a) && Fine(b) && SameMembers(Written(a), Written(b))
    ensures Meaning(a) == Meaning(b)
  {
    var p, q := Meaning(a).members, Meaning(b).members;
    SameEntries(a, b, p, q);
    SameMembersFlip(Written(a), Written(b));
    SameEntries(b, a, q, p);
    MapsEqual(p, q);
  }

  // ---------- the text depends on nothing else ----------

  predicate StrictKeys(ms: seq<Member>) {
    forall i, j | 0 <= i < j < |ms| :: Less(ms[i].key, ms[j].key)
  }

  ghost function KeySet(ms: seq<Member>): set<Text> {
    set m | m in ms :: m.key
  }

  lemma KeySetCons(m: Member, ms: seq<Member>)
    ensures KeySet([m] + ms) == {m.key} + KeySet(ms)
  {
    assert forall x :: x in [m] + ms <==> x == m || x in ms;
  }

  lemma KeySetEmpty(ms: seq<Member>)
    ensures KeySet(ms) == {} <==> ms == []
  {
    if ms != [] {
      assert ms[0].key in KeySet(ms);
    }
  }

  lemma StrictCons(m: Member, ms: seq<Member>)
    requires StrictKeys(ms) && forall k | k in KeySet(ms) :: Less(m.key, k)
    ensures StrictKeys([m] + ms)
  {
    var all := [m] + ms;
    forall i, j | 0 <= i < j < |all|
      ensures Less(all[i].key, all[j].key)
    {
      assert all[j] == ms[j - 1] && ms[j - 1].key in KeySet(ms);
    }
  }

  lemma StrictTail(ms: seq<Member>)
    requires StrictKeys(ms) && ms != []
    ensures StrictKeys(ms[1..]) && forall k | k in KeySet(ms[1..]) :: Less(ms[0].key, k)
  {
  }

  lemma {:induction false} InsertStrict(m: Member, ms: seq<Member>)
    requires StrictKeys(ms) && m.key !in KeySet(ms)
    ensures StrictKeys(Insert(m, ms)) && KeySet(Insert(m, ms)) == {m.key} + KeySet(ms)
  {
    if ms == [] {
      KeySetCons(m, ms);
    } else {
      StrictTail(ms);
      assert ms == [ms[0]] + ms[1..];
      KeySetCons(ms[0], ms[1..]);
      if Less(m.key, ms[0].key) {
        KeySetCons(m, ms);
        forall k | k in KeySet(ms)
          ensures Less(m.key, k)
        {
          if k != ms[0].key {
            LessIsTransitive(m.key, ms[0].key, k);
          }
        }
        StrictCons(m, ms);
      } else {
        assert ms[0].key in KeySet(ms);
        LessIsTotal(m.key, ms[0].key);
        InsertStrict(m, ms[1..]);
        StrictCons(ms[0], Insert(m, ms[1..]));
        KeySetCons(ms[0], Insert(m, ms[1..]));
      }
    }
  }

  lemma {:induction false} SortedStrict(ms: seq<Member>)
    requires forall i, j | 0 <= i < j < |ms| :: ms[i].key != ms[j].key
    ensures StrictKeys(Sorted(ms)) && KeySet(Sorted(ms)) == KeySet(ms)
  {
    if ms != [] {
      SortedStrict(ms[1..]);
      InsertStrict(ms[0], Sorted(ms[1..]));
      KeySetCons(ms[0], ms[1..]);
      assert ms == [ms[0]] + ms[1..];
    }
  }

  lemma {:induction false} KeptStrict(ms: seq<Member>)
    requires StrictKeys(ms)
    ensures StrictKeys(Kept(ms)) && KeySet(Kept(ms)) <= KeySet(ms)
  {
    if ms != [] {
      StrictTail(ms);
      KeptStrict(ms[1..]);
      KeySetCons(ms[0], ms[1..]);
      assert ms == [ms[0]] + ms[1..];
      if !ms[0].value.Undefined? {
        StrictCons(ms[0], Kept(ms[1..]));
        KeySetCons(ms[0], Kept(ms[1..]));
      }
    }
  }

  /** Strictly ordered members with the same keys stand in the same order. */
  lemma {:induction false} SameOrder(ps: seq<Member>, qs: seq<Member>)
    requires StrictKeys(ps) && StrictKeys(qs) && KeySet(ps) == KeySet(qs)
    ensures |ps| == |qs| && forall i | 0 <= i < |ps| :: ps[i].key == qs[i].key
  {
    KeySetEmpty(ps);
    KeySetEmpty(qs);
    if ps != [] {
      StrictTail(ps);
      StrictTail(qs);
      KeySetCons(ps[0], ps[1..]);
      KeySetCons(qs[0], qs[1..]);
      assert ps == [ps[0]] + ps[1..] && qs == [qs[0]] + qs[1..];
      if ps[0].key != qs[0].key {
        LessIsStrict(ps[0].key, qs[0].key);
      }
      if ps[0].key in KeySet(ps[1..]) {
        LessIsStrict(ps[0].key, ps[0].key);
      }
      if qs[0].key in KeySet(qs[1..]) {
        LessIsStrict(qs[0].key, qs[0].key);
      }
      assert KeySet(ps[1..]) == KeySet(ps) - {ps[0].key} == KeySet(qs[1..]);
      SameOrder(ps[1..], qs[1..]);
      forall i | 0 <= i < |ps|
        ensures ps[i].key == qs[i].key
      {
        if i > 0 {
          assert ps[i] == ps[1..][i - 1] && qs[i] == qs[1..][i - 1];
        }
      }
    }
  }

  lemma WrittenStrict(v: Json)
    requires v.Obj? && Fine(v)
    ensures StrictKeys(Written(v)) && KeySet(Written(v)) == Meaning(v).members.Keys
  {
    SortedStrict(v.members);
    KeptStrict(Sorted(v.members));
    forall k
      ensures k in KeySet(Written(v)) <==> k in Meaning(v).members
    {
      if k in KeySet(Written(v)) {
        var m :| m in Written(v) && m.key == k;
        EntryOf(v, m);
      }
      if k in Meaning(v).members {
        var m := EntryFrom(v, k);
        assert m in Written(v);
      }
    }
  }

  lemma SameMapSameMembers(a: Json, b: Json)
    requires a.Obj? && b.Obj? && Fine(a) && Fine(b) && Meaning(a) == Meaning(b)
    ensures SameMembers(Written(a), Written(b))
  {
    var ps, qs := Written(a), Written(b);
    WrittenStrict(a);
    WrittenStrict(b);
    SameOrder(ps, qs);
    forall i | 0 <= i < |ps|
      ensures Fine(ps[i].value) && Fine(qs[i].value) && Meaning(ps[i].value) == Meaning(qs[i].value)
    {
      assert ps[i] in ps && qs[i] in qs;
      EntryOf(a, ps[i]);
      EntryOf(b, qs[i]);
    }
  }

  lemma {:induction false} SameText(num: int -> Text, a: Json, b: Json)
    requires Faithful(num) && Fine(a) && Fine(b) && Meaning(a) == Meaning(b)
    ensures TextOf(num, a) == TextOf(num, b)
    decreases a, 1, 0
  {
    match a
    case Null =>
    case Bool(_) =>
    case Number(_) =>
    case Str(_) =>
    case Arr(items) =>
      forall i | 0 <= i < |items|
        ensures ItemMeaning(items[i]) == ItemMeaning(b.items[i])
      {
        assert Meaning(a).items[i] == Meaning(b).items[i];
      }
      SameItemTexts(num, items, b.items);
    case Obj(members) =>
      SameMapSameMembers(a, b);
      SameMemberTexts(num, a, b, Written(a), Written(b));
  }

  lemma NullItem(v: Json)
    requires v.Undefined? || Fine(v)
    ensures ItemMeaning(v) == VNull <==> v.Undefined? || v.Null?
  {
  }

  lemma {:induction false} SameItemTexts(num: int -> Text, ps: seq<Json>, qs: seq<Json>)
    requires Faithful(num) && FineItems(ps) && FineItems(qs) && SameItems(ps, qs)
    ensures ItemTexts(num, ps) == ItemTexts(num, qs)
    decreases ps, 0, 0
  {
    if ps != [] {
      assert ItemMeaning(ps[0]) == ItemMeaning(qs[0]);
      if !ps[0].Undefined? && !qs[0].Undefined? {
        SameText(num, ps[0], qs[0]);
      } else {
        NullItem(ps[0]);
        NullItem(qs[0]);
      }
      assert SameItems(ps[1..], qs[1..]);
      SameItemTexts(num, ps[1..], qs[1..]);
    }
  }

  lemma {:induction false} SameMemberTexts(num: int -> Text, a: Json, b: Json, ps: seq<Member>, qs: seq<Member>)
    requires Faithful(num) && FineMembers(a, ps) && FineMembers(b, qs) && SameMembers(ps, qs)
    ensures MemberTexts(num, a, ps) == MemberTexts(num, b, qs)
    decreases a, 0, |ps|
  {
    if ps != [] {
      assert ps[0] in ps;
      SameText(num, ps[0].value, qs[0].value);
      assert SameMembers(ps[1..], qs[1..]);
      SameMemberTexts(num, a, b, ps[1..], qs[1..]);
    }
  }

  /**
   * Main result: two values get the same canonical text exactly when they are equal up to the order of
   * keys, undefined members and the sign of zero.
   */
  lemma SameTextIffSameMeaning(num: int -> Text, a: Json, b: Json)
    requires Faithful(num) && Proper(a) && Proper(b)
    requires Serialize(num, a).Ok? && Serialize(num, b).Ok?
    ensures Serialize(num, a) == Serialize(num, b) <==> Meaning(a) == Meaning(b)
  {
    if TextOf(num, a) == TextOf(num, b) {
      Readable(num, a, b, [], []);
    }
    if Meaning(a) == Meaning(b) {
      SameText(num, a, b);
    }
  }

  // ---------- decimal integers are a faithful rendering ----------

  function Digits(n: nat): (t: Text)
    ensures |t| >= (if n < 10 then 1 else 2) && forall i | 0 <= i < |t| :: 0x30 <= t[i] <= 0x39
  {
    if n < 10 then [0x30 + n] else Digits(n / 10) + [0x30 + n % 10]
  }

  function Decimal(n: int): Text {
    if n < 0 then [0x2d] + Digits(-n) else Digits(n)
  }

  lemma {:induction false} DigitsInjective(m: nat, n: nat)
    requires Digits(m) == Digits(n)
    ensures m == n
  {
    var s, t := Digits(m), Digits(n);
    assert s[|s| - 1] == 0x30 + m % 10 && t[|t| - 1] == 0x30 + n % 10;
    assert (m < 10 <==> |s| == 1) && (n < 10 <==> |t| == 1);
    if m >= 10 {
      assert Digits(m / 10) == s[..|s| - 1] && Digits(n / 10) == t[..|t| - 1];
      DigitsInjective(m / 10, n / 10);
    }
  }

  lemma DecimalIsFaithful()
    ensures Faithful(Decimal)
  {
    forall m, n | Decimal(m) == Decimal(n)
      ensures m == n
    {
      assert (Decimal(m)[0] == 0x2d <==> m < 0) && (Decimal(n)[0] == 0x2d <==> n < 0);
      if m < 0 {
        Cut([0x2d], Digits(-m));
        Cut([0x2d], Digits(-n));
        DigitsInjective(-m, -n);
      } else {
        DigitsInjective(m, n);
      }
    }
  }
}
