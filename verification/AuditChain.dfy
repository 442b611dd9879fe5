/**
 * The audit chain: sealing records under a MAC, verifying a list of records, and verifying it against
 * the signed head. The MAC is a function on texts; claims that need it assume it injective.
 */
module AuditChain {
  import opened Seqs
  import opened CanonicalJson
  import opened CanonicalReading

  const SEQ: Text := [0x73, 0x65, 0x71]
  const PREV_HASH: Text := [0x70, 0x72, 0x65, 0x76, 0x5f, 0x68, 0x61, 0x73, 0x68]
  const GENESIS: Text := [0x67, 0x65, 0x6e, 0x65, 0x73, 0x69, 0x73]
  const SCHEME: Text := [0x68, 0x6d, 0x61, 0x63, 0x2d, 0x73, 0x68, 0x61, 0x32, 0x35, 0x36, 0x3a]
  const VERSION: Text := [0x76]
  const HASH: Text := [0x68, 0x61, 0x73, 0x68]

  /** A line of the log: every member but `hash`, in the order written, and the hash. */
  datatype Record = Record(fields: seq<Member>, hash: Text)

  function Payload(r: Record): Json {
    Obj(r.fields)
  }

  /** `rec[key]`. */
  function Field(fields: seq<Member>, key: Text): Json {
    if fields == [] then Undefined
    else if fields[0].key == key then fields[0].value
    else Field(fields[1..], key)
  }

  function PrevHash(r: Record): Json {
    Field(r.fields, PREV_HASH)
  }

  function SeqNo(r: Record): Json {
    Field(r.fields, SEQ)
  }

  /** The number rendering and the keyed MAC, fixed for one key. */
  datatype Suite = Suite(num: int -> Text, mac: Text -> Text)

  ghost predicate Sound(s: Suite) {
    Faithful(s.num) && forall t, u :: s.mac(t) == s.mac(u) ==> t == u
  }

  /** `hmacAuditHash`; the serializer may throw. */
  function AuditHash(s: Suite, payload: Json): Text
    requires Serializable(payload)
  {
    SCHEME + s.mac(TextOf(s.num, payload))
  }

  predicate Sealed(s: Suite, r: Record) {
    Serializable(Payload(r)) && r.hash == AuditHash(s, Payload(r))
  }

  function SealRecord(s: Suite, fields: seq<Member>): (r: Record)
    requires Serializable(Obj(fields))
    ensures Sealed(s, r) && r.fields == fields
  {
    Record(fields, AuditHash(s, Obj(fields)))
  }

  // ---------- verification of a list of records ----------

  datatype Reason =
    | SeqDiscontinuity
    | PrevHashMismatch
    | HashMismatch
    | LogAndHeadMissing
    | HeadMissing
    | HeadMalformed
    | HeadMacMismatch
    | Truncated

  datatype Verdict = Passed(records: nat) | Failed(reason: Reason, at: nat) | Threw

  function Tail(records: seq<Record>): Text {
    if records == [] then GENESIS else records[|records| - 1].hash
  }

  /** Record i carries the hash of its predecessor and its own seal. */
  predicate LinkedAt(s: Suite, records: seq<Record>, i: nat)
    requires i < |records|
  {
    PrevHash(records[i]) == Str(Tail(records[..i])) && Sealed(s, records[i])
  }

  predicate NumberedAt(records: seq<Record>, i: nat)
    requires i < |records|
  {
    SeqNo(records[i]) == Number(Finite(i + 1))
  }

  ghost predicate Linked(s: Suite, records: seq<Record>) {
    forall i: nat | i < |records| :: LinkedAt(s, records, i)
  }

  ghost predicate Numbered(records: seq<Record>) {
    forall i: nat | i < |records| :: NumberedAt(records, i)
  }

  /** The link check reports the first record that is not linked, and how. */
  ghost predicate ChainVerdict(s: Suite, records: seq<Record>, v: Verdict) {
    match v
    case Passed(n) => n == |records| && Linked(s, records)
    case Failed(reason, at) =>
      && at < |records| && Linked(s, records[..at]) && !LinkedAt(s, records, at)
      && (if PrevHash(records[at]) != Str(Tail(records[..at])) then reason == PrevHashMismatch
          else reason == HashMismatch && Serializable(Payload(records[at])))
    case Threw =>
      exists at: nat ::
        && at < |records| && Linked(s, records[..at])
        && PrevHash(records[at]) == Str(Tail(records[..at]))
        && !Serializable(Payload(records[at]))
  }

  /** A verdict passes exactly the linked lists. */
  lemma VerdictDecides(s: Suite, records: seq<Record>, v: Verdict)
    requires ChainVerdict(s, records, v)
    ensures v.Passed? <==> Linked(s, records)
  {
    match v
    case Passed(_) =>
    case Failed(_, at) =>
      assert !LinkedAt(s, records, at);
    case Threw =>
      var at: nat :| at < |records| && Linked(s, records[..at])
                     && PrevHash(records[at]) == Str(Tail(records[..at])) && !Serializable(Payload(records[at]));
      assert !LinkedAt(s, records, at);
  }

  lemma LinkedPrefix(s: Suite, records: seq<Record>, n: nat)
    requires n < |records| && Linked(s, records[..n])
    ensures Linked(s, records[..n + 1]) <==> LinkedAt(s, records, n)
  {
    var more := records[..n + 1];
    forall i: nat | i <= n
      ensures LinkedAt(s, more, i) <==> LinkedAt(s, records, i)
      ensures i < n ==> (LinkedAt(s, records[..n], i) <==> LinkedAt(s, records, i))
    {
      assert more[..i] == records[..i];
      if i < n {
        assert records[..n][..i] == records[..i];
      }
    }
  }

  lemma NumberedPrefix(records: seq<Record>, n: nat)
    requires n <= |records| && forall k: nat | k < n :: NumberedAt(records, k)
    ensures Numbered(records[..n])
  {
    forall k: nat | k < n
      ensures NumberedAt(records[..n], k)
    {
      assert NumberedAt(records, k);
    }
  }

  method VerifyAuditChain(s: Suite, records: seq<Record>) returns (v: Verdict)
    ensures ChainVerdict(s, records, v)
  {
    var prev := GENESIS;
    for i := 0 to |records|
      invariant Linked(s, records[..i])
      invariant prev == Tail(records[..i])
    {
      LinkedPrefix(s, records, i);
      var rec := records[i];
      if PrevHash(rec) != Str(prev) {
        return Failed(PrevHashMismatch, i);
      }
      if !Serializable(Payload(rec)) {
        return Threw;
      }
      if rec.hash != AuditHash(s, Payload(rec)) {
        return Failed(HashMismatch, i);
      }
      prev := rec.hash;
      assert records[..i + 1][i] == rec;
    }
    assert records[..|records|] == records;
    return Passed(|records|);
  }

  /** A list passes exactly when it is numbered from one and linked; numbering is checked first. */
  method VerifyAuditRecords(s: Suite, records: seq<Record>) returns (v: Verdict)
    ensures v.Passed? <==> Numbered(records) && Linked(s, records)
    ensures v.Passed? ==> v.records == |records|
    ensures !Numbered(records) ==> v.Failed? && v.reason == SeqDiscontinuity && v.at < |records|
                                   && !NumberedAt(records, v.at) && Numbered(records[..v.at])
    ensures Numbered(records) ==> ChainVerdict(s, records, v)
  {
    if |records| == 0 {
      return Passed(0);
    }
    for i := 0 to |records|
      invariant forall k: nat | k < i :: NumberedAt(records, k)
    {
      if SeqNo(records[i]) != Number(Finite(i + 1)) {
        assert !NumberedAt(records, i);
        NumberedPrefix(records, i);
        return Failed(SeqDiscontinuity, i);
      }
    }
    var chain := VerifyAuditChain(s, records);
    VerdictDecides(s, records, chain);
    if !chain.Passed? {
      return chain;
    }
    // The chain check already implies what this loop checks: its two failure returns are never taken.
    for i := 0 to |records| {
      var rec := records[i];
      assert LinkedAt(s, records, i);
      if !(SCHEME <= rec.hash) {
        assert false;
      }
      if AuditHash(s, Payload(rec)) != rec.hash {
        assert false;
      }
    }
    return Passed(|records|);
  }

  // ---------- verification against the head ----------

  datatype Head = Missing | Malformed | Head(v: int, seqNo: int, hash: Text, mac: Text)

  function HeadPayload(v: int, seqNo: int, hash: Text): Json {
    Obj([Member(VERSION, Number(Finite(v))), Member(SEQ, Number(Finite(seqNo))), Member(HASH, Str(hash))])
  }

  function HeadMac(s: Suite, v: int, seqNo: int, hash: Text): Text {
    SCHEME + s.mac(TextOf(s.num, HeadPayload(v, seqNo, hash)))
  }

  predicate HeadMatches(s: Suite, records: seq<Record>, head: Head) {
    && head.Head?
    && head.mac == HeadMac(s, head.v, head.seqNo, head.hash)
    && records != []
    && SeqNo(records[|records| - 1]) == Number(Finite(head.seqNo))
    && Tail(records) == head.hash
  }

  /** `verifyAuditFile`, on the parsed lines and the parsed head. */
  method VerifyAuditFile(s: Suite, records: seq<Record>, head: Head) returns (v: Verdict)
    ensures v.Passed? <==> Numbered(records) && Linked(s, records) && HeadMatches(s, records, head)
    ensures head.Missing? && records == [] ==> v == Failed(LogAndHeadMissing, 0)
    ensures !Numbered(records) ==> v.Failed? && v.reason == SeqDiscontinuity
    ensures Numbered(records) && !Linked(s, records) ==> ChainVerdict(s, records, v)
    ensures Numbered(records) && Linked(s, records) && !(head.Missing? && records == []) ==>
              match head
              case Missing => v == Failed(HeadMissing, |records|)
              case Malformed => v == Failed(HeadMalformed, |records|)
              case Head(version, seqNo, hash, mac) =>
                if mac != HeadMac(s, version, seqNo, hash) then v == Failed(HeadMacMismatch, |records|)
                else if !HeadMatches(s, records, head) then v == Failed(Truncated, |records|)
                else v == Passed(|records|)
  {
    v := VerifyAuditRecords(s, records);
    if !v.Passed? {
      return;
    }
    if head.Missing? {
      return Failed(if |records| == 0 then LogAndHeadMissing else HeadMissing, |records|);
    }
    if head.Malformed? {
      return Failed(HeadMalformed, |records|);
    }
    if head.mac != HeadMac(s, head.v, head.seqNo, head.hash) {
      return Failed(HeadMacMismatch, |records|);
    }
    if |records| == 0 {
      return Failed(Truncated, |records|);
    }
    var tail := records[|records| - 1];
    if Number(Finite(head.seqNo)) != SeqNo(tail) || head.hash != tail.hash {
      return Failed(Truncated, |records|);
    }
  }

  /** What `verifyAuditFile` accepts. */
  ghost predicate Accepted(s: Suite, records: seq<Record>, head: Head) {
    Numbered(records) && Linked(s, records) && HeadMatches(s, records, head)
  }

  // ---------- the head determines the log ----------

  predicate ProperLog(records: seq<Record>) {
    forall i | 0 <= i < |records| :: Proper(Payload(records[i]))
  }

  /** Equal up to the order of keys (and what else the canonical form forgets). */
  ghost predicate SameRecord(a: Record, b: Record)
    requires Fine(Payload(a)) && Fine(Payload(b))
  {
    a.hash == b.hash && Meaning(Payload(a)) == Meaning(Payload(b))
  }

  lemma {:induction false} FieldIsMember(fields: seq<Member>, key: Text)
    requires !Field(fields, key).Undefined?
    ensures Member(key, Field(fields, key)) in fields
  {
    if fields[0].key != key {
      FieldIsMember(fields[1..], key);
      assert Member(key, Field(fields, key)) in fields[1..];
    }
  }

  /** Records that mean the same have the same strings and numbers in their fields. */
  lemma SameField(a: Record, b: Record, key: Text)
    requires Fine(Payload(a)) && Fine(Payload(b)) && Meaning(Payload(a)) == Meaning(Payload(b))
    requires !Field(a.fields, key).Undefined? && !Field(b.fields, key).Undefined?
    ensures Fine(Field(a.fields, key)) && Fine(Field(b.fields, key))
    ensures Meaning(Field(a.fields, key)) == Meaning(Field(b.fields, key))
  {
    FieldIsMember(a.fields, key);
    FieldIsMember(b.fields, key);
    EntryOf(Payload(a), Member(key, Field(a.fields, key)));
    EntryOf(Payload(b), Member(key, Field(b.fields, key)));
  }

  lemma SealedSame(s: Suite, a: Record, b: Record)
    requires Sound(s) && Sealed(s, a) && Sealed(s, b) && a.hash == b.hash
    requires Proper(Payload(a)) && Proper(Payload(b))
    ensures SameRecord(a, b)
  {
    var t, u := TextOf(s.num, Payload(a)), TextOf(s.num, Payload(b));
    Cut(SCHEME, s.mac(t));
    Cut(SCHEME, s.mac(u));
    SameTextIffSameMeaning(s.num, Payload(a), Payload(b));
  }

  lemma LastSame(s: Suite, a: seq<Record>, b: seq<Record>, n: nat)
    requires Sound(s) && ProperLog(a) && ProperLog(b) && Linked(s, a) && Linked(s, b)
    requires |a| == |b| == n + 1 && Tail(a) == Tail(b)
    ensures SameRecordAt(s, a, b, n) && Tail(a[..n]) == Tail(b[..n])
  {
    assert LinkedAt(s, a, n) && LinkedAt(s, b, n);
    SealedSame(s, a[n], b[n]);
    SameField(a[n], b[n], PREV_HASH);
  }

  /** Equal tail hashes on logs of equal length force equal logs. */
  lemma {:induction false} TailDeterminesLog(s: Suite, a: seq<Record>, b: seq<Record>)
    requires Sound(s) && ProperLog(a) && ProperLog(b) && Linked(s, a) && Linked(s, b)
    requires |a| == |b| && Tail(a) == Tail(b)
    ensures forall i: nat | i < |a| :: SameRecordAt(s, a, b, i)
    decreases |a|
  {
    if a != [] {
      var n := |a| - 1;
      LastSame(s, a, b, n);
      LinkedInit(s, a, n);
      LinkedInit(s, b, n);
      TailDeterminesLog(s, a[..n], b[..n]);
      forall i: nat | i < |a|
        ensures SameRecordAt(s, a, b, i)
      {
        assert i < n ==> SameRecordAt(s, a[..n], b[..n], i);
      }
    }
  }

  ghost predicate SameRecordAt(s: Suite, a: seq<Record>, b: seq<Record>, i: nat) {
    i < |a| && i < |b| && Fine(Payload(a[i])) && Fine(Payload(b[i])) && SameRecord(a[i], b[i])
  }

  lemma LinkedInit(s: Suite, records: seq<Record>, n: nat)
    requires Linked(s, records) && n <= |records|
    ensures Linked(s, records[..n])
  {
    forall i: nat | i < n
      ensures LinkedAt(s, records[..n], i)
    {
      assert LinkedAt(s, records, i);
      assert records[..n][..i] == records[..i];
    }
  }

  /**
   * Main result: two logs accepted with the same head sequence number and hash are the same log, record
   * by record. So no edit, reorder, insertion or truncation of an accepted log is accepted with its head.
   */
  lemma HeadDeterminesLog(s: Suite, a: seq<Record>, headA: Head, b: seq<Record>, headB: Head)
    requires Sound(s) && ProperLog(a) && ProperLog(b)
    requires Accepted(s, a, headA) && Accepted(s, b, headB)
    requires headA.seqNo == headB.seqNo && headA.hash == headB.hash
    ensures |a| == |b| && forall i: nat | i < |a| :: SameRecordAt(s, a, b, i)
  {
    assert NumberedAt(a, |a| - 1) && NumberedAt(b, |b| - 1);
    TailDeterminesLog(s, a, b);
  }

  /** The MAC in the head file already fixes the sequence number and the hash it was made for. */
  lemma HeadMacDeterminesHead(s: Suite, a: seq<Record>, headA: Head, b: seq<Record>, headB: Head)
    requires Sound(s) && Accepted(s, a, headA) && Accepted(s, b, headB) && headA.mac == headB.mac
    ensures headA == headB
  {
    var p, q := HeadPayload(headA.v, headA.seqNo, headA.hash), HeadPayload(headB.v, headB.seqNo, headB.hash);
    Cut(SCHEME, s.mac(TextOf(s.num, p)));
    Cut(SCHEME, s.mac(TextOf(s.num, q)));
    SameTextIffSameMeaning(s.num, p, q);
    HeadMeaning(headA);
    HeadMeaning(headB);
  }

  lemma HeadMeaning(h: Head)
    requires h.Head?
    ensures Fine(HeadPayload(h.v, h.seqNo, h.hash))
    ensures VERSION in HeadMap(h) && HeadMap(h)[VERSION] == VNumber(h.v)
    ensures SEQ in HeadMap(h) && HeadMap(h)[SEQ] == VNumber(h.seqNo)
    ensures HASH in HeadMap(h) && HeadMap(h)[HASH] == VStr(h.hash)
  {
    var p := HeadPayload(h.v, h.seqNo, h.hash);
    EntryOf(p, p.members[0]);
    EntryOf(p, p.members[1]);
    EntryOf(p, p.members[2]);
  }

  ghost function HeadMap(h: Head): map<Text, Val>
    requires h.Head?
  {
    Meaning(HeadPayload(h.v, h.seqNo, h.hash)).members
  }

  // ---------- and nothing but the meaning counts ----------

  lemma {:induction false} FieldOfMember(fields: seq<Member>, m: Member)
    requires m in fields && forall i, j | 0 <= i < j < |fields| :: fields[i].key != fields[j].key
    ensures Field(fields, m.key) == m.value
  {
    if fields[0] != m {
      assert m in fields[1..];
      FieldOfMember(fields[1..], m);
    }
  }

  /** A string or a nonzero number read from a record is read from every record that means the same. */
  lemma FieldByMeaning(a: Record, b: Record, key: Text)
    requires Fine(Payload(a)) && Fine(Payload(b)) && Meaning(Payload(a)) == Meaning(Payload(b))
    requires Field(a.fields, key).Str? || (Field(a.fields, key).Number? && Field(a.fields, key).n.Finite?
                                           && Field(a.fields, key).n.id != 0)
    ensures Field(b.fields, key) == Field(a.fields, key)
  {
    FieldIsMember(a.fields, key);
    EntryOf(Payload(a), Member(key, Field(a.fields, key)));
    var m := EntryFrom(Payload(b), key);
    FieldOfMember(b.fields, m);
  }

  lemma RecordByMeaning(s: Suite, a: seq<Record>, b: seq<Record>, i: nat)
    requires Sound(s) && ProperLog(a) && ProperLog(b) && |a| == |b|
    requires forall j: nat | j < |a| :: SameRecordAt(s, a, b, j)
    requires i < |a| && NumberedAt(a, i) && LinkedAt(s, a, i)
    ensures NumberedAt(b, i) && LinkedAt(s, b, i)
  {
    assert SameRecordAt(s, a, b, i);
    FieldByMeaning(a[i], b[i], SEQ);
    FieldByMeaning(a[i], b[i], PREV_HASH);
    SameTextIffSameMeaning(s.num, Payload(a[i]), Payload(b[i]));
    if i > 0 {
      assert SameRecordAt(s, a, b, i - 1);
    }
  }

  /**
   * Verification cannot tell records that mean the same apart: a log written and read back by a JSON
   * codec that keeps meanings is accepted with its head whenever the original was.
   */
  lemma AcceptanceByMeaning(s: Suite, a: seq<Record>, b: seq<Record>, head: Head)
    requires Sound(s) && ProperLog(a) && ProperLog(b) && |a| == |b|
    requires forall i: nat | i < |a| :: SameRecordAt(s, a, b, i)
    requires Accepted(s, a, head)
    ensures Accepted(s, b, head)
  {
    forall i: nat | i < |b|
      ensures NumberedAt(b, i) && LinkedAt(s, b, i)
    {
      assert NumberedAt(a, i) && LinkedAt(s, a, i);
      RecordByMeaning(s, a, b, i);
    }
    var n := |a| - 1;
    assert NumberedAt(a, n) && NumberedAt(b, n) && SameRecordAt(s, a, b, n);
  }
}
