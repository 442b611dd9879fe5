/**
 * The append-only audit log: concurrent appends that wait for the key and then run to the end of their
 * body, automatic anchors, and reopening. Runs are sequences of the steps an event loop can take.
 */
module AuditLog {
  import opened Wrappers
  import opened CanonicalJson
  import opened AuditChain

  const TS: Text := [0x74, 0x73]
  const TYPE: Text := [0x74, 0x79, 0x70, 0x65]
  const TASK_ID: Text := [0x74, 0x61, 0x73, 0x6b, 0x5f, 0x69, 0x64]
  const COMPUTER_ID: Text :=
    [0x63, 0x6f, 0x6d, 0x70, 0x75, 0x74, 0x65, 0x72, 0x5f, 0x69, 0x64]
  const BODY: Text := [0x62, 0x6f, 0x64, 0x79]
  const HEAD: Text := [0x68, 0x65, 0x61, 0x64]
  const ANCHOR: Text := [0x61, 0x75, 0x64, 0x69, 0x74, 0x2e, 0x61, 0x6e, 0x63, 0x68, 0x6f, 0x72]

  /** An append request; the body is what redaction leaves of it. */
  datatype Input = Input(kind: Text, ts: Text, taskId: Option<Text>, computerId: Option<Text>, body: Json)

  /** An append suspended on the key; `auto` marks the anchors the log schedules itself. */
  datatype Pending = Pending(input: Input, auto: bool)

  /** The object's fields, the two files and the suspended calls. */
  datatype Log = Log(
    seqNo: int,
    prevHash: Text,
    sinceAnchor: int,
    anchorEvery: int,
    file: seq<Record>,
    autos: seq<bool>,
    head: Head,
    pending: seq<Pending>)

  function Fields(seqNo: int, input: Input, prevHash: Text): seq<Member> {
    [Member(VERSION, Number(Finite(1))), Member(SEQ, Number(Finite(seqNo))),
     Member(TS, Str(input.ts)), Member(TYPE, Str(input.kind))]
    + (if input.taskId.Some? then [Member(TASK_ID, Str(input.taskId.value))] else [])
    + (if input.computerId.Some? then [Member(COMPUTER_ID, Str(input.computerId.value))] else [])
    + [Member(BODY, input.body), Member(PREV_HASH, Str(prevHash))]
  }

  function AnchorInput(ts: Text, seqNo: int, prevHash: Text): Input {
    Input(ANCHOR, ts, None, None, Obj([Member(HEAD, Str(prevHash)), Member(SEQ, Number(Finite(seqNo)))]))
  }

  function HeadFor(s: Suite, seqNo: int, hash: Text): Head {
    Head.Head(1, seqNo, hash, HeadMac(s, 1, seqNo, hash))
  }

  function IsAnchor(r: Record): bool {
    Field(r.fields, TYPE) == Str(ANCHOR)
  }

  /** Only the body can make the serializer throw. */
  predicate Writable(input: Input) {
    input.body.Undefined? || Serializable(input.body)
  }

  lemma FieldsSerializable(seqNo: int, input: Input, prevHash: Text)
    ensures Serializable(Obj(Fields(seqNo, input, prevHash))) <==> Writable(input)
  {
    var fields := Fields(seqNo, input, prevHash);
    assert fields[|fields| - 2].value == input.body;
    if Writable(input) {
      forall i | 0 <= i < |fields|
        ensures fields[i].value.Undefined? || Serializable(fields[i].value)
      {
      }
    }
  }

  // ---------- the steps ----------

  /** A call of `append`, up to its await. */
  function Called(log: Log, input: Input): Log {
    log.(pending := log.pending + [Pending(input, false)])
  }

  /** A call of `appendAnchor`, up to the await of the append in it. */
  function AnchorCalled(log: Log, ts: Text, auto: bool): Log {
    log.(sinceAnchor := 0,
         pending := log.pending + [Pending(AnchorInput(ts, log.seqNo, log.prevHash), auto)])
  }

  function Without(pending: seq<Pending>, i: nat): seq<Pending>
    requires i < |pending|
  {
    pending[..i] + pending[i + 1..]
  }

  /** The record an append seals. */
  function RecordFor(s: Suite, seqNo: int, input: Input, prevHash: Text): Record
    requires Writable(input)
  {
    FieldsSerializable(seqNo, input, prevHash);
    SealRecord(s, Fields(seqNo, input, prevHash))
  }

  /** The record written and the head rewritten. */
  function Written(s: Suite, log: Log, p: Pending): Log
    requires Writable(p.input)
  {
    var r := RecordFor(s, log.seqNo + 1, p.input, log.prevHash);
    log.(seqNo := log.seqNo + 1, prevHash := r.hash, sinceAnchor := log.sinceAnchor + 1,
         file := log.file + [r], autos := log.autos + [p.auto], head := HeadFor(s, log.seqNo + 1, r.hash))
  }

  /** The key arrives for call i: the rest of `append`, up to the await of its own anchor. */
  function Resumed(s: Suite, log: Log, i: nat, ts: Text): Log
    requires i < |log.pending|
  {
    var p := log.pending[i];
    var rest := log.(pending := Without(log.pending, i));
    if !Writable(p.input) then rest
    else
      var done := Written(s, rest, p);
      if p.input.kind != ANCHOR && done.sinceAnchor >= log.anchorEvery then AnchorCalled(done, ts, true) else done
  }

  /** The key provider fails for call i. */
  function Rejected(log: Log, i: nat): Log
    requires i < |log.pending|
  {
    log.(pending := Without(log.pending, i))
  }

  /** Records since the last anchor, as `replayHead` counts them. */
  function Trailing(file: seq<Record>): nat {
    if file == [] then 0
    else if IsAnchor(file[|file| - 1]) then 0
    else Trailing(file[..|file| - 1]) + 1
  }

  function NumberOf(v: Json): int {
    if v.Number? && v.n.Finite? then v.n.id else 0
  }

  /** A new object on the files of the old one. */
  function Reopened(log: Log): Log {
    log.(seqNo := if log.file == [] then 0 else NumberOf(SeqNo(log.file[|log.file| - 1])),
         prevHash := Tail(log.file),
         sinceAnchor := Trailing(log.file))
  }

  function NewLog(anchorEvery: int): Log {
    Log(0, GENESIS, 0, anchorEvery, [], [], Missing, [])
  }

  // ---------- the object ----------

  class AuditLog {
    var seqNo: int
    var prevHash: Text
    var sinceAnchor: int
    const anchorEvery: int
    var file: seq<Record>
    ghost var autos: seq<bool>
    var head: Head
    var pending: seq<Pending>

    ghost function View(): Log
      reads this
    {
      Log(seqNo, prevHash, sinceAnchor, anchorEvery, file, autos, head, pending)
    }

    /** Opening replays the file; an absent file starts empty. */
    constructor (existing: Option<seq<Record>>, existingHead: Head, ghost existingAutos: seq<bool>, every: int)
      ensures View() == if existing.None? then Log(0, GENESIS, 0, every, [], existingAutos, existingHead, [])
                        else Reopened(Log(0, GENESIS, 0, every, existing.value, existingAutos, existingHead, []))
    {
      seqNo, prevHash, sinceAnchor, anchorEvery := 0, GENESIS, 0, every;
      file := if existing.Some? then existing.value else [];
      autos, head, pending := existingAutos, existingHead, [];
      new;
      if existing.Some? {
        ReplayHead();
      }
    }

    method ReplayHead()
      requires seqNo == 0 && prevHash == GENESIS && sinceAnchor == 0
      modifies this
      ensures View() == Reopened(old(View()))
    {
      for i := 0 to |file|
        invariant file == old(file) && autos == old(autos) && head == old(head) && pending == old(pending)
        invariant seqNo == if i == 0 then 0 else NumberOf(SeqNo(file[i - 1]))
        invariant prevHash == Tail(file[..i])
        invariant sinceAnchor == Trailing(file[..i])
      {
        var rec := file[i];
        seqNo := NumberOf(SeqNo(rec));
        prevHash := rec.hash;
        sinceAnchor := if IsAnchor(rec) then 0 else sinceAnchor + 1;
        assert file[..i + 1][..i] == file[..i];
      }
      assert file[..|file|] == file;
    }

    method Append(input: Input)
      modifies this
      ensures View() == Called(old(View()), input)
    {
      pending := pending + [Pending(input, false)];
    }

    method AppendAnchor(ts: Text, auto: bool)
      modifies this
      ensures View() == AnchorCalled(old(View()), ts, auto)
    {
      sinceAnchor := 0;
      pending := pending + [Pending(AnchorInput(ts, seqNo, prevHash), auto)];
    }

    /** The part of `append` that runs without a break once the payload is built. */
    method WriteRecord(s: Suite, p: Pending) returns (rec: Record)
      requires Writable(p.input)
      modifies this
      ensures View() == Written(s, old(View()), p)
      ensures file == old(file) + [rec]
    {
      rec := RecordFor(s, seqNo + 1, p.input, prevHash);
      file := file + [rec];
      autos := autos + [p.auto];
      seqNo := seqNo + 1;
      prevHash := rec.hash;
      head := HeadFor(s, seqNo, prevHash);
      sinceAnchor := sinceAnchor + 1;
    }

    method Resume(s: Suite, i: nat, ts: Text) returns (sealed: Option<Record>)
      requires i < |pending|
      modifies this
      ensures View() == Resumed(s, old(View()), i, ts)
      ensures sealed.Some? ==> file == old(file) + [sealed.value]
      ensures sealed.None? ==> file == old(file)
    {
      var p := pending[i];
      pending := pending[..i] + pending[i + 1..];
      if !Writable(p.input) {
        return None;
      }
      var rec := WriteRecord(s, p);
      if p.input.kind != ANCHOR && sinceAnchor >= anchorEvery {
        AppendAnchor(ts, true);
      }
      return Some(rec);
    }
  }

  // ---------- runs ----------

  datatype Step =
    | Call(input: Input)
    | CallAnchor(ts: Text)
    | Resume(i: nat, ts: Text)
    | Reject(i: nat)
    | Reopen

  /** Any suspended call may go on; a reopen comes between completed appends. */
  predicate Enabled(log: Log, step: Step) {
    match step
    case Resume(i, _) => i < |log.pending|
    case Reject(i) => i < |log.pending|
    case Reopen => log.pending == []
    case _ => true
  }

  function Next(s: Suite, log: Log, step: Step): Log
    requires Enabled(log, step)
  {
    match step
    case Call(input) => Called(log, input)
    case CallAnchor(ts) => AnchorCalled(log, ts, false)
    case Resume(i, ts) => Resumed(s, log, i, ts)
    case Reject(i) => Rejected(log, i)
    case Reopen => Reopened(log)
  }

  /** The states an interleaving goes through, from wherever it starts. */
  ghost predicate Path(s: Suite, states: seq<Log>, steps: seq<Step>) {
    && |states| == |steps| + 1
    && forall k: nat | k < |steps| :: Enabled(states[k], steps[k]) && states[k + 1] == Next(s, states[k], steps[k])
  }

  /** A run starts from a new log. */
  ghost predicate Run(s: Suite, states: seq<Log>, steps: seq<Step>, every: int) {
    Path(s, states, steps) && states[0] == NewLog(every)
  }

  // ---------- what every interleaving keeps ----------

  /** The body of an anchor names record n of the file. */
  ghost predicate Names(file: seq<Record>, body: Json, n: nat) {
    1 <= n <= |file| && body == Obj([Member(HEAD, Str(file[n - 1].hash)), Member(SEQ, Number(Finite(n)))])
  }

  ghost predicate AutoRecordOk(file: seq<Record>, k: nat)
    requires k < |file|
  {
    IsAnchor(file[k]) && exists n :: Names(file[..k], Field(file[k].fields, BODY), n)
  }

  ghost predicate AutoPendingOk(file: seq<Record>, p: Pending) {
    p.input.kind == ANCHOR && exists n :: Names(file, p.input.body, n)
  }

  ghost predicate Inv(s: Suite, log: Log) {
    && Numbered(log.file) && Linked(s, log.file)
    && log.seqNo == |log.file| && log.prevHash == Tail(log.file)
    && |log.autos| == |log.file|
    && log.head == (if log.file == [] then Missing else HeadFor(s, |log.file|, Tail(log.file)))
    && (forall k: nat | k < |log.file| && log.autos[k] :: AutoRecordOk(log.file, k))
    && (forall p | p in log.pending && p.auto :: AutoPendingOk(log.file, p))
  }

  lemma FieldsRead(seqNo: int, input: Input, prevHash: Text, hash: Text)
    ensures var r := Record(Fields(seqNo, input, prevHash), hash);
            SeqNo(r) == Number(Finite(seqNo)) && PrevHash(r) == Str(prevHash)
            && Field(r.fields, TYPE) == Str(input.kind) && Field(r.fields, BODY) == input.body
  {
    var front := Fields(seqNo, input, prevHash);
    assert Field(front, SEQ) == Field(front[1..], SEQ);
    assert Field(front, TYPE) == Field(front[1..], TYPE) == Field(front[2..], TYPE) == Field(front[3..], TYPE);
    FieldAt(front, |front| - 2);
    FieldAt(front, |front| - 1);
  }

  lemma {:induction false} FieldAt(fields: seq<Member>, i: nat)
    requires i < |fields| && forall j | 0 <= j < i :: fields[j].key != fields[i].key
    ensures Field(fields, fields[i].key) == fields[i].value
  {
    if i > 0 {
      FieldAt(fields[1..], i - 1);
    }
  }

  lemma NamesGrow(file: seq<Record>, more: seq<Record>, body: Json, n: nat)
    requires Names(file, body, n)
    ensures Names(file + more, body, n)
  {
  }

  lemma AppendKeepsChain(s: Suite, file: seq<Record>, r: Record)
    requires Numbered(file) && Linked(s, file)
    requires PrevHash(r) == Str(Tail(file)) && SeqNo(r) == Number(Finite(|file| + 1)) && Sealed(s, r)
    ensures Numbered(file + [r]) && Linked(s, file + [r])
  {
    var more := file + [r];
    forall i: nat | i < |more|
      ensures NumberedAt(more, i) && LinkedAt(s, more, i)
    {
      if i < |file| {
        assert NumberedAt(file, i) && LinkedAt(s, file, i);
        assert more[..i] == file[..i];
      } else {
        assert more[..i] == file;
      }
    }
  }

  lemma AppendKeepsAutos(file: seq<Record>, autos: seq<bool>, r: Record, auto: bool)
    requires |autos| == |file|
    requires forall k: nat | k < |file| && autos[k] :: AutoRecordOk(file, k)
    requires auto ==> IsAnchor(r) && exists n :: Names(file, Field(r.fields, BODY), n)
    ensures forall k: nat | k <= |file| && (autos + [auto])[k] :: AutoRecordOk(file + [r], k)
  {
    var more := file + [r];
    forall k: nat | k <= |file| && (autos + [auto])[k]
      ensures AutoRecordOk(more, k)
    {
      if k < |file| {
        assert AutoRecordOk(file, k);
        assert more[..k] == file[..k];
      } else {
        assert more[..k] == file;
      }
    }
  }

  lemma PendingGrow(file: seq<Record>, r: Record, p: Pending)
    requires AutoPendingOk(file, p)
    ensures AutoPendingOk(file + [r], p)
  {
    var n :| Names(file, p.input.body, n);
    NamesGrow(file, [r], p.input.body, n);
  }

  /** What can be said of the record an append writes. */
  lemma WrittenRecord(s: Suite, log: Log, p: Pending) returns (r: Record)
    requires Writable(p.input)
    ensures Sealed(s, r) && SeqNo(r) == Number(Finite(log.seqNo + 1)) && PrevHash(r) == Str(log.prevHash)
    ensures (IsAnchor(r) <==> p.input.kind == ANCHOR) && Field(r.fields, BODY) == p.input.body
    ensures Written(s, log, p) ==
            log.(seqNo := log.seqNo + 1, prevHash := r.hash, sinceAnchor := log.sinceAnchor + 1,
                 file := log.file + [r], autos := log.autos + [p.auto], head := HeadFor(s, log.seqNo + 1, r.hash))
  {
    FieldsSerializable(log.seqNo + 1, p.input, log.prevHash);
    r := RecordFor(s, log.seqNo + 1, p.input, log.prevHash);
    FieldsRead(log.seqNo + 1, p.input, log.prevHash, r.hash);
  }

  lemma WrittenKeepsInv(s: Suite, log: Log, p: Pending)
    requires Inv(s, log) && (p.auto ==> AutoPendingOk(log.file, p))
    requires Writable(p.input)
    ensures Inv(s, Written(s, log, p))
  {
    var r := WrittenRecord(s, log, p);
    AppendKeepsChain(s, log.file, r);
    AppendKeepsAutos(log.file, log.autos, r, p.auto);
    forall q | q in log.pending && q.auto
      ensures AutoPendingOk(log.file + [r], q)
    {
      PendingGrow(log.file, r, q);
    }
  }

  lemma AnchorCallKeepsInv(s: Suite, log: Log, ts: Text)
    requires Inv(s, log) && log.file != []
    ensures Inv(s, AnchorCalled(log, ts, true))
  {
    assert Names(log.file, AnchorInput(ts, log.seqNo, log.prevHash).body, |log.file|);
  }

  lemma ResumeKeepsInv(s: Suite, log: Log, i: nat, ts: Text)
    requires Inv(s, log) && i < |log.pending|
    ensures Inv(s, Resumed(s, log, i, ts))
  {
    var p := log.pending[i];
    assert p in log.pending;
    var rest := log.(pending := Without(log.pending, i));
    assert forall q | q in rest.pending :: q in log.pending;
    if Writable(p.input) {
      WrittenKeepsInv(s, rest, p);
      AnchorCallKeepsInv(s, Written(s, rest, p), ts);
    }
  }

  lemma StepKeepsInv(s: Suite, log: Log, step: Step)
    requires Inv(s, log) && Enabled(log, step)
    ensures Inv(s, Next(s, log, step))
  {
    match step
    case Call(input) =>
    case CallAnchor(ts) =>
    case Resume(i, ts) =>
      ResumeKeepsInv(s, log, i, ts);
    case Reject(i) =>
    case Reopen =>
      if log.file != [] {
        assert NumberedAt(log.file, |log.file| - 1);
      }
  }

  lemma {:induction false} RunKeepsInv(s: Suite, states: seq<Log>, steps: seq<Step>, every: int, k: nat)
    requires Run(s, states, steps, every) && k <= |steps|
    ensures Inv(s, states[k])
  {
    if k > 0 {
      RunKeepsInv(s, states, steps, every, k - 1);
      StepKeepsInv(s, states[k - 1], steps[k - 1]);
    }
  }

  /**
   * Main result: after every step of every interleaving the files verify as soon as there is a record
   * (before that there is no head and verification says so), and every automatic anchor in the file names
   * the hash of the record whose sequence number it carries.
   */
  lemma EveryInterleavingVerifies(s: Suite, states: seq<Log>, steps: seq<Step>, every: int, k: nat)
    requires Run(s, states, steps, every) && k <= |steps|
    ensures var log := states[k];
            && (Accepted(s, log.file, log.head) <==> log.file != [])
            && (log.file == [] ==> log.head.Missing?)
            && |log.autos| == |log.file|
            && (forall j: nat | j < |log.file| && log.autos[j] :: AutoRecordOk(log.file, j))
  {
    RunKeepsInv(s, states, steps, every, k);
    var file := states[k].file;
    if file != [] {
      assert NumberedAt(file, |file| - 1);
    }
  }
}
