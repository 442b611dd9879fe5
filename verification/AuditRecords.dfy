/**
 * What the records of the audit log say, under the names that RFC 8785 texts give their members: each is the
 * record of one call, with what that call passed, and no call is recorded twice.
 */
module AuditRecords {
  import opened Wrappers
  import opened CanonicalJson
  import opened AuditChain
  import opened AuditLog

  /** The code units of plain text. */
  function Ascii(s: string): Text
    requires forall i | 0 <= i < |s| :: s[i] < 128 as char
  {
    seq(|s|, i requires 0 <= i < |s| => s[i] as int)
  }

  function Optional(text: Option<Text>): Json {
    if text.Some? then Str(text.value) else Undefined
  }

  /** The record of a call: a member that the call did not pass is not there. */
  predicate Carries(r: Record, input: Input) {
    && Field(r.fields, Ascii("v")) == Number(Finite(1))
    && Field(r.fields, Ascii("ts")) == Str(input.ts)
    && Field(r.fields, Ascii("type")) == Str(input.kind)
    && Field(r.fields, Ascii("task_id")) == Optional(input.taskId)
    && Field(r.fields, Ascii("computer_id")) == Optional(input.computerId)
    && Field(r.fields, Ascii("body")) == input.body
  }

  /** Its place in the chain. */
  predicate Stands(r: Record, seqNo: int, prevHash: Text) {
    && Field(r.fields, Ascii("seq")) == Number(Finite(seqNo))
    && Field(r.fields, Ascii("prev_hash")) == Str(prevHash)
  }

  lemma ShortNames()
    ensures Ascii("v") == VERSION && Ascii("ts") == TS && Ascii("type") == TYPE && Ascii("body") == BODY
    ensures Ascii("seq") == SEQ && Ascii("head") == HEAD
  {
  }

  lemma LongNames()
    ensures Ascii("task_id") == TASK_ID && Ascii("computer_id") == COMPUTER_ID
    ensures Ascii("prev_hash") == PREV_HASH
  {
  }

  lemma AnchorName()
    ensures Ascii("audit.anchor") == ANCHOR
  {
  }

  lemma {:induction false} FieldAbsent(fields: seq<Member>, key: Text)
    requires forall i | 0 <= i < |fields| :: fields[i].key != key
    ensures Field(fields, key) == Undefined
  {
    if fields != [] {
      FieldAbsent(fields[1..], key);
    }
  }

  /** The names of a record's members differ from those of the optional ones. */
  lemma NamesDiffer()
    ensures forall key | key in [VERSION, SEQ, TS, TYPE, BODY, PREV_HASH] :: |key| != 7 && |key| != 11
    ensures |TASK_ID| == 7 && |COMPUTER_ID| == 11
  {
  }

  /** The optional members of a record stand under their own names. */
  lemma OptionalFields(seqNo: int, input: Input, prevHash: Text)
    ensures var fields := Fields(seqNo, input, prevHash);
            Field(fields, TASK_ID) == Optional(input.taskId) && Field(fields, COMPUTER_ID) == Optional(input.computerId)
  {
    var fields := Fields(seqNo, input, prevHash);
    NamesDiffer();
    var task := if input.taskId.Some? then 1 else 0;
    var computer := if input.computerId.Some? then 1 else 0;
    assert |fields| == 6 + task + computer;
    assert forall i | 0 <= i < 4 :: fields[i].key in [VERSION, SEQ, TS, TYPE, BODY, PREV_HASH];
    assert forall i | 4 + task + computer <= i < |fields| ::
        fields[i].key in [VERSION, SEQ, TS, TYPE, BODY, PREV_HASH];
    if input.taskId.Some? {
      FieldAt(fields, 4);
    } else {
      FieldAbsent(fields, TASK_ID);
    }
    if input.computerId.Some? {
      FieldAt(fields, 4 + task);
    } else {
      FieldAbsent(fields, COMPUTER_ID);
    }
  }

  lemma FirstFields(seqNo: int, input: Input, prevHash: Text)
    ensures var fields := Fields(seqNo, input, prevHash);
            Field(fields, VERSION) == Number(Finite(1)) && Field(fields, TS) == Str(input.ts)
  {
    var fields := Fields(seqNo, input, prevHash);
    assert Field(fields, TS) == Field(fields[1..], TS) == Field(fields[2..], TS);
  }

  /** The members of a record, by name. */
  lemma FieldsCarry(seqNo: int, input: Input, prevHash: Text, hash: Text)
    ensures var r := Record(Fields(seqNo, input, prevHash), hash); Carries(r, input) && Stands(r, seqNo, prevHash)
  {
    ShortNames();
    LongNames();
    FirstFields(seqNo, input, prevHash);
    OptionalFields(seqNo, input, prevHash);
    FieldsRead(seqNo, input, prevHash, hash);
  }

  // ---------- runs ----------

  lemma RecordCarries(s: Suite, seqNo: int, input: Input, prevHash: Text)
    requires Writable(input)
    ensures Carries(RecordFor(s, seqNo, input, prevHash), input)
    ensures Stands(RecordFor(s, seqNo, input, prevHash), seqNo, prevHash)
  {
    FieldsCarry(seqNo, input, prevHash, RecordFor(s, seqNo, input, prevHash).hash);
  }

  lemma WrittenFile(s: Suite, log: Log, p: Pending)
    requires Writable(p.input)
    ensures Written(s, log, p).file == log.file + [RecordFor(s, log.seqNo + 1, p.input, log.prevHash)]
  {
  }

  /** The file after a call was recorded. */
  predicate Adds(before: Log, input: Input, after: Log) {
    && |after.file| == |before.file| + 1 && after.file[..|before.file|] == before.file
    && Carries(after.file[|before.file|], input) && Stands(after.file[|before.file|], before.seqNo + 1, before.prevHash)
  }

  /** A resumed writable append adds one record, its own; any other resumption adds none. */
  lemma ResumeWrites(s: Suite, log: Log, i: nat, ts: Text)
    requires i < |log.pending|
    ensures var input, next := log.pending[i].input, Resumed(s, log, i, ts);
            if Writable(input) then Adds(log, input, next) else next.file == log.file
  {
    var p, rest := log.pending[i], log.(pending := Without(log.pending, i));
    if Writable(p.input) {
      RecordCarries(s, log.seqNo + 1, p.input, log.prevHash);
      WrittenFile(s, rest, p);
      assert Resumed(s, log, i, ts).file == Written(s, rest, p).file;
    }
  }

  /** The step resumes an append that can be written; this is its input. */
  function Recorded(log: Log, step: Step): Option<Input> {
    if step.Resume? && step.i < |log.pending| && Writable(log.pending[step.i].input)
    then Some(log.pending[step.i].input)
    else None
  }

  lemma StepWrites(s: Suite, log: Log, step: Step)
    requires Enabled(log, step)
    ensures match Recorded(log, step)
            case Some(input) => Adds(log, input, Next(s, log, step))
            case None => Next(s, log, step).file == log.file
  {
    if step.Resume? {
      ResumeWrites(s, log, step.i, step.ts);
    }
  }

  /** The inputs of the calls whose resumption wrote a record, in that order. */
  function RecordedInputs(states: seq<Log>, steps: seq<Step>, k: nat): seq<Input>
    requires |states| == |steps| + 1 && k <= |steps|
  {
    if k == 0 then []
    else
      var input := Recorded(states[k - 1], steps[k - 1]);
      RecordedInputs(states, steps, k - 1) + if input.Some? then [input.value] else []
  }

  ghost predicate AllCarry(file: seq<Record>, inputs: seq<Input>) {
    |file| == |inputs| && forall j | 0 <= j < |file| :: Carries(file[j], inputs[j])
  }

  lemma AllCarryMore(before: Log, inputs: seq<Input>, input: Input, after: Log)
    requires AllCarry(before.file, inputs) && Adds(before, input, after)
    ensures AllCarry(after.file, inputs + [input])
  {
    forall j | 0 <= j < |after.file|
      ensures Carries(after.file[j], (inputs + [input])[j])
    {
      if j < |before.file| {
        assert after.file[..|before.file|][j] == before.file[j];
      }
    }
  }

  /** Main result: in every interleaving, record j is the record of the call whose resumption wrote it. */
  lemma {:induction false} EveryRecordIsItsCall(s: Suite, states: seq<Log>, steps: seq<Step>, every: int, k: nat)
    requires Run(s, states, steps, every) && k <= |steps|
    ensures AllCarry(states[k].file, RecordedInputs(states, steps, k))
  {
    if k > 0 {
      var log, step, inputs := states[k - 1], steps[k - 1], RecordedInputs(states, steps, k - 1);
      EveryRecordIsItsCall(s, states, steps, every, k - 1);
      StepWrites(s, log, step);
      if Recorded(log, step).Some? {
        AllCarryMore(log, inputs, Recorded(log, step).value, states[k]);
      } else {
        Seqs.Empty(inputs);
      }
    }
  }

  // ---------- every call once ----------

  function CallsOf(steps: seq<Step>, k: nat, input: Input): nat
    requires k <= |steps|
  {
    if k == 0 then 0 else CallsOf(steps, k - 1, input) + if steps[k - 1] == Call(input) then 1 else 0
  }

  function Suspended(pending: seq<Pending>, input: Input): nat {
    if pending == [] then 0
    else Suspended(pending[..|pending| - 1], input) + if pending[|pending| - 1].input == input then 1 else 0
  }

  predicate Ends(log: Log, step: Step, input: Input) {
    match step
    case Resume(i, _) => i < |log.pending| && log.pending[i].input == input
    case Reject(i) => i < |log.pending| && log.pending[i].input == input
    case _ => false
  }

  function EndsOf(states: seq<Log>, steps: seq<Step>, k: nat, input: Input): nat
    requires |states| == |steps| + 1 && k <= |steps|
  {
    if k == 0 then 0
    else EndsOf(states, steps, k - 1, input) + if Ends(states[k - 1], steps[k - 1], input) then 1 else 0
  }

  lemma SuspendedMore(pending: seq<Pending>, p: Pending, input: Input)
    ensures Suspended(pending + [p], input) == Suspended(pending, input) + if p.input == input then 1 else 0
  {
    assert (pending + [p])[..|pending|] == pending;
  }

  lemma {:induction false} SuspendedWithout(pending: seq<Pending>, i: nat, input: Input)
    requires i < |pending|
    ensures Suspended(pending, input) ==
            Suspended(Without(pending, i), input) + if pending[i].input == input then 1 else 0
  {
    var last := |pending| - 1;
    if i < last {
      SuspendedWithout(pending[..last], i, input);
      assert Without(pending, i) == Without(pending[..last], i) + [pending[last]];
      SuspendedMore(Without(pending[..last], i), pending[last], input);
    } else {
      assert Without(pending, i) == pending[..last];
    }
  }

  lemma StepKeepsCalls(s: Suite, log: Log, step: Step, input: Input)
    requires Enabled(log, step) && input.kind != ANCHOR
    ensures Suspended(Next(s, log, step).pending, input) + (if Ends(log, step, input) then 1 else 0) ==
            Suspended(log.pending, input) + if step == Call(input) then 1 else 0
  {
    match step
    case Call(called) =>
      SuspendedMore(log.pending, Pending(called, false), input);
    case CallAnchor(ts) =>
      SuspendedMore(log.pending, Pending(AnchorInput(ts, log.seqNo, log.prevHash), false), input);
    case Resume(i, ts) =>
      var rest := Without(log.pending, i);
      SuspendedWithout(log.pending, i, input);
      var next := Resumed(s, log, i, ts);
      if next.pending != rest {
        SuspendedMore(rest, next.pending[|rest|], input);
      }
    case Reject(i) =>
      SuspendedWithout(log.pending, i, input);
    case Reopen =>
  }

  /** Main result: every call of `append` ends once, with a record or without, or is still suspended. */
  lemma {:induction false} EveryCallOnce(s: Suite, states: seq<Log>, steps: seq<Step>, every: int, k: nat, input: Input)
    requires Run(s, states, steps, every) && k <= |steps| && input.kind != Ascii("audit.anchor")
    ensures CallsOf(steps, k, input) == Suspended(states[k].pending, input) + EndsOf(states, steps, k, input)
  {
    if k > 0 {
      EveryCallOnce(s, states, steps, every, k - 1, input);
      AnchorName();
      StepKeepsCalls(s, states[k - 1], steps[k - 1], input);
    }
  }

  lemma ChainNames()
    ensures Ascii("genesis") == GENESIS && Ascii("hash") == HASH
  {
  }

  lemma SchemeName()
    ensures Ascii("hmac-sha256:") == SCHEME
  {
  }

  /** The seal on a value. */
  function Seal(s: Suite, v: Json): Text
    requires Serializable(v)
  {
    Ascii("hmac-sha256:") + s.mac(TextOf(s.num, v))
  }

  /**
   * Main result: in every interleaving record j has the number j + 1, names the hash of the one before it, and its own
   * hash is the seal on its members.
   */
  lemma EveryRecordFollows(s: Suite, states: seq<Log>, steps: seq<Step>, every: int, k: nat, j: nat)
    requires Run(s, states, steps, every) && k <= |steps| && j < |states[k].file|
    ensures var file := states[k].file;
            && Stands(file[j], j + 1, if j == 0 then Ascii("genesis") else file[j - 1].hash)
            && Serializable(Obj(file[j].fields)) && file[j].hash == Seal(s, Obj(file[j].fields))
  {
    var file := states[k].file;
    EveryInterleavingVerifies(s, states, steps, every, k);
    assert NumberedAt(file, j) && LinkedAt(s, file, j);
    ShortNames();
    LongNames();
    ChainNames();
    SchemeName();
    assert j > 0 ==> file[..j][|file[..j]| - 1] == file[j - 1];
  }

  /** The head file holds the version, the number of records and the last hash, and the seal on these three. */
  lemma HeadIs(s: Suite, states: seq<Log>, steps: seq<Step>, every: int, k: nat)
    requires Run(s, states, steps, every) && k <= |steps| && states[k].file != []
    ensures var file := states[k].file; var n := |file|; var hash := file[n - 1].hash;
            var sealed := Obj([Member(Ascii("v"), Number(Finite(1))), Member(Ascii("seq"), Number(Finite(n))),
                               Member(Ascii("hash"), Str(hash))]);
            Serializable(sealed) && states[k].head == Head.Head(1, n, hash, Seal(s, sealed))
  {
    RunKeepsInv(s, states, steps, every, k);
    ShortNames();
    ChainNames();
    SchemeName();
  }

  /** An anchor names the head as it stands at the call. */
  lemma AnchorNamesHead(ts: Text, seqNo: int, prevHash: Text)
    ensures var input := AnchorInput(ts, seqNo, prevHash);
            && input.kind == Ascii("audit.anchor") && input.ts == ts && input.taskId == None && input.computerId == None
            && input.body.Obj? && |input.body.members| == 2
            && Field(input.body.members, Ascii("head")) == Str(prevHash)
            && Field(input.body.members, Ascii("seq")) == Number(Finite(seqNo))
  {
    AnchorName();
    ShortNames();
    var members := AnchorInput(ts, seqNo, prevHash).body.members;
    assert Field(members, SEQ) == Field(members[1..], SEQ);
  }
}
