/**
 * The model transcript: what the agent loop appends, compaction in place, and the repair of a stored
 * transcript on resume. The concern is that no tool result stands without the call it answers.
 */
module Transcript {
  import opened Seqs

  /** A message with its role; `calls` are the ids of the tool calls of an assistant turn. */
  datatype Message =
    | User(text: string)
    | Assistant(text: string, calls: seq<string>)
    | Tool(callId: string, text: string)

  const KEEP_TOOL_OBS := 3

  /** The note that stands for removed messages; its wording is not modelled. */
  const NOTE := Assistant("[compacted]", [])

  const NOT_RUN := "not run: the task paused before this action"

  // ---------- compaction ----------

  /** Positions of the tool results before `end`. */
  function ToolsAt(ms: seq<Message>, end: nat): (at: seq<nat>)
    requires end <= |ms|
    ensures forall i | 0 <= i < |at| :: at[i] < end && ms[at[i]].Tool?
  {
    if end == 0 then []
    else ToolsAt(ms, end - 1) + if ms[end - 1].Tool? then [end - 1] else []
  }

  /** The nearest assistant turn before `end` that made the call, or -1. */
  function Issuer(ms: seq<Message>, end: nat, id: string): (i: int)
    requires end <= |ms|
    ensures -1 <= i < end
    ensures i >= 0 ==> ms[i].Assistant? && id in ms[i].calls
  {
    if end == 0 then -1
    else if ms[end - 1].Assistant? && id in ms[end - 1].calls then end - 1
    else Issuer(ms, end - 1, id)
  }

  function KeepCount(keepToolObs: int): nat {
    if keepToolObs < 1 then 1 else keepToolObs
  }

  /** The first tool result that must stay. */
  function FirstKept(ms: seq<Message>, keep: nat): (i: nat)
    requires keep > 0 && ToolsAt(ms, |ms|) != []
    ensures i < |ms| && ms[i].Tool?
  {
    var at := ToolsAt(ms, |ms|);
    at[if |at| < keep then 0 else |at| - keep]
  }

  /** Where the kept suffix starts; 0 when nothing is removed. */
  function KeepFrom(ms: seq<Message>, keep: nat): (i: nat)
    requires keep > 0
    ensures i <= |ms|
  {
    if ToolsAt(ms, |ms|) != [] then
      var first := FirstKept(ms, keep);
      var issuer := Issuer(ms, first, ms[first].callId);
      if issuer >= 0 then issuer else first
    else if |ms| > keep then |ms| - keep
    else 0
  }

  function Compacted(ms: seq<Message>, keepToolObs: int): seq<Message> {
    var from := KeepFrom(ms, KeepCount(keepToolObs));
    if from == 0 then ms else [NOTE] + ms[from..]
  }

  class Conversation {
    var messages: seq<Message>

    constructor (initial: seq<Message>)
      ensures messages == initial
    {
      messages := initial;
    }

    /** `compactTranscript`: the array is spliced in place. */
    method Compact(keepToolObs: int) returns (compacted: bool, removed: nat)
      modifies this
      ensures messages == Compacted(old(messages), keepToolObs)
      ensures removed == KeepFrom(old(messages), KeepCount(keepToolObs)) && compacted == (removed > 0)
    {
      removed := CutPoint(messages, KeepCount(keepToolObs));
      if removed == 0 {
        return false, 0;
      }
      messages := messages[removed..];
      messages := [NOTE] + messages;
      return true, removed;
    }

    /** `storedTranscript`, on the messages read from the store. */
    method AnswerOpenCalls()
      modifies this
      ensures messages == Resumed(old(messages))
    {
      var open := OpenCalls(messages);
      ghost var stored := messages;
      for i := 0 to |open|
        invariant messages == stored + Answers(open[..i])
      {
        messages := messages + [Tool(open[i], NOT_RUN)];
        assert open[..i + 1][..i] == open[..i];
        Assoc(stored, Answers(open[..i]), [Tool(open[i], NOT_RUN)]);
      }
      assert open[..|open|] == open;
    }
  }

  method FindTools(ms: seq<Message>) returns (toolAt: seq<nat>)
    ensures toolAt == ToolsAt(ms, |ms|)
  {
    toolAt := [];
    for i := 0 to |ms|
      invariant toolAt == ToolsAt(ms, i)
    {
      if ms[i].Tool? {
        toolAt := toolAt + [i];
      }
    }
  }

  method FindIssuer(ms: seq<Message>, first: nat, id: string) returns (keepFrom: nat)
    requires first <= |ms|
    ensures keepFrom == if Issuer(ms, first, id) >= 0 then Issuer(ms, first, id) else first
  {
    keepFrom := first;
    var i := first;
    while i > 0
      invariant 0 <= i <= first && keepFrom == first
      invariant Issuer(ms, i, id) == Issuer(ms, first, id)
    {
      i := i - 1;
      if ms[i].Assistant? && id in ms[i].calls {
        keepFrom := i;
        break;
      }
    }
  }

  method CutPoint(ms: seq<Message>, keep: nat) returns (keepFrom: nat)
    requires keep > 0
    ensures keepFrom == KeepFrom(ms, keep)
  {
    var toolAt := FindTools(ms);
    if |toolAt| > 0 {
      var first := toolAt[if |toolAt| < keep then 0 else |toolAt| - keep];
      keepFrom := FindIssuer(ms, first, ms[first].callId);
    } else if |ms| > keep {
      keepFrom := |ms| - keep;
    } else {
      keepFrom := 0;
    }
  }

  // ---------- no orphans ----------

  /** Every tool result has an issuing turn before it. */
  ghost predicate Answered(ms: seq<Message>) {
    forall j: nat | j < |ms| && ms[j].Tool? :: Issuer(ms, j, ms[j].callId) >= 0
  }

  lemma {:induction false} IssuerShifts(ms: seq<Message>, from: nat, end: nat, id: string)
    requires from <= end <= |ms|
    ensures var kept := [NOTE] + ms[from..]; var i := Issuer(ms, end, id);
            Issuer(kept, end - from + 1, id) == if i >= from then i - from + 1 else -1
    decreases end - from
  {
    var kept := [NOTE] + ms[from..];
    if end == from {
      assert kept[0] == NOTE;
      assert Issuer(kept, 1, id) == Issuer(kept, 0, id);
    } else {
      assert kept[end - from] == ms[end - 1];
      IssuerShifts(ms, from, end - 1, id);
    }
  }

  /** Result j, when everything before `from` is replaced by the note. */
  predicate IssuedFrom(ms: seq<Message>, from: nat, j: nat) {
    from <= j < |ms| && ms[j].Tool? && Issuer(ms, j, ms[j].callId) >= from
  }

  predicate Orphan(ms: seq<Message>, j: nat) {
    j < |ms| && ms[j].Tool? && Issuer(ms, j, ms[j].callId) < 0
  }

  lemma ResultAfterCut(ms: seq<Message>, from: nat, j: nat)
    requires from <= j < |ms| && ms[j].Tool?
    ensures Orphan([NOTE] + ms[from..], j - from + 1) <==> !IssuedFrom(ms, from, j)
  {
    var kept := [NOTE] + ms[from..];
    assert kept[j - from + 1] == ms[j];
    IssuerShifts(ms, from, j, ms[j].callId);
  }

  /** Seen from the cut: no orphan exactly when every result from the cut on was issued at it or after it. */
  lemma CutOrphansIff(ms: seq<Message>, keepToolObs: int)
    requires Answered(ms)
    ensures var from := KeepFrom(ms, KeepCount(keepToolObs));
            Answered(Compacted(ms, keepToolObs)) <==>
            from == 0 || forall j: nat | from <= j < |ms| && ms[j].Tool? :: IssuedFrom(ms, from, j)
  {
    var from, kept := KeepFrom(ms, KeepCount(keepToolObs)), Compacted(ms, keepToolObs);
    if from > 0 {
      forall j: nat | from <= j < |ms| && ms[j].Tool?
        ensures Orphan(kept, j - from + 1) <==> !IssuedFrom(ms, from, j)
      {
        ResultAfterCut(ms, from, j);
      }
      AnsweredIffNoOrphan(kept);
      forall k: nat | Orphan(kept, k)
        ensures from <= k - 1 + from < |ms| && ms[k - 1 + from].Tool? && !IssuedFrom(ms, from, k - 1 + from)
      {
        OrphanAfterCut(ms, from, k);
      }
    }
  }

  lemma OrphanAfterCut(ms: seq<Message>, from: nat, k: nat)
    requires from <= |ms| && Orphan([NOTE] + ms[from..], k)
    ensures 1 <= k < |ms| - from + 1 && ms[k - 1 + from].Tool? && !IssuedFrom(ms, from, k - 1 + from)
  {
    assert ([NOTE] + ms[from..])[0] == NOTE;
    assert ([NOTE] + ms[from..])[k] == ms[k - 1 + from];
    ResultAfterCut(ms, from, k - 1 + from);
  }

  lemma AnsweredIffNoOrphan(ms: seq<Message>)
    ensures Answered(ms) <==> forall k: nat :: !Orphan(ms, k)
  {
    if forall k: nat :: !Orphan(ms, k) {
      forall j: nat | j < |ms| && ms[j].Tool?
        ensures Issuer(ms, j, ms[j].callId) >= 0
      {
        assert !Orphan(ms, j);
      }
    }
  }

  function IssuerOf(ms: seq<Message>, j: nat): int
    requires j < |ms| && ms[j].Tool?
  {
    Issuer(ms, j, ms[j].callId)
  }

  /** A result of an earlier turn stands after the turn that issued result k. */
  predicate Crosses(ms: seq<Message>, j: nat, k: nat) {
    j < |ms| && k < |ms| && ms[j].Tool? && ms[k].Tool? && IssuerOf(ms, j) < IssuerOf(ms, k) < j
  }

  /** A result is cut off from its call exactly when it crosses the first that is kept. */
  lemma CutCrosses(ms: seq<Message>, first: nat, from: nat, j: nat)
    requires j < |ms| && ms[j].Tool? && first < |ms| && ms[first].Tool? && IssuerOf(ms, first) == from
    ensures Crosses(ms, j, first) <==> from <= j && !IssuedFrom(ms, from, j)
  {
  }

  lemma CutIsIssuer(ms: seq<Message>, keep: nat)
    requires Answered(ms) && keep > 0 && ToolsAt(ms, |ms|) != []
    ensures IssuerOf(ms, FirstKept(ms, keep)) == KeepFrom(ms, keep)
  {
    var first := FirstKept(ms, keep);
    assert Issuer(ms, first, ms[first].callId) >= 0;
  }

  /**
   * For one number of results to keep: compaction leaves no orphan exactly when no result crosses the first
   * that is kept, which is that many from the end.
   */
  lemma KeepOrphansIff(ms: seq<Message>, keepToolObs: int)
    requires Answered(ms)
    ensures Answered(Compacted(ms, keepToolObs)) <==>
            ToolsAt(ms, |ms|) == [] || forall j: nat :: !Crosses(ms, j, FirstKept(ms, KeepCount(keepToolObs)))
  {
    var keep := KeepCount(keepToolObs);
    var from := KeepFrom(ms, keep);
    CutOrphansIff(ms, keepToolObs);
    if ToolsAt(ms, |ms|) == [] {
      forall j: nat | j < |ms|
        ensures !ms[j].Tool?
      {
        NoTools(ms, |ms|, j);
      }
    } else {
      CutIsIssuer(ms, keep);
      forall j: nat | j < |ms| && ms[j].Tool?
        ensures Crosses(ms, j, FirstKept(ms, keep)) <==> from <= j && !IssuedFrom(ms, from, j)
      {
        CutCrosses(ms, FirstKept(ms, keep), from, j);
      }
    }
  }

  lemma {:induction false} ToolsAtResult(ms: seq<Message>, k: nat, end: nat)
    requires k < end <= |ms| && ms[k].Tool?
    ensures |ToolsAt(ms, k)| < |ToolsAt(ms, end)| && ToolsAt(ms, end)[|ToolsAt(ms, k)|] == k
    decreases end
  {
    if k < end - 1 {
      ToolsAtResult(ms, k, end - 1);
    }
  }

  /** Any result can be the first that is kept. */
  lemma ResultCanBeFirst(ms: seq<Message>, k: nat)
    requires k < |ms| && ms[k].Tool?
    ensures var keep := |ToolsAt(ms, |ms|)| - |ToolsAt(ms, k)|;
            keep > 0 && ToolsAt(ms, |ms|) != [] && FirstKept(ms, keep) == k
  {
    ToolsAtResult(ms, k, |ms|);
  }

  /** The number of results to keep for which a crossing orphans one. */
  lemma CrossingOrphans(ms: seq<Message>, j: nat, k: nat)
    requires Answered(ms) && Crosses(ms, j, k)
    ensures !Answered(Compacted(ms, |ToolsAt(ms, |ms|)| - |ToolsAt(ms, k)|))
  {
    ResultCanBeFirst(ms, k);
    KeepOrphansIff(ms, |ToolsAt(ms, |ms|)| - |ToolsAt(ms, k)|);
  }

  /**
   * Main result: no compaction, however many results it keeps, orphans one, exactly when no result of an
   * earlier turn stands after a turn that issued another result.
   */
  lemma NoOrphanIff(ms: seq<Message>)
    requires Answered(ms)
    ensures (forall keep: int :: Answered(Compacted(ms, keep))) <==> forall j: nat, k: nat :: !Crosses(ms, j, k)
  {
    if forall keep: int :: Answered(Compacted(ms, keep)) {
      forall j: nat, k: nat
        ensures !Crosses(ms, j, k)
      {
        if Crosses(ms, j, k) {
          CrossingOrphans(ms, j, k);
        }
      }
    }
    if forall j: nat, k: nat :: !Crosses(ms, j, k) {
      forall keep: int
        ensures Answered(Compacted(ms, keep))
      {
        KeepOrphansIff(ms, keep);
      }
    }
  }

  lemma {:induction false} IssuerAt(ms: seq<Message>, i: nat, end: nat, id: string)
    requires i < end <= |ms| && ms[i].Assistant? && id in ms[i].calls
    requires forall k | i < k < end :: !(ms[k].Assistant? && id in ms[k].calls)
    ensures Issuer(ms, end, id) == i
    decreases end
  {
    if i < end - 1 {
      IssuerAt(ms, i, end - 1, id);
    }
  }

  const TWO_TURNS := [Assistant("", ["x"]), Assistant("", ["y"]), Tool("x", ""), Tool("y", "")]

  lemma TwoTurnsIssued()
    ensures Issuer(TWO_TURNS, 2, "x") == 0 && Issuer(TWO_TURNS, 3, "y") == 1
  {
    IssuerAt(TWO_TURNS, 0, 2, "x");
    IssuerAt(TWO_TURNS, 1, 3, "y");
  }

  lemma TwoTurnsTools()
    ensures ToolsAt(TWO_TURNS, 4) == [2, 3]
  {
    assert ToolsAt(TWO_TURNS, 2) == [] && ToolsAt(TWO_TURNS, 3) == [2];
  }

  /** Results that follow the order of their turns are not safe: here the cut separates x from its call. */
  lemma OrderOfTurnsIsNotEnough() returns (ms: seq<Message>)
    ensures |ms| == 4 && ms[2].Tool? && ms[3].Tool?
    ensures Answered(ms) && Issuer(ms, 2, ms[2].callId) < Issuer(ms, 3, ms[3].callId)
    ensures !Answered(Compacted(ms, 1))
  {
    ms := TWO_TURNS;
    TwoTurnsIssued();
    TwoTurnsTools();
    assert KeepFrom(ms, 1) == 1;
    CutOrphansIff(ms, 1);
    assert !IssuedFrom(ms, 1, 2);
  }

  // ---------- what the loop keeps ----------

  /** The nearest turn before `end` that made any calls, or -1. */
  function Caller(ms: seq<Message>, end: nat): (i: int)
    requires end <= |ms|
    ensures -1 <= i < end
    ensures i >= 0 ==> ms[i].Assistant? && ms[i].calls != []
    ensures forall k | i < k < end :: !(ms[k].Assistant? && ms[k].calls != [])
  {
    if end == 0 then -1
    else if ms[end - 1].Assistant? && ms[end - 1].calls != [] then end - 1
    else Caller(ms, end - 1)
  }

  /** A call the latest calling turn before `end` made. */
  predicate Current(ms: seq<Message>, end: nat, id: string)
    requires end <= |ms|
  {
    Caller(ms, end) >= 0 && id in ms[Caller(ms, end)].calls
  }

  /** Every tool result answers the latest turn that made calls. */
  ghost predicate Immediate(ms: seq<Message>) {
    forall j: nat | j < |ms| && ms[j].Tool? :: Current(ms, j, ms[j].callId)
  }

  lemma {:induction false} CurrentIssuer(ms: seq<Message>, end: nat, id: string)
    requires end <= |ms| && Current(ms, end, id)
    ensures Issuer(ms, end, id) == Caller(ms, end)
  {
    if Caller(ms, end) != end - 1 {
      CurrentIssuer(ms, end - 1, id);
    }
  }

  lemma {:induction false} CallerPrefix(ms: seq<Message>, more: seq<Message>, end: nat)
    requires end <= |ms|
    ensures Caller(ms + more, end) == Caller(ms, end)
  {
    if end > 0 {
      CallerPrefix(ms, more, end - 1);
    }
  }

  lemma ImmediateMore(ms: seq<Message>, m: Message)
    requires Immediate(ms) && (m.Tool? ==> Current(ms, |ms|, m.callId))
    ensures Immediate(ms + [m])
  {
    var all := ms + [m];
    forall j: nat | j < |all| && all[j].Tool?
      ensures Current(all, j, all[j].callId)
    {
      CallerPrefix(ms, [m], j);
      assert j < |ms| ==> Current(ms, j, ms[j].callId);
    }
  }

  lemma {:induction false} CallerShifts(ms: seq<Message>, from: nat, end: nat)
    requires from <= end <= |ms| && Caller(ms, end) >= from
    ensures Caller([NOTE] + ms[from..], end - from + 1) == Caller(ms, end) - from + 1
    decreases end
  {
    var kept := [NOTE] + ms[from..];
    assert kept[end - from] == ms[end - 1];
    if Caller(ms, end) != end - 1 {
      CallerShifts(ms, from, end - 1);
    }
  }

  /** Without tool results in the list there is none in a part of it. */
  lemma {:induction false} NoTools(ms: seq<Message>, end: nat, j: nat)
    requires j < end <= |ms| && ToolsAt(ms, end) == []
    ensures !ms[j].Tool?
    decreases end
  {
    if j < end - 1 {
      NoTools(ms, end - 1, j);
    }
  }

  /** The cut of a loop-made transcript that has results is at a calling turn. */
  lemma CutIsCaller(ms: seq<Message>, keep: nat)
    requires keep > 0 && Immediate(ms) && ToolsAt(ms, |ms|) != []
    ensures var from := KeepFrom(ms, keep); from < |ms| && ms[from].Assistant? && ms[from].calls != []
  {
    var first := FirstKept(ms, keep);
    assert Current(ms, first, ms[first].callId);
    CurrentIssuer(ms, first, ms[first].callId);
  }

  lemma CurrentAfterCut(ms: seq<Message>, from: nat, j: nat)
    requires from < j < |ms| && ms[j].Tool? && Current(ms, j, ms[j].callId)
    requires ms[from].Assistant? && ms[from].calls != []
    ensures Current([NOTE] + ms[from..], j - from + 1, ms[j].callId)
  {
    CallerShifts(ms, from, j);
  }

  /** Compaction keeps the property, so it never orphans a result of a loop-made transcript. */
  lemma CompactKeepsImmediate(ms: seq<Message>, keepToolObs: int)
    requires Immediate(ms)
    ensures Immediate(Compacted(ms, keepToolObs))
  {
    var keep := KeepCount(keepToolObs);
    var from, kept := KeepFrom(ms, keep), Compacted(ms, keepToolObs);
    if from > 0 && ToolsAt(ms, |ms|) != [] {
      CutIsCaller(ms, keep);
    }
    if from > 0 {
      forall k: nat | k < |kept| && kept[k].Tool?
        ensures Current(kept, k, kept[k].callId)
      {
        var j := k - 1 + from;
        assert kept[k] == ms[j];
        if ToolsAt(ms, |ms|) == [] {
          NoTools(ms, |ms|, j);
        } else {
          assert Current(ms, j, ms[j].callId);
          CurrentAfterCut(ms, from, j);
        }
      }
    }
  }

  lemma {:induction false} ToolsInSuffix(ms: seq<Message>, from: nat, end: nat)
    requires from <= end <= |ms|
    ensures var kept := [NOTE] + ms[from..];
            |ToolsAt(kept, end - from + 1)| == |ToolsAt(ms, end)| - |ToolsAt(ms, from)|
    decreases end - from
  {
    var kept := [NOTE] + ms[from..];
    if end == from {
      assert ToolsAt(kept, 1) == ToolsAt(kept, 0);
    } else {
      assert kept[end - from] == ms[end - 1];
      ToolsInSuffix(ms, from, end - 1);
    }
  }

  lemma {:induction false} ToolsBefore(ms: seq<Message>, end: nat, i: nat)
    requires end <= |ms| && i < |ToolsAt(ms, end)|
    ensures |ToolsAt(ms, ToolsAt(ms, end)[i])| == i
    decreases end
  {
    var front := ToolsAt(ms, end - 1);
    if i < |front| {
      ToolsBefore(ms, end - 1, i);
    }
  }

  lemma {:induction false} ToolsMonotone(ms: seq<Message>, i: nat, j: nat)
    requires i <= j <= |ms|
    ensures |ToolsAt(ms, i)| <= |ToolsAt(ms, j)|
    decreases j
  {
    if i < j {
      ToolsMonotone(ms, i, j - 1);
    }
  }

  /** A kept suffix under one note, in which the last `keep` tool results survive. */
  lemma CompactKeepsResults(ms: seq<Message>, keepToolObs: int)
    ensures var kept := Compacted(ms, keepToolObs); var from := KeepFrom(ms, KeepCount(keepToolObs));
            var total := |ToolsAt(ms, |ms|)|; var left := |ToolsAt(kept, |kept|)|;
            && (kept == ms || kept == [NOTE] + ms[from..])
            && left >= (if total < KeepCount(keepToolObs) then total else KeepCount(keepToolObs))
  {
    var keep := KeepCount(keepToolObs);
    var from, at := KeepFrom(ms, keep), ToolsAt(ms, |ms|);
    if from > 0 {
      ToolsInSuffix(ms, from, |ms|);
      ToolsMonotone(ms, from, |ms|);
      if at != [] {
        var i := if |at| < keep then 0 else |at| - keep;
        ToolsBefore(ms, |ms|, i);
        ToolsMonotone(ms, from, at[i]);
      }
    }
  }

  // ---------- runs of the loop ----------

  /** One append of the loop, or a compaction at the end of a step. */
  datatype Step =
    | Observe(text: string)
    | Turn(text: string, calls: seq<string>)
    | Result(callId: string, text: string)
    | CompactNow(keepToolObs: int)

  /** The loop appends results only for calls of the turn it is working on. */
  predicate Enabled(ms: seq<Message>, step: Step) {
    step.Result? ==> Current(ms, |ms|, step.callId)
  }

  function Next(ms: seq<Message>, step: Step): seq<Message> {
    match step
    case Observe(text) => ms + [User(text)]
    case Turn(text, calls) => ms + [Assistant(text, calls)]
    case Result(callId, text) => ms + [Tool(callId, text)]
    case CompactNow(keepToolObs) => Compacted(ms, keepToolObs)
  }

  ghost predicate Run(states: seq<seq<Message>>, steps: seq<Step>) {
    && |states| == |steps| + 1
    && forall k: nat | k < |steps| :: Enabled(states[k], steps[k]) && states[k + 1] == Next(states[k], steps[k])
  }

  /**
   * Main result: after any mix of loop appends and compactions, from a transcript in which results follow
   * their turn directly, every tool result still has its issuing call before it.
   */
  lemma {:induction false} RunNeverOrphans(states: seq<seq<Message>>, steps: seq<Step>, k: nat)
    requires Run(states, steps) && k <= |steps| && Immediate(states[0])
    ensures Immediate(states[k]) && Answered(states[k])
  {
    if k > 0 {
      var ms, step := states[k - 1], steps[k - 1];
      RunNeverOrphans(states, steps, k - 1);
      match step {
        case Observe(text) =>
          ImmediateMore(ms, User(text));
        case Turn(text, calls) =>
          ImmediateMore(ms, Assistant(text, calls));
        case Result(callId, text) =>
          ImmediateMore(ms, Tool(callId, text));
        case CompactNow(keepToolObs) =>
          CompactKeepsImmediate(ms, keepToolObs);
      }
    }
    ImmediateIsAnswered(states[k]);
  }

  lemma ImmediateIsAnswered(ms: seq<Message>)
    requires Immediate(ms)
    ensures Answered(ms)
  {
    forall j: nat | j < |ms| && ms[j].Tool?
      ensures Issuer(ms, j, ms[j].callId) >= 0
    {
      assert Current(ms, j, ms[j].callId);
      CurrentIssuer(ms, j, ms[j].callId);
    }
  }

  // ---------- resume ----------

  /** How many results a call has. */
  function Results(ms: seq<Message>, id: string): nat {
    if ms == [] then 0
    else
      var last := ms[|ms| - 1];
      Results(ms[..|ms| - 1], id) + if last.Tool? && last.callId == id then 1 else 0
  }

  function Calls(ms: seq<Message>): seq<string> {
    if ms == [] then []
    else
      var last := ms[|ms| - 1];
      Calls(ms[..|ms| - 1]) + if last.Assistant? then last.calls else []
  }

  /** The empty id never counts as answered. */
  predicate IsOpen(ms: seq<Message>, id: string) {
    id == "" || Results(ms, id) == 0
  }

  function Filtered(ms: seq<Message>, ids: seq<string>): seq<string> {
    if ids == [] then []
    else
      var last := ids[|ids| - 1];
      Filtered(ms, ids[..|ids| - 1]) + if IsOpen(ms, last) then [last] else []
  }

  function OpenCalls(ms: seq<Message>): seq<string> {
    Filtered(ms, Calls(ms))
  }

  function Answers(ids: seq<string>): seq<Message> {
    if ids == [] then []
    else Answers(ids[..|ids| - 1]) + [Tool(ids[|ids| - 1], NOT_RUN)]
  }

  function Resumed(ms: seq<Message>): seq<Message> {
    ms + Answers(OpenCalls(ms))
  }

  predicate Distinct(ids: seq<string>) {
    forall i, j | 0 <= i < j < |ids| :: ids[i] != ids[j]
  }

  function Times(ids: seq<string>, id: string): nat {
    if ids == [] then 0
    else Times(ids[..|ids| - 1], id) + if ids[|ids| - 1] == id then 1 else 0
  }

  lemma {:induction false} TimesOfDistinct(ids: seq<string>, id: string)
    requires Distinct(ids)
    ensures Times(ids, id) == if id in ids then 1 else 0
  {
    if ids != [] {
      var front := ids[..|ids| - 1];
      TimesOfDistinct(front, id);
      assert ids == front + [ids[|ids| - 1]];
    }
  }

  lemma {:induction false} FilteredTimes(ms: seq<Message>, ids: seq<string>, id: string)
    ensures Times(Filtered(ms, ids), id) == if IsOpen(ms, id) then Times(ids, id) else 0
  {
    if ids != [] {
      var front, last := ids[..|ids| - 1], ids[|ids| - 1];
      FilteredTimes(ms, front, id);
      if IsOpen(ms, last) {
        assert (Filtered(ms, front) + [last])[..|Filtered(ms, front)|] == Filtered(ms, front);
      } else {
        Empty(Filtered(ms, front));
      }
    }
  }

  lemma {:induction false} AnswersCount(ms: seq<Message>, ids: seq<string>, id: string)
    ensures Results(ms + Answers(ids), id) == Results(ms, id) + Times(ids, id)
  {
    if ids == [] {
      Empty(ms);
    } else {
      var front := ids[..|ids| - 1];
      AnswersCount(ms, front, id);
      var all := ms + Answers(ids);
      assert all[..|all| - 1] == ms + Answers(front);
    }
  }

  /**
   * Main result: with distinct call ids, resume keeps the stored transcript as a prefix and answers every
   * open call exactly once, and no other.
   */
  lemma ResumeAnswersOnce(ms: seq<Message>, id: string)
    requires Distinct(Calls(ms))
    ensures ms <= Resumed(ms)
    ensures Results(Resumed(ms), id) ==
            Results(ms, id) + if id in Calls(ms) && IsOpen(ms, id) then 1 else 0
    ensures id != "" && id in Calls(ms) ==> Results(Resumed(ms), id) >= 1
  {
    AnswersCount(ms, OpenCalls(ms), id);
    FilteredTimes(ms, Calls(ms), id);
    TimesOfDistinct(Calls(ms), id);
  }

  lemma {:induction false} AnswersImmediate(ms: seq<Message>, ids: seq<string>)
    requires Immediate(ms)
    ensures Immediate(ms + Answers(ids)) <==> forall id | id in ids :: Current(ms, |ms|, id)
    ensures Caller(ms + Answers(ids), |ms + Answers(ids)|) == Caller(ms, |ms|)
  {
    if ids == [] {
      Empty(ms);
    } else {
      var front, last := ids[..|ids| - 1], ids[|ids| - 1];
      var before, answer := ms + Answers(front), Tool(last, NOT_RUN);
      AnswersImmediate(ms, front);
      Assoc(ms, Answers(front), [answer]);
      var all := before + [answer];
      assert ids == front + [last];
      CallerPrefix(before, [answer], |before|);
      CallerPrefix(ms, Answers(front), |ms|);
      assert Current(before, |before|, last) <==> Current(ms, |ms|, last);
      if Immediate(before) && Current(ms, |ms|, last) {
        ImmediateMore(before, answer);
      }
      if Immediate(all) {
        assert all[|before|] == answer && Current(all, |before|, last);
        PrefixImmediate(before, [answer]);
      }
    }
  }

  lemma PrefixImmediate(ms: seq<Message>, more: seq<Message>)
    requires Immediate(ms + more)
    ensures Immediate(ms)
  {
    forall j: nat | j < |ms| && ms[j].Tool?
      ensures Current(ms, j, ms[j].callId)
    {
      assert (ms + more)[j] == ms[j] && Current(ms + more, j, ms[j].callId);
      CallerPrefix(ms, more, j);
    }
  }

  /** A resumed transcript is as the loop makes them exactly when every open call is of the latest calling turn. */
  lemma ResumeIsImmediateIff(ms: seq<Message>)
    requires Immediate(ms)
    ensures Immediate(Resumed(ms)) <==> forall id | id in OpenCalls(ms) :: Current(ms, |ms|, id)
  {
    AnswersImmediate(ms, OpenCalls(ms));
  }

  lemma {:induction false} CallIsMade(ms: seq<Message>, i: nat, id: string)
    requires i < |ms| && ms[i].Assistant? && id in ms[i].calls
    ensures id in Calls(ms)
  {
    if i < |ms| - 1 {
      CallIsMade(ms[..|ms| - 1], i, id);
    }
  }

  lemma {:induction false} CallHasIssuer(ms: seq<Message>, id: string)
    ensures id in Calls(ms) ==> Issuer(ms, |ms|, id) >= 0
  {
    if ms != [] {
      CallHasIssuer(ms[..|ms| - 1], id);
      IssuerPrefix(ms[..|ms| - 1], ms[|ms| - 1..], |ms| - 1, id);
      assert ms[..|ms| - 1] + ms[|ms| - 1..] == ms;
    }
  }

  lemma {:induction false} IssuerPrefix(ms: seq<Message>, more: seq<Message>, end: nat, id: string)
    requires end <= |ms|
    ensures Issuer(ms + more, end, id) == Issuer(ms, end, id)
  {
    if end > 0 {
      IssuerPrefix(ms, more, end - 1, id);
    }
  }

  lemma DistinctParts(a: seq<string>, b: seq<string>, id: string)
    requires Distinct(a + b)
    ensures !(id in a && id in b)
  {
    forall i, j | 0 <= i < |a| && 0 <= j < |b|
      ensures a[i] != b[j]
    {
      assert (a + b)[i] == a[i] && (a + b)[|a| + j] == b[j];
    }
  }

  /** With distinct ids, one turn makes a call. */
  lemma {:induction false} OneTurn(ms: seq<Message>, i: nat, j: nat, id: string)
    requires Distinct(Calls(ms)) && i <= j < |ms| && ms[i].Assistant? && ms[j].Assistant?
    requires id in ms[i].calls && id in ms[j].calls
    ensures i == j
  {
    var front := ms[..|ms| - 1];
    if j < |front| {
      assert Calls(front) == Calls(ms)[..|Calls(front)|];
      OneTurn(front, i, j, id);
    } else {
      DistinctParts(Calls(front), ms[j].calls, id);
      if i < j {
        CallIsMade(front, i, id);
      }
    }
  }

  lemma {:induction false} AnswerAt(ids: seq<string>, i: nat)
    requires i < |ids|
    ensures |Answers(ids)| == |ids| && Answers(ids)[i] == Tool(ids[i], NOT_RUN)
  {
    if |ids| > 1 {
      AnswerAt(ids[..|ids| - 1], if i < |ids| - 1 then i else 0);
    }
  }

  /** The answers issue nothing, so each is issued where its call was. */
  lemma {:induction false} IssuerAmongAnswers(ms: seq<Message>, ids: seq<string>, end: nat, id: string)
    requires |ms| <= end <= |ms + Answers(ids)|
    ensures Issuer(ms + Answers(ids), end, id) == Issuer(ms, |ms|, id)
  {
    if end == |ms| {
      IssuerPrefix(ms, Answers(ids), |ms|, id);
    } else {
      AnswersAreResults(ids, end - 1 - |ms|);
      IssuerAmongAnswers(ms, ids, end - 1, id);
    }
  }

  lemma {:induction false} AnswersAreResults(ids: seq<string>, i: nat)
    requires i < |Answers(ids)|
    ensures |Answers(ids)| == |ids| && Answers(ids)[i] == Tool(ids[i], NOT_RUN)
  {
    if ids != [] {
      AnswerAt(ids, 0);
      AnswerAt(ids, i);
    }
  }

  lemma {:induction false} OpenIsCalled(ms: seq<Message>, ids: seq<string>, id: string)
    ensures id in Filtered(ms, ids) <==> id in ids && IsOpen(ms, id)
  {
    if ids != [] {
      OpenIsCalled(ms, ids[..|ids| - 1], id);
      assert ids == ids[..|ids| - 1] + [ids[|ids| - 1]];
    }
  }

  lemma {:induction false} ResultStands(ms: seq<Message>, id: string) returns (k: nat)
    requires Results(ms, id) > 0
    ensures k < |ms| && ms[k].Tool? && ms[k].callId == id
  {
    var last := ms[|ms| - 1];
    if last.Tool? && last.callId == id {
      k := |ms| - 1;
    } else {
      k := ResultStands(ms[..|ms| - 1], id);
    }
  }

  /** The answer of an open call stands at the end, issued where the call was made. */
  lemma AnswerStands(ms: seq<Message>, id: string) returns (j: nat)
    requires id in OpenCalls(ms)
    ensures var all := Resumed(ms);
            |ms| <= j < |all| && all[j] == Tool(id, NOT_RUN) && IssuerOf(all, j) == Issuer(ms, |ms|, id)
    ensures Issuer(ms, |ms|, id) >= 0
  {
    var ids := OpenCalls(ms);
    var i :| 0 <= i < |ids| && ids[i] == id;
    AnswerAt(ids, i);
    j := |ms| + i;
    IssuerAmongAnswers(ms, ids, j, id);
    OpenIsCalled(ms, Calls(ms), id);
    CallHasIssuer(ms, id);
  }

  /** Every call of the latest calling turn has a result after a resume, issued by that turn. */
  lemma LatestHasResult(ms: seq<Message>, id: string) returns (k: nat)
    requires Immediate(ms) && Distinct(Calls(ms)) && Current(ms, |ms|, id)
    ensures var all := Resumed(ms); k < |all| && all[k].Tool? && IssuerOf(all, k) == Caller(ms, |ms|)
  {
    var turn, all := Caller(ms, |ms|), Resumed(ms);
    CurrentIssuer(ms, |ms|, id);
    CallIsMade(ms, turn, id);
    OpenIsCalled(ms, Calls(ms), id);
    if IsOpen(ms, id) {
      k := AnswerStands(ms, id);
    } else {
      k := ResultStands(ms, id);
      assert Current(ms, k, id);
      CurrentIssuer(ms, k, id);
      var issuer := Caller(ms, k);
      OneTurn(ms, if issuer <= turn then issuer else turn, if issuer <= turn then turn else issuer, id);
      IssuerPrefix(ms, Answers(OpenCalls(ms)), k, id);
    }
  }

  lemma ResumedIsAnswered(ms: seq<Message>)
    requires Answered(ms)
    ensures Answered(Resumed(ms))
  {
    var all, ids := Resumed(ms), OpenCalls(ms);
    forall j: nat | j < |all| && all[j].Tool?
      ensures Issuer(all, j, all[j].callId) >= 0
    {
      if j < |ms| {
        assert all[j] == ms[j];
        IssuerPrefix(ms, Answers(ids), j, ms[j].callId);
      } else {
        AnswersAreResults(ids, j - |ms|);
        var id := ids[j - |ms|];
        OpenIsCalled(ms, Calls(ms), id);
        CallHasIssuer(ms, id);
        IssuerAmongAnswers(ms, ids, j, id);
      }
    }
  }

  /** An open call of an older turn is answered across the latest one. */
  lemma OldAnswerCrosses(ms: seq<Message>, id: string) returns (j: nat, k: nat)
    requires Immediate(ms) && Distinct(Calls(ms)) && id in OpenCalls(ms) && !Current(ms, |ms|, id)
    ensures Crosses(Resumed(ms), j, k)
  {
    j := AnswerStands(ms, id);
    IssuerIsNoLater(ms, |ms|, id);
    k := LatestHasResult(ms, ms[Caller(ms, |ms|)].calls[0]);
  }

  lemma {:induction false} IssuerIsNoLater(ms: seq<Message>, end: nat, id: string)
    requires end <= |ms|
    ensures Issuer(ms, end, id) <= Caller(ms, end)
    ensures Issuer(ms, end, id) == Caller(ms, end) >= 0 ==> Current(ms, end, id)
  {
    if end > 0 {
      IssuerIsNoLater(ms, end - 1, id);
    }
  }

  /**
   * Main result: with distinct ids, no compaction of a resumed transcript orphans a result exactly when every
   * open call is of the latest calling turn.
   */
  lemma ResumeNeverOrphansIff(ms: seq<Message>)
    requires Immediate(ms) && Distinct(Calls(ms))
    ensures (forall keep: int :: Answered(Compacted(Resumed(ms), keep))) <==>
            forall id | id in OpenCalls(ms) :: Current(ms, |ms|, id)
  {
    var all := Resumed(ms);
    if forall id | id in OpenCalls(ms) :: Current(ms, |ms|, id) {
      ResumeIsImmediateIff(ms);
      forall keep: int
        ensures Answered(Compacted(all, keep))
      {
        CompactKeepsImmediate(all, keep);
        ImmediateIsAnswered(Compacted(all, keep));
      }
    } else {
      var id :| id in OpenCalls(ms) && !Current(ms, |ms|, id);
      var j, k := OldAnswerCrosses(ms, id);
      ImmediateIsAnswered(ms);
      ResumedIsAnswered(ms);
      NoOrphanIff(all);
    }
  }

  lemma {:induction false} NoResult(ms: seq<Message>, id: string)
    requires forall i | 0 <= i < |ms| :: !(ms[i].Tool? && ms[i].callId == id)
    ensures Results(ms, id) == 0
  {
    if ms != [] {
      NoResult(ms[..|ms| - 1], id);
    }
  }

  lemma {:induction false} SomeResult(ms: seq<Message>, i: nat)
    requires i < |ms| && ms[i].Tool?
    ensures Results(ms, ms[i].callId) >= 1
  {
    if i < |ms| - 1 {
      SomeResult(ms[..|ms| - 1], i);
    }
  }

  lemma {:induction false} OpenCallsMore(ms: seq<Message>, ids: seq<string>, id: string)
    ensures Filtered(ms, ids + [id]) == Filtered(ms, ids) + if IsOpen(ms, id) then [id] else []
  {
    assert (ids + [id])[..|ids|] == ids;
  }

  lemma CallsMore(ms: seq<Message>, m: Message)
    ensures Calls(ms + [m]) == Calls(ms) + if m.Assistant? then m.calls else []
  {
    assert (ms + [m])[..|ms|] == ms;
  }

  const FIRST := Assistant("", ["x"])
  const SECOND := Assistant("", ["a", "b"])

  /** A task paused before the result of x and then run on; x is still open in the store. */
  const TWICE_PAUSED := [FIRST, SECOND, Tool("a", ""), Tool("b", "")]

  lemma TwicePausedCalls()
    ensures Calls(TWICE_PAUSED) == ["x", "a", "b"]
  {
    var turns := [FIRST, SECOND];
    TurnsCalls();
    CallsMore(turns, Tool("a", ""));
    CallsMore(turns + [Tool("a", "")], Tool("b", ""));
    assert turns + [Tool("a", "")] + [Tool("b", "")] == TWICE_PAUSED;
  }

  lemma TurnsCalls()
    ensures Calls([FIRST, SECOND]) == ["x", "a", "b"]
  {
    CallsMore([], FIRST);
    CallsMore([FIRST], SECOND);
    assert [] + [FIRST] == [FIRST] && [FIRST] + [SECOND] == [FIRST, SECOND];
  }

  lemma TwicePausedOpen()
    ensures IsOpen(TWICE_PAUSED, "x") && !IsOpen(TWICE_PAUSED, "a") && !IsOpen(TWICE_PAUSED, "b")
  {
    NoResult(TWICE_PAUSED, "x");
    SomeResult(TWICE_PAUSED, 2);
    SomeResult(TWICE_PAUSED, 3);
  }

  lemma TwicePausedResumed()
    ensures Resumed(TWICE_PAUSED) == TWICE_PAUSED + [Tool("x", NOT_RUN)]
  {
    TwicePausedCalls();
    TwicePausedOpen();
    OpenCallsMore(TWICE_PAUSED, [], "x");
    OpenCallsMore(TWICE_PAUSED, ["x"], "a");
    OpenCallsMore(TWICE_PAUSED, ["x", "a"], "b");
    assert ["x", "a"] + ["b"] == ["x", "a", "b"];
    assert ["x"][..0] == [] && Answers(["x"]) == [Tool("x", NOT_RUN)];
  }

  lemma ToolsStep(ms: seq<Message>)
    requires ms == TWICE_PAUSED + [Tool("x", NOT_RUN)]
    ensures ToolsAt(ms, 5) == [2, 3, 4]
  {
    assert ToolsAt(ms, 1) == [];
    assert ToolsAt(ms, 2) == [];
    assert ToolsAt(ms, 3) == [2];
    assert ToolsAt(ms, 4) == [2, 3];
  }

  lemma CutBetweenTurns(ms: seq<Message>)
    requires ms == TWICE_PAUSED + [Tool("x", NOT_RUN)]
    ensures KeepFrom(ms, KEEP_TOOL_OBS) == 1
    ensures Answered(ms) && !IssuedFrom(ms, 1, 4)
  {
    IssuerAt(ms, 0, 4, "x");
    IssuerAt(ms, 1, 2, "a");
    IssuerAt(ms, 1, 3, "b");
    ToolsStep(ms);
    assert FirstKept(ms, KEEP_TOOL_OBS) == 2;
  }

  /**
   * At its second resume the open call is answered at the end, and the next compaction keeps that answer
   * without its call, though the stored transcript was well-formed.
   */
  lemma SecondResumeCanOrphan()
    ensures Immediate(TWICE_PAUSED) && Distinct(Calls(TWICE_PAUSED))
    ensures Answered(Resumed(TWICE_PAUSED)) && !Answered(Compacted(Resumed(TWICE_PAUSED), KEEP_TOOL_OBS))
  {
    assert Caller(TWICE_PAUSED, 2) == 1 && Caller(TWICE_PAUSED, 3) == 1;
    TwicePausedCalls();
    TwicePausedResumed();
    var ms := TWICE_PAUSED + [Tool("x", NOT_RUN)];
    CutBetweenTurns(ms);
    CutOrphansIff(ms, KEEP_TOOL_OBS);
  }
}
