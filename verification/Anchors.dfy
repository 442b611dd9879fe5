/**
 * How far apart the anchors of the audit log lie when appends are awaited, what a lost anchor does to that,
 * and what the counter knows of it.
 */
module Anchors {
  import opened Wrappers
  import opened CanonicalJson
  import opened AuditChain
  import opened AuditLog

  // ---------- anchor spacing when appends are awaited ----------

  /** A new append starts only when the last one is done. */
  predicate AwaitedStep(log: Log, step: Step) {
    step.Call? || step.CallAnchor? ==> log.pending == []
  }

  ghost predicate Awaited(states: seq<Log>, steps: seq<Step>)
    requires |states| == |steps| + 1
  {
    forall k: nat | k < |steps| :: AwaitedStep(states[k], steps[k])
  }

  /** The key fails for an anchor that has reset the counter already, and there are records since the last one. */
  predicate Loses(log: Log, step: Step) {
    && step.Reject? && step.i < |log.pending| && log.pending[step.i].input.kind == ANCHOR
    && log.sinceAnchor == 0 && Trailing(log.file) > 0
  }

  function Losses(states: seq<Log>, steps: seq<Step>, k: nat): nat
    requires |states| == |steps| + 1 && k <= |steps|
  {
    if k == 0 then 0 else Losses(states, steps, k - 1) + if Loses(states[k - 1], steps[k - 1]) then 1 else 0
  }

  function Spacing(anchorEvery: int): int {
    if anchorEvery < 1 then 1 else anchorEvery
  }

  /** The distance with lost anchors: each adds one more. */
  function Stretch(every: int, lost: nat): int {
    if lost == 0 then Spacing(every) else Stretch(every, lost - 1) + Spacing(every)
  }

  /** (1 + n) times the distance. */
  lemma {:induction false} StretchIsProduct(every: int, lost: nat)
    ensures Stretch(every, lost) == (1 + lost) * Spacing(every)
  {
    if lost > 0 {
      StretchIsProduct(every, lost - 1);
      Distribute(lost, Spacing(every));
    }
  }

  lemma Distribute(n: nat, each: int)
    ensures (1 + n) * each == n * each + each
  {
  }

  lemma {:induction false} StretchGrows(every: int, lost: nat)
    ensures Stretch(every, lost) >= Spacing(every) >= 1
  {
    if lost > 0 {
      StretchGrows(every, lost - 1);
    }
  }

  /** No more than `bound` records in a row without an anchor, anywhere in the file. */
  ghost predicate Within(file: seq<Record>, bound: int) {
    forall k: nat | k <= |file| :: Trailing(file[..k]) <= bound
  }

  /** The counter, with what lost anchors add, covers the records since the last anchor. */
  predicate Counted(log: Log, lost: nat) {
    var most := Stretch(log.anchorEvery, lost);
    Trailing(log.file) <= log.sinceAnchor + most - Spacing(log.anchorEvery) && Trailing(log.file) < most
  }

  /** An anchor is about to be written, and the counter is reset for it. */
  predicate AnchorDue(log: Log) {
    && log.pending != [] && log.pending[0].input.kind == ANCHOR && Writable(log.pending[0].input)
    && log.sinceAnchor == 0
  }

  /** At rest the counter is below the distance, or at least covers the records since the last anchor. */
  predicate Low(log: Log) {
    log.sinceAnchor < Spacing(log.anchorEvery) || Trailing(log.file) <= log.sinceAnchor
  }

  ghost predicate Spaced(log: Log, every: int, lost: nat) {
    && log.anchorEvery == every && |log.pending| <= 1 && log.sinceAnchor >= 0
    && Within(log.file, Stretch(every, lost))
    && ((Counted(log, lost) && Low(log)) || AnchorDue(log))
  }

  lemma AppendWithin(file: seq<Record>, r: Record, bound: int)
    requires Within(file, bound)
    ensures Trailing(file + [r]) == if IsAnchor(r) then 0 else Trailing(file) + 1
    ensures Trailing(file + [r]) <= bound <==> Within(file + [r], bound)
  {
    var more := file + [r];
    assert more[..|file|] == file;
    assert more[..|more|] == more;
    forall k: nat | k <= |file|
      ensures more[..k] == file[..k]
    {
    }
  }

  /** After the record is written: a fresh anchor, or one more record under the bound. */
  ghost predicate JustWritten(log: Log, every: int, lost: nat, anchor: bool) {
    && log.anchorEvery == every && log.pending == [] && log.sinceAnchor >= 1
    && Within(log.file, Stretch(every, lost))
    && (if anchor then Trailing(log.file) == 0
        else Trailing(log.file) <= log.sinceAnchor + Stretch(every, lost) - Spacing(every))
  }

  lemma WriteSpaced(s: Suite, log: Log, p: Pending, every: int, lost: nat)
    requires Spaced(log.(pending := [p]), every, lost) && log.pending == [] && Writable(p.input)
    ensures JustWritten(Written(s, log, p), every, lost, p.input.kind == ANCHOR)
  {
    var r := WrittenRecord(s, log, p);
    assert log.file[..|log.file|] == log.file;
    AppendWithin(log.file, r, Stretch(every, lost));
  }

  lemma WrittenIsSpaced(log: Log, every: int, lost: nat, anchor: bool, ts: Text)
    requires JustWritten(log, every, lost, anchor)
    ensures anchor || log.sinceAnchor < log.anchorEvery ==> Spaced(log, every, lost)
    ensures Spaced(AnchorCalled(log, ts, true), every, lost)
  {
    AnchorSerializable(ts, log.seqNo, log.prevHash);
    StretchGrows(every, lost);
  }

  lemma ResumeKeepsSpaced(s: Suite, log: Log, every: int, lost: nat, i: nat, ts: Text)
    requires Spaced(log, every, lost) && i < |log.pending|
    ensures Spaced(Resumed(s, log, i, ts), every, lost)
  {
    var p := log.pending[0];
    var rest := log.(pending := []);
    assert Without(log.pending, i) == [];
    assert log.pending == [p];
    if Writable(p.input) {
      WriteSpaced(s, rest, p, every, lost);
      WrittenIsSpaced(Written(s, rest, p), every, lost, p.input.kind == ANCHOR, ts);
    }
  }

  lemma AnchorSerializable(ts: Text, seqNo: int, hash: Text)
    ensures Writable(AnchorInput(ts, seqNo, hash))
  {
  }

  /** A lost anchor adds as many records to the bound as an anchor's distance. */
  lemma StepKeepsSpaced(s: Suite, log: Log, every: int, lost: nat, step: Step)
    requires Spaced(log, every, lost) && Enabled(log, step) && AwaitedStep(log, step)
    ensures Spaced(Next(s, log, step), every, lost + if Loses(log, step) then 1 else 0)
  {
    assert log.file[..|log.file|] == log.file;
    StretchGrows(every, lost);
    match step
    case Call(input) =>
    case CallAnchor(ts) =>
      AnchorSerializable(ts, log.seqNo, log.prevHash);
    case Resume(i, ts) =>
      ResumeKeepsSpaced(s, log, every, lost, i, ts);
    case Reject(i) =>
      assert Without(log.pending, i) == [];
    case Reopen =>
  }

  lemma {:induction false} PathKeepsSpaced(s: Suite, states: seq<Log>, steps: seq<Step>, every: int, k: nat)
    requires Path(s, states, steps) && Awaited(states, steps) && k <= |steps| && Spaced(states[0], every, 0)
    ensures Spaced(states[k], every, Losses(states, steps, k))
  {
    if k > 0 {
      PathKeepsSpaced(s, states, steps, every, k - 1);
      assert AwaitedStep(states[k - 1], steps[k - 1]);
      StepKeepsSpaced(s, states[k - 1], every, Losses(states, steps, k - 1), steps[k - 1]);
    }
  }

  lemma NewIsSpaced(every: int)
    ensures Spaced(NewLog(every), every, 0)
  {
  }

  lemma {:induction false} TrailingWindow(file: seq<Record>, n: nat)
    requires n <= |file| && forall j | |file| - n <= j < |file| :: !IsAnchor(file[j])
    ensures Trailing(file) >= n
  {
    if n > 0 {
      TrailingWindow(file[..|file| - 1], n - 1);
    }
  }

  /**
   * Main result: in an awaited run that lost n anchors, more than (1 + n) times `anchorEvery` records in a row
   * always hold an anchor. With none lost that is more than `anchorEvery`.
   */
  lemma AnchorSpacing(s: Suite, states: seq<Log>, steps: seq<Step>, every: int, k: nat, from: nat)
    requires Run(s, states, steps, every) && Awaited(states, steps) && k <= |steps|
    requires from + Stretch(every, Losses(states, steps, k)) < |states[k].file|
    ensures exists j ::
              from <= j <= from + Stretch(every, Losses(states, steps, k)) && IsAnchor(states[k].file[j])
  {
    var file, bound := states[k].file, Stretch(every, Losses(states, steps, k));
    NewIsSpaced(every);
    PathKeepsSpaced(s, states, steps, every, k);
    StretchGrows(every, Losses(states, steps, k));
    if forall j | from <= j < from + bound + 1 :: !IsAnchor(file[j]) {
      TrailingWindow(file[..from + bound + 1], bound + 1);
    }
  }

  // ---------- the bound is attained, and when it is not needed ----------

  lemma Extend(s: Suite, states: seq<Log>, steps: seq<Step>, step: Step)
    requires Path(s, states, steps) && Awaited(states, steps)
    requires var last := states[|steps|]; Enabled(last, step) && AwaitedStep(last, step)
    ensures var more, taken := states + [Next(s, states[|steps|], step)], steps + [step];
            && Path(s, more, taken) && Awaited(more, taken)
            && Losses(more, taken, |taken|) ==
               Losses(states, steps, |steps|) + if Loses(states[|steps|], step) then 1 else 0
  {
    var more, taken := states + [Next(s, states[|steps|], step)], steps + [step];
    forall k: nat | k < |taken|
      ensures Enabled(more[k], taken[k]) && more[k + 1] == Next(s, more[k], taken[k]) && AwaitedStep(more[k], taken[k])
    {
      assert k < |steps| ==> AwaitedStep(states[k], steps[k]);
    }
    LossesOfPrefix(states, steps, more, taken, |steps|);
  }

  lemma {:induction false} LossesOfPrefix(states: seq<Log>, steps: seq<Step>, more: seq<Log>, taken: seq<Step>, k: nat)
    requires |states| == |steps| + 1 && |more| == |taken| + 1 && states <= more && steps <= taken && k <= |steps|
    ensures Losses(more, taken, k) == Losses(states, steps, k)
  {
    if k > 0 {
      LossesOfPrefix(states, steps, more, taken, k - 1);
    }
  }

  const PLAIN := Input([], [], None, None, Null)

  /** One more record, with an anchor after it if the counter is full. */
  lemma WriteOne(s: Suite, states: seq<Log>, steps: seq<Step>) returns (more: seq<Log>, taken: seq<Step>)
    requires Path(s, states, steps) && Awaited(states, steps) && states[|steps|].pending == []
    ensures Path(s, more, taken) && Awaited(more, taken) && more[0] == states[0]
    ensures Losses(more, taken, |taken|) == Losses(states, steps, |steps|)
    ensures var last, next := states[|steps|], more[|taken|];
            && Trailing(next.file) == Trailing(last.file) + 1 && next.anchorEvery == last.anchorEvery
            && (if last.sinceAnchor + 1 >= last.anchorEvery
                then |next.pending| == 1 && next.pending[0].input.kind == ANCHOR && next.sinceAnchor == 0
                else next.pending == [] && next.sinceAnchor == last.sinceAnchor + 1)
  {
    var last := states[|steps|];
    Extend(s, states, steps, Call(PLAIN));
    more, taken := states + [Called(last, PLAIN)], steps + [Call(PLAIN)];
    var called := more[|taken|];
    assert called.pending == [Pending(PLAIN, false)] && Without(called.pending, 0) == [];
    var r := WrittenRecord(s, last, called.pending[0]);
    TrailingAppend(last.file, r);
    Extend(s, more, taken, Resume(0, []));
    more, taken := more + [Resumed(s, called, 0, [])], taken + [Resume(0, [])];
    assert called.(pending := Without(called.pending, 0)) == last;
  }

  /** As many records as the counter allows, none of them followed by an anchor but perhaps the last. */
  lemma {:induction false} WriteMany(s: Suite, states: seq<Log>, steps: seq<Step>, n: nat)
    returns (more: seq<Log>, taken: seq<Step>)
    requires Path(s, states, steps) && Awaited(states, steps) && states[|steps|].pending == []
    requires n == 1 || (n > 1 && states[|steps|].sinceAnchor + n <= states[|steps|].anchorEvery)
    ensures Path(s, more, taken) && Awaited(more, taken) && more[0] == states[0]
    ensures Losses(more, taken, |taken|) == Losses(states, steps, |steps|)
    ensures var last, next := states[|steps|], more[|taken|];
            && Trailing(next.file) == Trailing(last.file) + n && next.anchorEvery == last.anchorEvery
            && (last.sinceAnchor + n >= last.anchorEvery ==>
                  |next.pending| == 1 && next.pending[0].input.kind == ANCHOR && next.sinceAnchor == 0)
    decreases n
  {
    more, taken := WriteOne(s, states, steps);
    if n > 1 {
      more, taken := WriteMany(s, more, taken, n - 1);
    }
  }

  /** The state in which an anchor can be lost. */
  predicate AnchorWaits(log: Log, every: int, trailing: int) {
    && Trailing(log.file) == trailing && log.anchorEvery == every
    && |log.pending| == 1 && log.pending[0].input.kind == ANCHOR && log.sinceAnchor == 0
  }

  lemma LoseAndRefill(s: Suite, states: seq<Log>, steps: seq<Step>, every: int, trailing: nat)
    returns (more: seq<Log>, taken: seq<Step>)
    requires Path(s, states, steps) && Awaited(states, steps)
    requires trailing > 0 && AnchorWaits(states[|steps|], every, trailing)
    ensures Path(s, more, taken) && Awaited(more, taken) && more[0] == states[0]
    ensures Losses(more, taken, |taken|) == Losses(states, steps, |steps|) + 1
    ensures AnchorWaits(more[|taken|], every, trailing + Spacing(every))
  {
    var last := states[|steps|];
    assert Without(last.pending, 0) == [];
    Extend(s, states, steps, Reject(0));
    more, taken := WriteMany(s, states + [Rejected(last, 0)], steps + [Reject(0)], Spacing(every));
  }

  /** The bound cannot be lowered: n lost anchors can leave (1 + n) times the distance without one. */
  lemma {:induction false} LossesAddUp(s: Suite, every: int, n: nat) returns (states: seq<Log>, steps: seq<Step>)
    ensures Run(s, states, steps, every) && Awaited(states, steps) && Losses(states, steps, |steps|) == n
    ensures AnchorWaits(states[|steps|], every, Stretch(every, n))
  {
    if n == 0 {
      states, steps := WriteMany(s, [NewLog(every)], [], Spacing(every));
    } else {
      states, steps := LossesAddUp(s, every, n - 1);
      StretchGrows(every, n - 1);
      states, steps := LoseAndRefill(s, states, steps, every, Stretch(every, n - 1));
    }
  }

  /** Whatever the log does from here, with awaited appends and no lost anchor, keeps the plain bound. */
  ghost predicate StaysWithin(s: Suite, log: Log) {
    forall states: seq<Log>, steps: seq<Step> ::
      Path(s, states, steps) && states[0] == log && Awaited(states, steps) && Losses(states, steps, |steps|) == 0
      ==> Within(states[|steps|].file, Spacing(log.anchorEvery))
  }

  /**
   * Main result: a log at rest that has kept the plain bound so far goes on keeping it, as long as no anchor is
   * lost, exactly when its counter covers the records since the last anchor and these are fewer than
   * `anchorEvery`. A lost anchor is what can break that.
   */
  lemma PlainBoundIff(s: Suite, states: seq<Log>, steps: seq<Step>, every: int)
    requires Run(s, states, steps, every) && Awaited(states, steps)
    requires var log := states[|steps|]; log.pending == [] && Within(log.file, Spacing(every))
    ensures StaysWithin(s, states[|steps|]) <==> Counted(states[|steps|], 0)
  {
    var log := states[|steps|];
    NewIsSpaced(every);
    PathKeepsSpaced(s, states, steps, every, |steps|);
    if Counted(log, 0) {
      forall ss: seq<Log>, ts: seq<Step> |
          Path(s, ss, ts) && ss[0] == log && Awaited(ss, ts) && Losses(ss, ts, |ts|) == 0
        ensures Within(ss[|ts|].file, Spacing(log.anchorEvery))
      {
        PathKeepsSpaced(s, ss, ts, every, |ts|);
      }
    } else {
      var left := Spacing(every) - log.sinceAnchor;
      var ss, ts := WriteMany(s, [log], [], if left < 1 then 1 else left);
      var file := ss[|ts|].file;
      assert file[..|file|] == file;
      assert !Within(file, Spacing(every));
    }
  }

  // ---------- the counter against the file ----------

  lemma TrailingAppend(file: seq<Record>, r: Record)
    ensures Trailing(file + [r]) == if IsAnchor(r) then 0 else Trailing(file) + 1
  {
    assert (file + [r])[..|file|] == file;
  }

  /** Whether the log lags after a step: a lost anchor starts it, a written one or a reopen ends it. */
  predicate Lags(before: Log, step: Step, after: Log, lagged: bool) {
    && !step.Reopen?
    && !(step.Resume? && after.file != before.file && Trailing(after.file) == 0)
    && (Loses(before, step) || lagged)
  }

  /** An anchor was lost, and since then neither has one been written nor has the log been reopened. */
  predicate Behind(states: seq<Log>, steps: seq<Step>, k: nat)
    requires |states| == |steps| + 1 && k <= |steps|
  {
    k > 0 && Lags(states[k - 1], steps[k - 1], states[k], Behind(states, steps, k - 1))
  }

  /** The counter covers the file exactly when the log is not behind, but while an anchor is on its way. */
  predicate Tracked(log: Log, behind: bool) {
    && |log.pending| <= 1 && log.sinceAnchor >= 0
    && (|| (Trailing(log.file) <= log.sinceAnchor <==> !behind)
        || (AnchorDue(log) && (behind ==> Trailing(log.file) > 0)))
  }

  /** What writing a record does to the counter and to the count it stands for. */
  lemma WrittenCounts(s: Suite, log: Log, p: Pending)
    requires Writable(p.input)
    ensures var done := Written(s, log, p);
            && done.sinceAnchor == log.sinceAnchor + 1 && done.file != log.file && done.pending == log.pending
            && Trailing(done.file) == if p.input.kind == ANCHOR then 0 else Trailing(log.file) + 1
  {
    var r := WrittenRecord(s, log, p);
    TrailingAppend(log.file, r);
    assert |log.file + [r]| != |log.file|;
  }

  lemma ResumeTracks(s: Suite, log: Log, i: nat, ts: Text, behind: bool)
    requires Tracked(log, behind) && i < |log.pending|
    ensures var next := Resumed(s, log, i, ts);
            Tracked(next, behind && !(next.file != log.file && Trailing(next.file) == 0))
  {
    var p, rest := log.pending[0], log.(pending := []);
    assert Without(log.pending, i) == [];
    if Writable(p.input) {
      WrittenCounts(s, rest, p);
      DoneTracks(log, Written(s, rest, p), p, ts, behind);
    }
  }

  /** After the write, with or without an anchor to follow. */
  lemma DoneTracks(log: Log, done: Log, p: Pending, ts: Text, behind: bool)
    requires Tracked(log, behind) && log.pending == [p] && done.pending == []
    requires done.sinceAnchor == log.sinceAnchor + 1
    requires Trailing(done.file) == if p.input.kind == ANCHOR then 0 else Trailing(log.file) + 1
    ensures Tracked(done, behind && Trailing(done.file) != 0)
    ensures p.input.kind != ANCHOR ==> Tracked(AnchorCalled(done, ts, true), behind && Trailing(done.file) != 0)
  {
    AnchorSerializable(ts, done.seqNo, done.prevHash);
  }

  lemma StepTracks(s: Suite, log: Log, step: Step, behind: bool)
    requires Tracked(log, behind) && Enabled(log, step) && AwaitedStep(log, step)
    ensures Tracked(Next(s, log, step), Lags(log, step, Next(s, log, step), behind))
  {
    match step
    case Call(input) =>
    case CallAnchor(ts) =>
      AnchorSerializable(ts, log.seqNo, log.prevHash);
    case Resume(i, ts) =>
      ResumeTracks(s, log, i, ts, behind);
    case Reject(i) =>
      assert Without(log.pending, i) == [];
    case Reopen =>
  }

  lemma {:induction false} RunTracks(s: Suite, states: seq<Log>, steps: seq<Step>, every: int, k: nat)
    requires Run(s, states, steps, every) && Awaited(states, steps) && k <= |steps|
    ensures Tracked(states[k], Behind(states, steps, k))
  {
    if k > 0 {
      RunTracks(s, states, steps, every, k - 1);
      assert AwaitedStep(states[k - 1], steps[k - 1]);
      StepTracks(s, states[k - 1], steps[k - 1], Behind(states, steps, k - 1));
    }
  }

  /** No caller passes the anchor type to `append` itself. */
  predicate Indirect(step: Step) {
    step.Call? ==> step.input.kind != ANCHOR
  }

  /** The counter is at most one ahead of the file, and zero while an anchor is on its way. */
  predicate Slack(log: Log) {
    && |log.pending| <= 1
    && (if log.pending != [] && log.pending[0].input.kind == ANCHOR
        then log.sinceAnchor == 0 && Writable(log.pending[0].input)
        else log.sinceAnchor <= Trailing(log.file) + 1)
  }

  lemma ResumeKeepsSlack(s: Suite, log: Log, i: nat, ts: Text)
    requires Slack(log) && i < |log.pending|
    ensures Slack(Resumed(s, log, i, ts))
  {
    var p := log.pending[0];
    assert Without(log.pending, i) == [];
    if Writable(p.input) {
      var rest := log.(pending := []);
      WrittenCounts(s, rest, p);
      AnchorSerializable(ts, Written(s, rest, p).seqNo, Written(s, rest, p).prevHash);
    }
  }

  lemma StepKeepsSlack(s: Suite, log: Log, step: Step)
    requires Slack(log) && Enabled(log, step) && AwaitedStep(log, step) && Indirect(step)
    ensures Slack(Next(s, log, step))
  {
    match step
    case Call(input) =>
    case CallAnchor(ts) =>
      AnchorSerializable(ts, log.seqNo, log.prevHash);
    case Resume(i, ts) =>
      ResumeKeepsSlack(s, log, i, ts);
    case Reject(i) =>
    case Reopen =>
  }

  lemma {:induction false} RunKeepsSlack(s: Suite, states: seq<Log>, steps: seq<Step>, every: int, k: nat)
    requires Run(s, states, steps, every) && Awaited(states, steps) && k <= |steps|
    requires forall j: nat | j < k :: Indirect(steps[j])
    ensures Slack(states[k])
  {
    if k > 0 {
      RunKeepsSlack(s, states, steps, every, k - 1);
      assert AwaitedStep(states[k - 1], steps[k - 1]) && Indirect(steps[k - 1]);
      StepKeepsSlack(s, states[k - 1], steps[k - 1]);
    }
  }

  /**
   * Main result: at rest between awaited appends the counter is at most the true count and one, unless an
   * anchor was appended by its type, and it is at least the true count exactly when the log is not behind.
   */
  lemma CounterSlack(s: Suite, states: seq<Log>, steps: seq<Step>, every: int, k: nat)
    requires Run(s, states, steps, every) && Awaited(states, steps) && k <= |steps| && states[k].pending == []
    ensures var log := states[k];
            && (Trailing(log.file) <= log.sinceAnchor <==> !Behind(states, steps, k))
            && ((forall j: nat | j < k :: Indirect(steps[j])) ==> log.sinceAnchor <= Trailing(log.file) + 1)
  {
    RunTracks(s, states, steps, every, k);
    if forall j: nat | j < k :: Indirect(steps[j]) {
      RunKeepsSlack(s, states, steps, every, k);
    }
  }
}
