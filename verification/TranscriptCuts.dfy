/**
 * Where exactly a transcript is cut, and which calls a resumed one answers: both from the messages themselves, without
 * the scans that find them.
 */
module TranscriptCuts {
  import opened Seqs
  import opened Transcript

  /** How many tool results there are. */
  function ToolCount(ms: seq<Message>): nat {
    if ms == [] then 0 else (if ms[0].Tool? then 1 else 0) + ToolCount(ms[1..])
  }

  predicate Made(m: Message, id: string) {
    m.Assistant? && id in m.calls
  }

  lemma {:induction false} ToolsInTail(ms: seq<Message>, from: nat)
    requires from <= |ms|
    ensures ToolCount(ms[from..]) == |ToolsAt(ms, |ms|)| - |ToolsAt(ms, from)|
    decreases |ms| - from
  {
    if from < |ms| {
      ToolsInTail(ms, from + 1);
      assert ms[from..][1..] == ms[from + 1..];
    }
  }

  lemma {:induction false} NearestMaker(ms: seq<Message>, end: nat, id: string)
    requires end <= |ms|
    ensures var i := Issuer(ms, end, id);
            (i >= 0 ==> Made(ms[i], id)) && forall k: nat | i < k < end :: !Made(ms[k], id)
    decreases end
  {
    if end > 0 && !Made(ms[end - 1], id) {
      NearestMaker(ms, end - 1, id);
    }
  }

  /** With a tool result in it there is one in the list of their positions. */
  lemma SomeTool(ms: seq<Message>, k: nat)
    requires k < |ms| && ms[k].Tool?
    ensures ToolsAt(ms, |ms|) != []
  {
    ToolsAtResult(ms, k, |ms|);
  }

  /**
   * Main result: of a transcript with tool results as many stay from `first` on as are to be kept, or all of them; it
   * is cut at the nearest turn before it that made the call of `first`, and at `first` itself if there is none.
   */
  lemma CutIs(ms: seq<Message>, keepToolObs: int) returns (first: nat, from: nat)
    requires exists k: nat :: k < |ms| && ms[k].Tool?
    ensures from <= first < |ms| && ms[first].Tool?
    ensures var n := if keepToolObs < 1 then 1 else keepToolObs;
            ToolCount(ms[first..]) == if ToolCount(ms) < n then ToolCount(ms) else n
    ensures from < first ==>
              Made(ms[from], ms[first].callId) && forall k | from < k < first :: !Made(ms[k], ms[first].callId)
    ensures from == first ==> forall k | 0 <= k < first :: !Made(ms[k], ms[first].callId)
    ensures Compacted(ms, keepToolObs) == if from == 0 then ms else [NOTE] + ms[from..]
  {
    var keep := KeepCount(keepToolObs);
    var k: nat :| k < |ms| && ms[k].Tool?;
    SomeTool(ms, k);
    var at := ToolsAt(ms, |ms|);
    first, from := FirstKept(ms, keep), KeepFrom(ms, keep);
    ToolsInTail(ms, first);
    ToolsInTail(ms, 0);
    assert ms[0..] == ms;
    ToolsBefore(ms, |ms|, if |at| < keep then 0 else |at| - keep);
    NearestMaker(ms, first, ms[first].callId);
  }

  /** Without tool results the last messages stay, as many as are to be kept, and a shorter transcript is left alone. */
  lemma PlainCutIs(ms: seq<Message>, keepToolObs: int)
    requires forall k: nat | k < |ms| :: !ms[k].Tool?
    ensures var n := if keepToolObs < 1 then 1 else keepToolObs;
            Compacted(ms, keepToolObs) == if |ms| <= n then ms else [NOTE] + ms[|ms| - n..]
  {
  }

  /** Between compactions the loop only appends, one message a step. */
  lemma {:induction false} RunOnlyAppends(states: seq<seq<Message>>, steps: seq<Step>, j: nat, k: nat)
    requires Run(states, steps) && j <= k <= |steps|
    requires forall i | j <= i < k :: !steps[i].CompactNow?
    ensures states[j] <= states[k] && |states[k]| == |states[j]| + k - j
    decreases k
  {
    if j < k {
      RunOnlyAppends(states, steps, j, k - 1);
    }
  }

  // ---------- resume ----------

  /** A call: the turn that made it and its number there. */
  datatype Place = Place(turn: nat, index: nat)

  predicate IsCall(ms: seq<Message>, p: Place) {
    p.turn < |ms| && ms[p.turn].Assistant? && p.index < |ms[p.turn].calls|
  }

  function IdAt(ms: seq<Message>, p: Place): string
    requires IsCall(ms, p)
  {
    ms[p.turn].calls[p.index]
  }

  predicate Earlier(p: Place, q: Place) {
    p.turn < q.turn || (p.turn == q.turn && p.index < q.index)
  }

  /** No result names the call; the empty id names none. */
  predicate Unanswered(ms: seq<Message>, id: string) {
    id == "" || forall k | 0 <= k < |ms| :: !(ms[k].Tool? && ms[k].callId == id)
  }

  lemma {:induction false} OpenIsUnanswered(ms: seq<Message>, id: string)
    ensures Results(ms, id) == 0 <==> forall k | 0 <= k < |ms| :: !(ms[k].Tool? && ms[k].callId == id)
  {
    if ms != [] {
      var front := ms[..|ms| - 1];
      OpenIsUnanswered(front, id);
      assert forall k | 0 <= k < |front| :: front[k] == ms[k];
    }
  }

  predicate InOrder(places: seq<Place>) {
    forall i, j | 0 <= i < j < |places| :: Earlier(places[i], places[j])
  }

  /** These places hold these ids. */
  predicate Hold(ms: seq<Message>, places: seq<Place>, ids: seq<string>) {
    |places| == |ids| && forall i | 0 <= i < |places| :: IsCall(ms, places[i]) && IdAt(ms, places[i]) == ids[i]
  }

  function TurnPlaces(turn: nat, count: nat): (places: seq<Place>)
    ensures |places| == count && forall i | 0 <= i < count :: places[i] == Place(turn, i)
  {
    seq(count, i requires 0 <= i < count => Place(turn, i))
  }

  /** All calls of a transcript, in the order in which it makes them. */
  ghost predicate AllCalls(ms: seq<Message>, places: seq<Place>) {
    Hold(ms, places, Calls(ms)) && InOrder(places) && forall p | IsCall(ms, p) :: p in places
  }

  function LastTurn(ms: seq<Message>): seq<Place>
    requires ms != []
  {
    var last := ms[|ms| - 1];
    TurnPlaces(|ms| - 1, if last.Assistant? then |last.calls| else 0)
  }

  lemma FrontCalls(ms: seq<Message>, places: seq<Place>)
    requires ms != [] && AllCalls(ms[..|ms| - 1], places)
    ensures Hold(ms, places, Calls(ms[..|ms| - 1])) && forall i | 0 <= i < |places| :: places[i].turn < |ms| - 1
    ensures forall p | IsCall(ms, p) && p.turn < |ms| - 1 :: p in places
  {
    var front := ms[..|ms| - 1];
    forall i | 0 <= i < |places|
      ensures IsCall(ms, places[i]) && IdAt(ms, places[i]) == IdAt(front, places[i]) && places[i].turn < |ms| - 1
    {
      assert IsCall(front, places[i]);
    }
    forall p | IsCall(ms, p) && p.turn < |ms| - 1
      ensures p in places
    {
      assert IsCall(front, p);
    }
  }

  lemma LastHold(ms: seq<Message>)
    requires ms != []
    ensures var last := ms[|ms| - 1]; Hold(ms, LastTurn(ms), if last.Assistant? then last.calls else [])
  {
  }

  lemma LastCalls(ms: seq<Message>)
    requires ms != []
    ensures forall p | IsCall(ms, p) && p.turn == |ms| - 1 :: p in LastTurn(ms)
  {
    forall p | IsCall(ms, p) && p.turn == |ms| - 1
      ensures p in LastTurn(ms)
    {
      assert LastTurn(ms)[p.index] == p;
    }
  }

  lemma HoldBoth(ms: seq<Message>, a: seq<Place>, b: seq<Place>, ids: seq<string>, more: seq<string>)
    requires Hold(ms, a, ids) && Hold(ms, b, more)
    ensures Hold(ms, a + b, ids + more)
  {
  }

  lemma {:induction false} CallPlaces(ms: seq<Message>) returns (places: seq<Place>)
    ensures AllCalls(ms, places)
  {
    places := [];
    if ms != [] {
      var last := ms[|ms| - 1];
      var before := CallPlaces(ms[..|ms| - 1]);
      places := before + LastTurn(ms);
      FrontCalls(ms, before);
      LastHold(ms);
      LastCalls(ms);
      HoldBoth(ms, before, LastTurn(ms), Calls(ms[..|ms| - 1]), if last.Assistant? then last.calls else []);
    }
  }

  /** One more call: it is the latest, and it is taken if it passes. */
  lemma OneMore(ms: seq<Message>, places: seq<Place>, front: seq<Place>, ids: seq<string>)
    requires places != [] && InOrder(places)
    requires Hold(ms, front, ids) && InOrder(front) && forall p | p in front :: p in places[..|places| - 1]
    requires IsCall(ms, places[|places| - 1])
    ensures var last := places[|places| - 1];
            Hold(ms, front + [last], ids + [IdAt(ms, last)]) && InOrder(front + [last])
  {
    var all := front + [places[|places| - 1]];
    forall i, j | 0 <= i < j < |all|
      ensures Earlier(all[i], all[j])
    {
      if j == |front| {
        assert front[i] in front;
        var k :| 0 <= k < |places| - 1 && places[k] == front[i];
      }
    }
  }

  /** Of calls in order, those that pass are in order. */
  lemma {:induction false} OpenPlaces(ms: seq<Message>, ids: seq<string>, places: seq<Place>)
    returns (open: seq<Place>)
    requires Hold(ms, places, ids) && InOrder(places)
    ensures Hold(ms, open, Filtered(ms, ids)) && InOrder(open)
    ensures forall p :: p in open <==> p in places && IsOpen(ms, IdAt(ms, p))
    decreases |ids|
  {
    open := [];
    if ids != [] {
      var n := |ids| - 1;
      var front := OpenPlaces(ms, ids[..n], places[..n]);
      OneMore(ms, places, front, Filtered(ms, ids[..n]));
      Empty(Filtered(ms, ids[..n]));
      Halves(places, n);
      assert places[n..] == [places[n]];
      open := if IsOpen(ms, ids[n]) then front + [places[n]] else front;
    }
  }

  lemma {:induction false} AnswersAre(ms: seq<Message>, places: seq<Place>, ids: seq<string>)
    requires Hold(ms, places, ids)
    ensures |Answers(ids)| == |places|
    ensures forall i | 0 <= i < |places| :: Answers(ids)[i] == Tool(IdAt(ms, places[i]), NOT_RUN)
  {
    forall i | 0 <= i < |places|
      ensures |Answers(ids)| == |ids| && Answers(ids)[i] == Tool(ids[i], NOT_RUN)
    {
      AnswerAt(ids, i);
    }
  }

  /**
   * Main result, for any transcript: resuming it appends one result for each call that no result names, at every place
   * where one is made, in the order of the calls, and nothing else.
   */
  lemma ResumeIs(ms: seq<Message>) returns (open: seq<Place>)
    ensures InOrder(open) && forall p :: p in open <==> IsCall(ms, p) && Unanswered(ms, IdAt(ms, p))
    ensures ms <= Resumed(ms) && |Resumed(ms)| == |ms| + |open|
    ensures forall i | 0 <= i < |open| ::
              IsCall(ms, open[i]) && Resumed(ms)[|ms| + i] == Tool(IdAt(ms, open[i]), NOT_RUN)
  {
    var places := CallPlaces(ms);
    open := OpenPlaces(ms, Calls(ms), places);
    AnswersAre(ms, open, OpenCalls(ms));
    forall p | IsCall(ms, p)
      ensures IsOpen(ms, IdAt(ms, p)) <==> Unanswered(ms, IdAt(ms, p))
    {
      OpenIsUnanswered(ms, IdAt(ms, p));
    }
  }
}
