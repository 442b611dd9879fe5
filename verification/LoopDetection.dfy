/** Loop detection of the agent: a check on an eight-entry window that speaks about the whole history. */
module LoopDetection {
  /** A recorded call: its key and the hash of the observation it acted on. */
  datatype Entry = Entry(key: string, obsHash: string)

  const WINDOW := 8

  function Last(h: seq<Entry>, n: nat): seq<Entry> {
    if |h| <= n then h else h[|h| - n..]
  }

  /** `i % period`, for the two periods there are. */
  function Phase(i: nat, period: nat): (r: nat)
    requires period == 2 || period == 3
    ensures r < period && (i < period ==> r == i)
  {
    if period == 2 then i % 2 else i % 3
  }

  predicate DistinctKeys(h: seq<Entry>) {
    forall i, j | 0 <= i < j < |h| :: h[i].key != h[j].key
  }

  predicate OneObservation(h: seq<Entry>) {
    forall i | 0 <= i < |h| :: h[i].obsHash == h[0].obsHash
  }

  /** `h` is copies of a cycle of `period` distinct actions under one unchanged observation. */
  predicate Cyclic(h: seq<Entry>, period: nat)
    requires (period == 2 || period == 3) && period <= |h|
  {
    && OneObservation(h)
    && DistinctKeys(h[..period])
    && Repeating(h, period)
  }

  predicate Repeating(h: seq<Entry>, period: nat)
    requires (period == 2 || period == 3) && period <= |h|
  {
    forall i | 0 <= i < |h| :: h[i].key == h[Phase(i, period)].key
  }

  /** The history ends in two copies of a cycle. */
  predicate EndsInCycle(h: seq<Entry>, period: nat)
    requires period == 2 || period == 3
  {
    |h| >= 2 * period && Cyclic(h[|h| - 2 * period..], period)
  }

  // ---------- what the set sizes say ----------

  function Hashes(h: seq<Entry>): set<string> {
    set e | e in h :: e.obsHash
  }

  function KeySet(h: seq<Entry>): set<string> {
    set e | e in h :: e.key
  }

  lemma SingletonSet(s: set<string>, x: string)
    requires x in s
    ensures |s| == 1 <==> forall y | y in s :: y == x
  {
    assert s == {x} + (s - {x});
    if |s| == 1 {
      assert |s - {x}| == 0;
    }
    if forall y | y in s :: y == x {
      assert s == {x};
    }
  }

  lemma OneHash(h: seq<Entry>)
    requires h != []
    ensures |Hashes(h)| == 1 <==> OneObservation(h)
  {
    assert h[0] in h && h[0].obsHash in Hashes(h);
    SingletonSet(Hashes(h), h[0].obsHash);
    if |Hashes(h)| == 1 {
      forall i | 0 <= i < |h|
        ensures h[i].obsHash == h[0].obsHash
      {
        assert h[i] in h && h[i].obsHash in Hashes(h);
      }
    }
  }

  lemma KeySetMore(front: seq<Entry>, last: Entry)
    ensures KeySet(front + [last]) == KeySet(front) + {last.key}
  {
    assert forall e :: e in front + [last] <==> e in front || e == last;
  }

  lemma KeyAt(h: seq<Entry>, key: string)
    ensures key in KeySet(h) <==> exists i :: 0 <= i < |h| && h[i].key == key
  {
    if key in KeySet(h) {
      var e :| e in h && e.key == key;
    }
    if i :| 0 <= i < |h| && h[i].key == key {
      assert h[i] in h;
    }
  }

  lemma DistinctMore(front: seq<Entry>, last: Entry)
    ensures DistinctKeys(front + [last]) <==> DistinctKeys(front) && last.key !in KeySet(front)
  {
    var h := front + [last];
    KeyAt(front, last.key);
    if DistinctKeys(h) {
      forall i, j | 0 <= i < j < |front|
        ensures front[i].key != front[j].key
      {
        assert h[i].key != h[j].key;
      }
      forall i | 0 <= i < |front|
        ensures front[i].key != last.key
      {
        assert h[i].key != h[|front|].key;
      }
    }
  }

  lemma {:induction false} KeySetSize(h: seq<Entry>)
    ensures |KeySet(h)| <= |h|
    ensures |KeySet(h)| == |h| <==> DistinctKeys(h)
  {
    if h != [] {
      var front, last := h[..|h| - 1], h[|h| - 1];
      assert h == front + [last];
      KeySetSize(front);
      KeySetMore(front, last);
      DistinctMore(front, last);
    }
  }

  // ---------- the check ----------

  /** `copies * period`, for the two periods there are. */
  function Width(copies: nat, period: nat): nat {
    if period == 2 then 2 * copies else 3 * copies
  }

  /** Two copies at the end of a list of copies are shifted by whole periods. */
  lemma ModOfShift(skip: nat, i: nat, period: nat, n: nat)
    requires (period == 2 || period == 3) && skip == Width(n, period)
    ensures Phase(skip + i, period) == Phase(i, period)
  {
    if period == 2 {
      assert (2 * n + i) % 2 == i % 2;
    } else {
      assert (3 * n + i) % 3 == i % 3;
    }
  }

  lemma TailKey(h: seq<Entry>, period: nat, copies: nat, i: nat)
    requires (period == 2 || period == 3) && copies >= 2 && Width(copies, period) == |h| && i < 2 * period
    requires Cyclic(h, period)
    ensures 2 * period <= |h| && h[|h| - 2 * period..][i].key == h[Phase(i, period)].key
  {
    var skip := Width(copies - 2, period);
    assert skip == |h| - 2 * period;
    ModOfShift(skip, i, period, copies - 2);
    assert h[skip..][i] == h[skip + i];
  }

  /** More copies at the end contain two copies at the end. */
  lemma CopiesContainTwo(h: seq<Entry>, period: nat, copies: nat)
    requires (period == 2 || period == 3) && copies >= 2 && Width(copies, period) == |h|
    requires Cyclic(h, period)
    ensures EndsInCycle(h, period)
  {
    TailKey(h, period, copies, 0);
    var tail := h[|h| - 2 * period..];
    forall i | 0 <= i < |tail|
      ensures tail[i].key == h[Phase(i, period)].key
    {
      TailKey(h, period, copies, i);
    }
    forall i, j | 0 <= i < j < period
      ensures tail[..period][i].key != tail[..period][j].key
    {
      assert h[..period][i].key != h[..period][j].key;
    }
  }

  /** The three tests the loop makes of one slice. */
  method IsCyclic(slice: seq<Entry>, period: nat) returns (cyclic: bool)
    requires (period == 2 || period == 3) && period <= |slice|
    ensures cyclic == Cyclic(slice, period)
  {
    OneHash(slice);
    if |Hashes(slice)| != 1 {
      return false;
    }
    var pattern := slice[..period];
    KeySetSize(pattern);
    if |KeySet(pattern)| != period {
      return false;
    }
    PatternIsFront(slice, period);
    return Follows(slice, pattern);
  }

  predicate Follows(slice: seq<Entry>, pattern: seq<Entry>)
    requires |pattern| == 2 || |pattern| == 3
  {
    forall i | 0 <= i < |slice| :: slice[i].key == pattern[Phase(i, |pattern|)].key
  }

  lemma PatternIsFront(slice: seq<Entry>, period: nat)
    requires (period == 2 || period == 3) && period <= |slice|
    ensures Follows(slice, slice[..period]) <==> Repeating(slice, period)
  {
    forall i | 0 <= i < |slice|
      ensures slice[..period][Phase(i, period)] == slice[Phase(i, period)]
    {
    }
  }

  /** Copies at the end of the window are two copies at its end. */
  lemma SliceCycles(window: seq<Entry>, period: nat, copies: nat)
    requires (period == 2 || period == 3) && copies >= 2 && Width(copies, period) <= |window|
    requires Cyclic(window[|window| - Width(copies, period)..], period)
    ensures EndsInCycle(window, period)
  {
    var slice := window[|window| - Width(copies, period)..];
    CopiesContainTwo(slice, period, copies);
    assert slice[|slice| - 2 * period..] == window[|window| - 2 * period..];
  }

  /**
   * Main result: the loop over copies in the last eight entries answers exactly whether the whole history
   * ends in two copies of a cycle.
   */
  method HasPeriodCycle(history: seq<Entry>, period: nat) returns (found: bool)
    requires period == 2 || period == 3
    ensures found == EndsInCycle(history, period)
  {
    WindowIsEnough(history, period);
    var window := Last(history, WINDOW);
    var copies := if period == 2 then |window| / 2 else |window| / 3;
    while copies >= 2
      invariant 0 <= copies && Width(copies, period) <= |window|
      invariant copies < 2 && |window| >= 2 * period ==> !EndsInCycle(window, period)
      invariant |window| < 2 * period ==> copies < 2
      decreases copies
    {
      var slice := window[|window| - Width(copies, period)..];
      var cyclic := IsCyclic(slice, period);
      if cyclic {
        SliceCycles(window, period, copies);
        return true;
      }
      copies := copies - 1;
    }
    return false;
  }

  lemma WindowIsEnough(h: seq<Entry>, period: nat)
    requires period == 2 || period == 3
    ensures EndsInCycle(Last(h, WINDOW), period) <==> EndsInCycle(h, period)
  {
    var window := Last(h, WINDOW);
    if |h| > WINDOW {
      assert window[|window| - 2 * period..] == h[|h| - 2 * period..];
    }
  }

  // ---------- a run ----------

  /** How often the last key stands at the end of the history in a row. */
  function Repeats(h: seq<Entry>): nat {
    if h == [] then 0
    else if |h| >= 2 && h[|h| - 2].key == h[|h| - 1].key then Repeats(h[..|h| - 1]) + 1
    else 1
  }

  /** A cycle of two actions, call by call: a b a b, all four under one observation. */
  lemma TwoCycleIs(h: seq<Entry>)
    ensures EndsInCycle(h, 2) <==>
            |h| >= 4
            && var s := h[|h| - 4..];
               && s[0].key == s[2].key && s[1].key == s[3].key && s[0].key != s[1].key
               && s[0].obsHash == s[1].obsHash == s[2].obsHash == s[3].obsHash
  {
    if |h| >= 4 {
      var s := h[|h| - 4..];
      assert s[..2][0] == s[0] && s[..2][1] == s[1];
      assert Phase(2, 2) == 0 && Phase(3, 2) == 1;
    }
  }

  /** A cycle of three: a b c a b c, all six under one observation. */
  lemma ThreeCycleIs(h: seq<Entry>)
    ensures EndsInCycle(h, 3) <==>
            |h| >= 6
            && var s := h[|h| - 6..];
               && s[0].key == s[3].key && s[1].key == s[4].key && s[2].key == s[5].key
               && s[0].key != s[1].key && s[0].key != s[2].key && s[1].key != s[2].key
               && s[0].obsHash == s[1].obsHash == s[2].obsHash == s[3].obsHash == s[4].obsHash == s[5].obsHash
  {
    if |h| >= 6 {
      var s := h[|h| - 6..];
      assert s[..3][0] == s[0] && s[..3][1] == s[1] && s[..3][2] == s[2];
      assert Phase(3, 3) == 0 && Phase(4, 3) == 1 && Phase(5, 3) == 2;
    }
  }

  /** A key is repeated m times when the last m calls have it. */
  lemma {:induction false} RepeatsIff(h: seq<Entry>, m: nat)
    requires m > 0
    ensures Repeats(h) >= m <==> |h| >= m && forall i | |h| - m <= i < |h| :: h[i].key == h[|h| - 1].key
    decreases |h|
  {
    if h != [] {
      var front := h[..|h| - 1];
      if |h| >= 2 && m > 1 {
        RepeatsIff(front, m - 1);
        assert front[|front| - 1] == h[|h| - 2];
      }
    }
  }

  lemma RepeatsMore(h: seq<Entry>, e: Entry)
    ensures Repeats(h) > 0 <==> h != []
    ensures Repeats(h + [e]) == if h != [] && h[|h| - 1].key == e.key then Repeats(h) + 1 else 1
  {
    assert (h + [e])[..|h|] == h;
  }

  /** No block of the history is two copies of a 2- or 3-cycle of distinct actions under one observation. */
  ghost predicate CycleFree(h: seq<Entry>) {
    forall i: nat, period: nat | 2 <= period <= 3 && i + 2 * period <= |h| :: !Block(h, i, period)
  }

  predicate Block(h: seq<Entry>, i: nat, period: nat)
    requires (period == 2 || period == 3) && i + 2 * period <= |h|
  {
    Cyclic(h[i..i + 2 * period], period)
  }

  /** The counters of one run; `all` is the unbounded history the code does not keep. */
  class LoopGuard {
    var loopHistory: seq<Entry>
    var repeatedKey: string
    var repeatedCount: nat
    const repeatLimit: nat
    ghost var all: seq<Entry>

    ghost predicate Valid()
      reads this
    {
      && loopHistory == Last(all, WINDOW)
      && repeatedCount == Repeats(all)
      && (all != [] ==> repeatedKey == all[|all| - 1].key)
    }

    constructor (limit: nat)
      ensures Valid() && all == [] && repeatLimit == limit
    {
      loopHistory, repeatedKey, repeatedCount, repeatLimit, all := [], "", 0, limit, [];
    }

    /** One call that is not exempt; the run ends when this answers true. */
    method Record(key: string, obsHash: string, observationUnchanged: bool) returns (stop: bool)
      requires Valid()
      modifies this
      ensures Valid() && all == old(all) + [Entry(key, obsHash)]
      ensures stop <==> EndsInCycle(all, 2) || EndsInCycle(all, 3)
                        || (Repeats(all) >= repeatLimit && observationUnchanged)
      ensures old(CycleFree(all)) && !stop ==> CycleFree(all)
      ensures |loopHistory| == if |all| < 8 then |all| else 8
    {
      if repeatedCount > 0 && key == repeatedKey {
        repeatedCount := repeatedCount + 1;
      } else {
        repeatedKey := key;
        repeatedCount := 1;
      }
      ghost var before := all;
      all := all + [Entry(key, obsHash)];
      RepeatsMore(before, Entry(key, obsHash));
      loopHistory := loopHistory + [Entry(key, obsHash)];
      if |loopHistory| > WINDOW {
        loopHistory := loopHistory[1..];
      }
      WindowSlides(before, Entry(key, obsHash));
      var two := HasPeriodCycle(loopHistory, 2);
      var three := HasPeriodCycle(loopHistory, 3);
      WindowIsEnough(all, 2);
      WindowIsEnough(all, 3);
      stop := (repeatedCount >= repeatLimit && observationUnchanged) || two || three;
      if CycleFree(before) && !stop {
        CycleFreeMore(before, Entry(key, obsHash));
      }
    }
  }

  lemma WindowSlides(h: seq<Entry>, e: Entry)
    ensures var w := Last(h, WINDOW) + [e];
            (if |w| > WINDOW then w[1..] else w) == Last(h + [e], WINDOW)
  {
    var w, all := Last(h, WINDOW) + [e], h + [e];
    if |h| >= WINDOW {
      assert w[1..] == all[|all| - WINDOW..];
    }
  }

  lemma BlockMore(h: seq<Entry>, e: Entry, i: nat, period: nat)
    requires (period == 2 || period == 3) && i + 2 * period <= |h| + 1
    ensures i + 2 * period <= |h| ==> (Block(h + [e], i, period) <==> Block(h, i, period))
    ensures i + 2 * period == |h| + 1 ==> (Block(h + [e], i, period) <==> EndsInCycle(h + [e], period))
  {
    var all := h + [e];
    if i + 2 * period <= |h| {
      assert all[i..i + 2 * period] == h[i..i + 2 * period];
    } else {
      assert all[i..i + 2 * period] == all[|all| - 2 * period..];
    }
  }

  lemma CycleFreeMore(h: seq<Entry>, e: Entry)
    requires CycleFree(h) && !EndsInCycle(h + [e], 2) && !EndsInCycle(h + [e], 3)
    ensures CycleFree(h + [e])
  {
    forall i: nat, period: nat | 2 <= period <= 3 && i + 2 * period <= |h + [e]|
      ensures !Block(h + [e], i, period)
    {
      BlockMore(h, e, i, period);
    }
  }

  /** The calls one run records, in order, each with what the observation check said. */
  datatype Call = Call(entry: Entry, sameView: bool)

  function Entries(calls: seq<Call>): seq<Entry> {
    seq(|calls|, i requires 0 <= i < |calls| => calls[i].entry)
  }

  predicate Passes(calls: seq<Call>, k: nat, limit: nat)
    requires k <= |calls|
  {
    var h := Entries(calls)[..k];
    !EndsInCycle(h, 2) && !EndsInCycle(h, 3)
    && (k > 0 ==> !(Repeats(h) >= limit && calls[k - 1].sameView))
  }

  /** Main result: the calls of a run that all get past the check contain no cycle, however long the run. */
  lemma {:induction false} RunIsCycleFree(calls: seq<Call>, limit: nat)
    requires forall k: nat | k <= |calls| :: Passes(calls, k, limit)
    ensures CycleFree(Entries(calls))
    decreases |calls|
  {
    var h := Entries(calls);
    if calls != [] {
      var front := calls[..|calls| - 1];
      forall k: nat | k <= |front|
        ensures Passes(front, k, limit)
      {
        assert Passes(calls, k, limit);
        assert Entries(front)[..k] == h[..k];
      }
      RunIsCycleFree(front, limit);
      assert Passes(calls, |calls|, limit) && h[..|calls|] == h;
      assert h == Entries(front) + [h[|h| - 1]];
      CycleFreeMore(Entries(front), h[|h| - 1]);
    }
  }
}
