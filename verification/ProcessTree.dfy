/** Process trees in the guest: the closure under parent links, and which processes pause and resume signal. */
module ProcessTree {
  /** What the command line of a process shows. */
  datatype Kind = NativeTool | Supervisor | Desktop | Other

  /** One row of the process table; the table stands in scan order, one row a pid. */
  datatype Proc = Proc(pid: int, parent: int, state: char, kind: Kind)

  predicate Table(all: seq<Proc>) {
    forall i, j | 0 <= i < j < |all| :: all[i].pid != all[j].pid
  }

  /** `pid` reaches `root` in n parent steps. */
  ghost predicate ReachesIn(all: seq<Proc>, root: int, pid: int, n: nat)
    decreases n
  {
    if n == 0 then pid == root
    else exists p :: p in all && p.pid == pid && ReachesIn(all, root, p.parent, n - 1)
  }

  /** The parent chain of `pid` reaches `root`. */
  ghost predicate Reaches(all: seq<Proc>, root: int, pid: int) {
    exists n: nat :: ReachesIn(all, root, pid, n)
  }

  function Pids(all: seq<Proc>): set<int> {
    set p | p in all :: p.pid
  }

  predicate Closed(all: seq<Proc>, s: set<int>) {
    forall p | p in all && p.parent in s :: p.pid in s
  }

  lemma ChildReaches(all: seq<Proc>, root: int, p: Proc)
    requires p in all && Reaches(all, root, p.parent)
    ensures Reaches(all, root, p.pid)
  {
    var n: nat :| ReachesIn(all, root, p.parent, n);
    assert ReachesIn(all, root, p.pid, n + 1);
  }

  lemma {:induction false} ReachedIsInside(all: seq<Proc>, root: int, pid: int, n: nat, s: set<int>)
    requires Closed(all, s) && root in s && ReachesIn(all, root, pid, n)
    ensures pid in s
    decreases n
  {
    if n > 0 {
      var p :| p in all && p.pid == pid && ReachesIn(all, root, p.parent, n - 1);
      ReachedIsInside(all, root, p.parent, n - 1, s);
    }
  }

  lemma SameSize(small: set<int>, large: set<int>)
    requires small <= large
    ensures |small| <= |large| && (|small| == |large| ==> small == large)
  {
    assert large == small + (large - small);
    assert |large| == |small| + |large - small|;
  }

  /** Main result: the loop ends on any table, cycles included, with exactly the processes below the root. */
  method Tree(root: int, all: seq<Proc>) returns (descendants: set<int>)
    ensures forall pid :: pid in descendants <==> Reaches(all, root, pid)
  {
    descendants := {root};
    assert ReachesIn(all, root, root, 0);
    while true
      invariant root in descendants && descendants <= Pids(all) + {root}
      invariant forall pid | pid in descendants :: Reaches(all, root, pid)
      decreases |Pids(all) + {root}| - |descendants|
    {
      var before := descendants;
      for i := 0 to |all|
        invariant before <= descendants <= Pids(all) + {root}
        invariant forall pid | pid in descendants :: Reaches(all, root, pid)
        invariant forall k | 0 <= k < i && all[k].parent in before :: all[k].pid in descendants
      {
        if all[i].parent in descendants {
          ChildReaches(all, root, all[i]);
          assert all[i] in all;
          descendants := descendants + {all[i].pid};
        }
      }
      SameSize(before, descendants);
      SameSize(descendants, Pids(all) + {root});
      if |descendants| == |before| {
        break;
      }
    }
    forall pid | Reaches(all, root, pid)
      ensures pid in descendants
    {
      var n: nat :| ReachesIn(all, root, pid, n);
      ReachedIsInside(all, root, pid, n, descendants);
    }
  }

  lemma {:induction false} ReachesByRows(all: seq<Proc>, other: seq<Proc>, root: int, pid: int, n: nat)
    requires (forall p :: p in all <==> p in other) && ReachesIn(all, root, pid, n)
    ensures ReachesIn(other, root, pid, n)
    decreases n
  {
    if n > 0 {
      var p :| p in all && p.pid == pid && ReachesIn(all, root, p.parent, n - 1);
      ReachesByRows(all, other, root, p.parent, n - 1);
    }
  }

  /** The order of the rows does not matter. */
  lemma OrderIsIrrelevant(all: seq<Proc>, other: seq<Proc>, root: int, pid: int)
    requires forall p :: p in all <==> p in other
    ensures Reaches(all, root, pid) <==> Reaches(other, root, pid)
  {
    if Reaches(all, root, pid) {
      var n: nat :| ReachesIn(all, root, pid, n);
      ReachesByRows(all, other, root, pid, n);
    }
    if Reaches(other, root, pid) {
      var n: nat :| ReachesIn(other, root, pid, n);
      ReachesByRows(other, all, root, pid, n);
    }
  }

  // ---------- pause and resume ----------

  datatype Mode = Pause | Resume

  ghost predicate DesktopAncestor(all: seq<Proc>, pid: int) {
    exists root :: root in all && root.kind == Desktop && Reaches(all, root.pid, pid)
  }

  /** The first process, supervisors, and the desktop with everything below it. */
  ghost predicate Protected(all: seq<Proc>, pid: int) {
    || pid == 1
    || (exists p :: p in all && p.pid == pid && p.kind == Supervisor)
    || DesktopAncestor(all, pid)
  }

  ghost predicate Selected(all: seq<Proc>, mode: Mode, self: int, p: Proc) {
    && p in all && p.pid != self && !Protected(all, p.pid) && p.state != 'Z'
    && (if mode == Pause then p.state != 'T' else p.state == 'T')
  }

  /** Their pids among the first n rows, in the order of the table. */
  ghost function SelectedPids(all: seq<Proc>, mode: Mode, self: int, n: nat): seq<int>
    requires n <= |all|
  {
    if n == 0 then []
    else SelectedPids(all, mode, self, n - 1) + if Selected(all, mode, self, all[n - 1]) then [all[n - 1].pid] else []
  }

  method ControlPids(all: seq<Proc>, mode: Mode, self: int) returns (pids: seq<int>)
    ensures pids == SelectedPids(all, mode, self, |all|)
    ensures forall pid :: pid in pids <==> exists p :: Selected(all, mode, self, p) && p.pid == pid
  {
    var kept: set<int> := {1};
    for i := 0 to |all|
      invariant forall pid | pid in kept :: Protected(all, pid)
      invariant 1 in kept
      invariant forall k | 0 <= k < i && all[k].kind == Supervisor :: all[k].pid in kept
      invariant forall k | 0 <= k < i && all[k].kind == Desktop :: Below(all, all[k].pid, kept)
    {
      assert all[i] in all;
      if all[i].kind == Supervisor {
        kept := kept + {all[i].pid};
      } else if all[i].kind == Desktop {
        var children := Tree(all[i].pid, all);
        kept := kept + children;
      }
    }
    assert forall pid :: pid in kept <==> Protected(all, pid);
    pids := [];
    for i := 0 to |all|
      invariant pids == SelectedPids(all, mode, self, i)
      invariant forall pid | pid in pids :: exists p :: Selected(all, mode, self, p) && p.pid == pid
      invariant forall k | 0 <= k < i && Selected(all, mode, self, all[k]) :: all[k].pid in pids
    {
      var p := all[i];
      assert p in all;
      if p.pid != self && p.pid !in kept && p.state != 'Z'
         && (if mode == Pause then p.state != 'T' else p.state == 'T') {
        assert Selected(all, mode, self, p);
        pids := pids + [p.pid];
      }
    }
  }

  /** Mode by mode: the running ones that nobody protects are paused, and the stopped ones are resumed. */
  lemma SelectedByKind(all: seq<Proc>, self: int, p: Proc)
    requires Table(all) && p in all
    ensures Selected(all, Pause, self, p) <==>
            && p.pid != self && p.pid != 1 && p.kind != Supervisor && p.state !in {'Z', 'T'}
            && !exists root :: root in all && root.kind == Desktop && Reaches(all, root.pid, p.pid)
    ensures Selected(all, Resume, self, p) <==>
            && p.pid != self && p.pid != 1 && p.kind != Supervisor && p.state == 'T'
            && !exists root :: root in all && root.kind == Desktop && Reaches(all, root.pid, p.pid)
  {
    var i :| 0 <= i < |all| && all[i] == p;
    forall q | q in all && q.pid == p.pid
      ensures q == p
    {
      var j :| 0 <= j < |all| && all[j] == q;
      assert i == j;
    }
  }

  ghost predicate Below(all: seq<Proc>, root: int, s: set<int>) {
    forall pid :: Reaches(all, root, pid) ==> pid in s
  }

  /** A desktop process and everything below it is never selected, in either mode. */
  lemma DesktopIsNeverSelected(all: seq<Proc>, mode: Mode, self: int, root: Proc, p: Proc)
    requires root in all && root.kind == Desktop && Reaches(all, root.pid, p.pid)
    ensures !Selected(all, mode, self, p) && !Selected(all, mode, self, root)
  {
    assert ReachesIn(all, root.pid, root.pid, 0);
  }

  /** Pause and resume divide the processes that are neither protected, nor zombies, nor the caller. */
  lemma ModesPartition(all: seq<Proc>, self: int, p: Proc)
    ensures Selected(all, Pause, self, p) || Selected(all, Resume, self, p) <==>
            p in all && p.pid != self && !Protected(all, p.pid) && p.state != 'Z'
    ensures !(Selected(all, Pause, self, p) && Selected(all, Resume, self, p))
  {
  }

  /** Also by pid: on a table with one row a pid, no pid is selected in both modes. */
  lemma ModesAreDisjoint(all: seq<Proc>, self: int, p: Proc, q: Proc)
    requires Table(all) && Selected(all, Pause, self, p) && Selected(all, Resume, self, q)
    ensures p.pid != q.pid
  {
    var i :| 0 <= i < |all| && all[i] == p;
    var j :| 0 <= j < |all| && all[j] == q;
    assert i != j;
  }
}
