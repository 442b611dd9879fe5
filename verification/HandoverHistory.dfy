/**
 * The history that the safety of a handover speaks about leaves nothing out: from one recorded moment to the next one
 * command has reached one side, and the last moment is the present.
 */
module HandoverHistory {
  import opened Wrappers
  import opened Takeover
  import opened TakeoverClient

  /** One command takes one session to the other. */
  ghost predicate Handles(a: Session, b: Session) {
    exists c, deadline :: b == Handled(a, c, deadline).0
  }

  ghost predicate OneCommand(a: Snapshot, b: Snapshot) {
    || (a.shell == b.shell && Handles(a.browser, b.browser))
    || (a.browser == b.browser && a.shell.Some? && b.shell.Some? && Handles(a.shell.value, b.shell.value))
  }

  /** All moments since a start. */
  function Moments(start: Snapshot, w: World): (moments: seq<Snapshot>)
    ensures |moments| == |w.history| + 1
  {
    [start] + w.history
  }

  ghost predicate Complete(start: Snapshot, w: World) {
    var moments := Moments(start, w);
    && moments[|moments| - 1] == Now(w)
    && forall i | 0 <= i < |moments| - 1 :: OneCommand(moments[i], moments[i + 1])
  }

  lemma NotedCompletes(start: Snapshot, w: World, next: World)
    requires Complete(start, w) && next.history == w.history && OneCommand(Now(w), Now(next))
    ensures Complete(start, Noted(next))
  {
    var before, moments := Moments(start, w), Moments(start, Noted(next));
    assert moments == before + [Now(next)];
    forall i | 0 <= i < |moments| - 1
      ensures OneCommand(moments[i], moments[i + 1])
    {
      if i < |before| - 1 {
        assert OneCommand(before[i], before[i + 1]);
      }
    }
  }

  lemma AskedCompletes(start: Snapshot, w: World, env: Env)
    requires Complete(start, w)
    ensures Complete(start, Asked(w, env))
  {
    if env.ask.Some? && env.ask.value.Ask? {
      NotedCompletes(start, w, w.(browser := Handled(w.browser, env.ask.value, env.deadline).0));
    }
  }

  lemma DispatchedHandles(s: Session, c: Command, outcome: Outcome, deadline: string)
    ensures Handles(s, Dispatched(s, c, outcome, deadline).0)
  {
    assert Handled(s, Status, deadline).0 == s;
  }

  lemma BrowserCompletes(start: Snapshot, w: World, c: Command, env: Env)
    requires Complete(start, w)
    ensures Complete(start, ToBrowser(w, c, env).0)
  {
    AskedCompletes(start, w, env);
    var asked := Asked(w, env);
    DispatchedHandles(asked.browser, c, env.outcome, env.deadline);
    NotedCompletes(start, asked,
                   asked.(browser := Dispatched(asked.browser, c, env.outcome, env.deadline).0));
  }

  lemma ShellCompletes(start: Snapshot, w: World, c: Command, env: Env)
    requires Complete(start, w) && w.shell.Some?
    ensures Complete(start, ToShell(w, c, env).0)
  {
    AskedCompletes(start, w, env);
    var asked := Asked(w, env);
    DispatchedHandles(asked.shell.value, c, env.outcome, env.deadline);
    NotedCompletes(start, asked,
                   asked.(shell := Some(Dispatched(asked.shell.value, c, env.outcome, env.deadline).0)));
  }

  lemma BothComplete(start: Snapshot, w: World, c: Command, first: Env, second: Env)
    requires Complete(start, w)
    ensures Complete(start, Both(w, c, first, second).0)
  {
    BrowserCompletes(start, w, c, first);
    var (b, reply) := ToBrowser(w, c, first);
    if reply.Accepted? && b.shell.Some? {
      ShellCompletes(start, b, c, second);
    }
  }

  lemma StatusesComplete(start: Snapshot, w: World, sch: Schedule)
    requires Complete(start, w)
    ensures Complete(start, Statuses(w, sch).0)
  {
    BrowserCompletes(start, w, Status, At(sch, 0));
    var w0 := ToBrowser(w, Status, At(sch, 0)).0;
    if w0.shell.Some? {
      ShellCompletes(start, w0, Status, At(sch, 1));
    }
  }

  lemma GrantCompletes(start: Snapshot, w: World, id: string, sch: Schedule)
    requires Complete(start, w)
    ensures Complete(start, GrantRun(w, id, sch).0)
  {
    BrowserCompletes(start, w, Status, At(sch, 0));
    var (w0, status) := ToBrowser(w, Status, At(sch, 0));
    if status.Accepted? && w0.shell.Some? {
      var expires := if status.status.expiresAt.Some? then status.status.expiresAt.value else "";
      ShellCompletes(start, w0, Sync(id, expires), At(sch, 1));
      BothComplete(start, ToShell(w0, Sync(id, expires), At(sch, 1)).0, GrantCmd(id), At(sch, 2), At(sch, 3));
    } else {
      BothComplete(start, w0, GrantCmd(id), At(sch, 2), At(sch, 3));
    }
  }

  lemma ReleaseCompletes(start: Snapshot, w: World, id: string, still: bool, sch: Schedule)
    requires Complete(start, w)
    ensures Complete(start, ReleaseRun(w, id, still, sch).0)
  {
    StatusesComplete(start, w, sch);
    var w1 := Statuses(w, sch).0;
    BothComplete(start, w1, ReleaseCmd(id), At(sch, 2), At(sch, 3));
    var w2 := Both(w1, ReleaseCmd(id), At(sch, 2), At(sch, 3)).0;
    BrowserCompletes(start, w2, Observe(still), At(sch, 4));
    var (w3, seen) := ToBrowser(w2, Observe(still), At(sch, 4));
    if seen.Seen? {
      BothComplete(start, w3, Validate(seen.still), At(sch, 5), At(sch, 6));
    }
  }

  lemma PerformCompletes(start: Snapshot, w: World, op: Op, sch: Schedule)
    requires Complete(start, w)
    ensures Complete(start, Perform(w, op, sch).0)
  {
    match op
    case DoGrant(id) =>
      GrantCompletes(start, w, id, sch);
    case DoDecline(id) =>
      StatusesComplete(start, w, sch);
      BothComplete(start, Statuses(w, sch).0, DeclineCmd(id), At(sch, 2), At(sch, 3));
    case DoRelease(id, still) =>
      ReleaseCompletes(start, w, id, still, sch);
    case DoExpire(id) =>
      BothComplete(start, w, TtlCmd(id), At(sch, 0), At(sch, 1));
    case DoSync(id, expiresAt) =>
      BothComplete(start, w, Sync(id, expiresAt), At(sch, 0), At(sch, 1));
    case DoAsk(ask) =>
      AskedCompletes(start, w, Env(Some(ask), Clean, ""));
  }

  lemma {:induction false} AllComplete(start: Snapshot, w: World, ops: seq<(Op, Schedule)>)
    requires Complete(start, w)
    ensures Complete(start, RunAll(w, ops))
    decreases |ops|
  {
    if ops != [] {
      PerformCompletes(start, w, ops[0].0, ops[0].1);
      AllComplete(start, Perform(w, ops[0].0, ops[0].1).0, ops[1..]);
    }
  }

  /** Main result: the recorded moments of every run are all there are. */
  lemma HistoryIsComplete(hasShell: bool, ops: seq<(Op, Schedule)>)
    ensures Complete(Now(Start(hasShell)), RunAll(Start(hasShell), ops))
  {
    AllComplete(Now(Start(hasShell)), Start(hasShell), ops);
  }

  // ---------- only faults fail ----------

  lemma HandledNeverFails(s: Session, c: Command, deadline: string)
    ensures !Handled(s, c, deadline).1.Failed?
  {
  }

  lemma BrowserNeverFails(w: World, c: Command, env: Env)
    requires env.outcome == Clean
    ensures !ToBrowser(w, c, env).1.Failed?
  {
    HandledNeverFails(Asked(w, env).browser, c, env.deadline);
  }

  lemma ShellNeverFails(w: World, c: Command, env: Env)
    requires env.outcome == Clean && w.shell.Some?
    ensures !ToShell(w, c, env).1.Failed?
  {
    HandledNeverFails(Asked(w, env).shell.value, c, env.deadline);
  }

  lemma BothNeverFail(w: World, c: Command, first: Env, second: Env)
    requires first.outcome == Clean && second.outcome == Clean
    ensures !Both(w, c, first, second).1.Failed?
  {
    BrowserNeverFails(w, c, first);
    var (b, reply) := ToBrowser(w, c, first);
    if reply.Accepted? && b.shell.Some? {
      ShellNeverFails(b, c, second);
    }
  }

  predicate Faultless(sch: Schedule) {
    forall i | 0 <= i < |sch| :: sch[i].outcome == Clean
  }

  lemma StatusesNeverFail(w: World, sch: Schedule)
    requires Faultless(sch)
    ensures !Statuses(w, sch).1.Failed? && !Statuses(w, sch).2.Failed?
  {
    BrowserNeverFails(w, Status, At(sch, 0));
    var w0 := ToBrowser(w, Status, At(sch, 0)).0;
    if w0.shell.Some? {
      ShellNeverFails(w0, Status, At(sch, 1));
    }
  }

  lemma GrantNeverFails(w: World, id: string, sch: Schedule)
    requires Faultless(sch)
    ensures !GrantRun(w, id, sch).1.Failed?
  {
    BrowserNeverFails(w, Status, At(sch, 0));
    var (w0, status) := ToBrowser(w, Status, At(sch, 0));
    if status.Accepted? && w0.shell.Some? {
      var expires := if status.status.expiresAt.Some? then status.status.expiresAt.value else "";
      ShellNeverFails(w0, Sync(id, expires), At(sch, 1));
      BothNeverFail(ToShell(w0, Sync(id, expires), At(sch, 1)).0, GrantCmd(id), At(sch, 2), At(sch, 3));
    } else {
      BothNeverFail(w0, GrantCmd(id), At(sch, 2), At(sch, 3));
    }
  }

  lemma ReleaseNeverFails(w: World, id: string, still: bool, sch: Schedule)
    requires Faultless(sch)
    ensures !ReleaseRun(w, id, still, sch).1.Failed?
  {
    StatusesNeverFail(w, sch);
    var w1 := Statuses(w, sch).0;
    BothNeverFail(w1, ReleaseCmd(id), At(sch, 2), At(sch, 3));
    var w2 := Both(w1, ReleaseCmd(id), At(sch, 2), At(sch, 3)).0;
    BrowserNeverFails(w2, Observe(still), At(sch, 4));
    var (w3, seen) := ToBrowser(w2, Observe(still), At(sch, 4));
    if seen.Seen? {
      BothNeverFail(w3, Validate(seen.still), At(sch, 5), At(sch, 6));
    }
  }

  /** Without faults no operation fails: it is accepted or refused. */
  lemma OnlyFaultsFail(w: World, op: Op, sch: Schedule)
    requires Faultless(sch)
    ensures !Perform(w, op, sch).1.Failed?
  {
    match op
    case DoGrant(id) =>
      GrantNeverFails(w, id, sch);
    case DoDecline(id) =>
      StatusesNeverFail(w, sch);
      BothNeverFail(Statuses(w, sch).0, DeclineCmd(id), At(sch, 2), At(sch, 3));
    case DoRelease(id, still) =>
      ReleaseNeverFails(w, id, still, sch);
    case DoExpire(id) =>
      BothNeverFail(w, TtlCmd(id), At(sch, 0), At(sch, 1));
    case DoSync(id, expiresAt) =>
      BothNeverFail(w, Sync(id, expiresAt), At(sch, 0), At(sch, 1));
    case DoAsk(_) =>
  }
}
