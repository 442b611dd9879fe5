/**
 * What every run of the takeover client keeps, whatever fails and whenever the model asks: nobody acts for the
 * model while a person has the desktop.
 */
module HandoverSafety {
  import opened Wrappers
  import opened Takeover
  import opened TakeoverClient

  /**
   * While a person holds the browser, or it is being validated, the shell is not the agent's; and no session is
   * ever terminated by these operations.
   */
  predicate Safe(s: Snapshot) {
    && (s.browser.state == Human || s.browser.state == Validating ==>
          s.shell.Some? ==> s.shell.value.state != Agent)
    && s.browser.state != Terminated && (s.shell.Some? ==> s.shell.value.state != Terminated)
  }

  /** Safe now and ever before. */
  predicate Inv(w: World) {
    Safe(Now(w)) && forall i | 0 <= i < |w.history| :: Safe(w.history[i])
  }

  /** What the gates then let through: no tool on either side, and live input for a person only. */
  ghost predicate Guarded(s: Snapshot) {
    && (s.browser.state == Human || s.browser.state == Validating ==>
          !Gate(s.browser, Tool) && (s.shell.Some? ==> s.shell.value.state != Agent && !Gate(s.shell.value, Tool)))
    && forall e :: Gate(s.browser, LiveInput(e)) ==> s.browser.state == Human && e == Some(s.browser.epoch)
  }

  lemma AskedKeeps(w: World, env: Env)
    requires Inv(w)
    ensures var a := Asked(w, env);
            && Inv(a) && a.shell == w.shell
            && (a.browser == w.browser || (w.browser.state in {Agent, Paused} && a.browser.state == Requested))
  {
  }

  /** A browser request keeps the invariant unless it may start human control over an agent shell. */
  lemma BrowserKeeps(w: World, c: Command, env: Env)
    requires Inv(w)
    requires c.GrantCmd? && w.shell.Some? ==> w.shell.value.state != Agent
    requires !c.Ask? && !c.SyncHuman?
    ensures Inv(ToBrowser(w, c, env).0) && ToBrowser(w, c, env).0.shell == w.shell
  {
    AskedKeeps(w, env);
  }

  /** A shell request keeps the invariant if it cannot give the shell back during human control. */
  lemma ShellKeeps(w: World, c: Command, env: Env)
    requires Inv(w) && w.shell.Some? && !c.Ask? && !c.SyncHuman?
    requires c.DeclineCmd? || c == Validate(false) ==> w.browser.state != Human && w.browser.state != Validating
    ensures Inv(ToShell(w, c, env).0) && ToShell(w, c, env).0.shell.Some?
  {
    AskedKeeps(w, env);
  }

  lemma BothKeeps(w: World, c: Command, first: Env, second: Env)
    requires Inv(w) && !c.Ask? && !c.SyncHuman?
    requires c.GrantCmd? && w.shell.Some? ==> w.shell.value.state != Agent
    ensures Inv(Both(w, c, first, second).0)
  {
    BrowserKeeps(w, c, first);
    var (b, reply) := ToBrowser(w, c, first);
    if reply.Accepted? && b.shell.Some? {
      ShellKeeps(b, c, second);
    }
  }

  lemma StatusesKeep(w: World, sch: Schedule)
    requires Inv(w)
    ensures Inv(Statuses(w, sch).0)
  {
    BrowserKeeps(w, Status, At(sch, 0));
    var w0 := ToBrowser(w, Status, At(sch, 0)).0;
    if w0.shell.Some? {
      ShellKeeps(w0, Status, At(sch, 1));
    }
  }

  lemma GrantKeeps(w: World, id: string, sch: Schedule)
    requires Inv(w)
    ensures Inv(GrantRun(w, id, sch).0)
  {
    BrowserKeeps(w, Status, At(sch, 0));
    var (w0, status) := ToBrowser(w, Status, At(sch, 0));
    if status.Accepted? && w0.shell.Some? {
      var expires := if status.status.expiresAt.Some? then status.status.expiresAt.value else "";
      ShellKeeps(w0, Sync(id, expires), At(sch, 1));
      var (w1, synced) := ToShell(w0, Sync(id, expires), At(sch, 1));
      if synced.Accepted? {
        BothKeeps(w1, GrantCmd(id), At(sch, 2), At(sch, 3));
      }
    } else if status.Accepted? {
      BothKeeps(w0, GrantCmd(id), At(sch, 2), At(sch, 3));
    }
  }

  lemma ValidationKeeps(w: World, still: bool, sch: Schedule)
    requires Inv(w)
    ensures Inv(Validation(w, still, sch).0)
  {
    BrowserKeeps(w, Observe(still), At(sch, 4));
    var (w1, seen) := ToBrowser(w, Observe(still), At(sch, 4));
    if seen.Seen? {
      BothKeeps(w1, Validate(seen.still), At(sch, 5), At(sch, 6));
    }
  }

  lemma ReleaseKeeps(w: World, id: string, still: bool, sch: Schedule)
    requires Inv(w)
    ensures Inv(ReleaseRun(w, id, still, sch).0)
  {
    StatusesKeep(w, sch);
    var w1 := Statuses(w, sch).0;
    BothKeeps(w1, ReleaseCmd(id), At(sch, 2), At(sch, 3));
    ValidationKeeps(Both(w1, ReleaseCmd(id), At(sch, 2), At(sch, 3)).0, still, sch);
  }

  lemma PerformKeeps(w: World, op: Op, sch: Schedule)
    requires Inv(w)
    ensures Inv(Perform(w, op, sch).0)
  {
    match op
    case DoGrant(id) =>
      GrantKeeps(w, id, sch);
    case DoDecline(id) =>
      StatusesKeep(w, sch);
      BothKeeps(Statuses(w, sch).0, DeclineCmd(id), At(sch, 2), At(sch, 3));
    case DoRelease(id, still) =>
      ReleaseKeeps(w, id, still, sch);
    case DoExpire(id) =>
      BothKeeps(w, TtlCmd(id), At(sch, 0), At(sch, 1));
    case DoSync(id, expiresAt) =>
      BothKeeps(w, Sync(id, expiresAt), At(sch, 0), At(sch, 1));
    case DoAsk(ask) =>
      AskedKeeps(w, Env(Some(ask), Clean, ""));
  }

  lemma {:induction false} RunKeeps(w: World, ops: seq<(Op, Schedule)>)
    requires Inv(w)
    ensures Inv(RunAll(w, ops))
    decreases |ops|
  {
    if ops != [] {
      PerformKeeps(w, ops[0].0, ops[0].1);
      RunKeeps(Perform(w, ops[0].0, ops[0].1).0, ops[1..]);
    }
  }

  lemma SafeIsGuarded(s: Snapshot)
    requires Safe(s)
    ensures Guarded(s)
  {
  }

  /**
   * Main result: in every run, whatever request fails and whenever the model asks, at every moment in which the
   * browser is human or validating the shell is not the agent's and the gates refuse every tool on both sides;
   * and at every moment live input passes for a person's own epoch only.
   */
  lemma TakeoverSafety(hasShell: bool, ops: seq<(Op, Schedule)>)
    ensures var w := RunAll(Start(hasShell), ops);
            Guarded(Now(w)) && forall i | 0 <= i < |w.history| :: Guarded(w.history[i])
  {
    RunKeeps(Start(hasShell), ops);
    var w := RunAll(Start(hasShell), ops);
    SafeIsGuarded(Now(w));
    forall i | 0 <= i < |w.history|
      ensures Guarded(w.history[i])
    {
      SafeIsGuarded(w.history[i]);
    }
  }
}
