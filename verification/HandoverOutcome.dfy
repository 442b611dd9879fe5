/**
 * What the replies of the takeover client mean: where an accepted operation leaves both containers, which refusals
 * touch neither, and when an operation succeeds without faults.
 */
module HandoverOutcome {
  import opened Wrappers
  import opened Takeover
  import opened TakeoverClient

  // ---------- agreement ----------

  /** Where an accepted command leads. */
  function Target(c: Command): State {
    match c
    case GrantCmd(_) => Human
    case ReleaseCmd(_) => Validating
    case DeclineCmd(_) => Agent
    case Validate(still) => if still then Human else Agent
    case TtlCmd(_) => Paused
    case Sync(_, _) => Requested
    case SyncHuman(_, _, _) => Human
    case Ask(_, _) => Requested
    case Status => Agent
    case Observe(_) => Agent
  }

  predicate Moving(c: Command) {
    c.GrantCmd? || c.DeclineCmd? || c.ReleaseCmd? || c.Validate? || c.TtlCmd? || c.Sync? || c.SyncHuman?
  }

  lemma AcceptedTarget(s: Session, c: Command, outcome: Outcome, deadline: string)
    requires Moving(c) && Dispatched(s, c, outcome, deadline).1.Accepted?
    ensures Dispatched(s, c, outcome, deadline).0.state == Target(c)
    ensures Dispatched(s, c, outcome, deadline).1.status.state == Target(c)
  {
  }

  /** The model asks before a request, when the browser would take an ask in this state. */
  predicate Disturbs(env: Env, state: State) {
    env.ask.Some? && env.ask.value.Ask? && (state == Agent || state == Paused)
  }

  /**
   * An accepted step of both sides: the shell ends where the reply says, and so does the browser, exactly unless
   * the model asks before the request to the shell and the browser takes that ask.
   */
  lemma BothAgree(w: World, c: Command, first: Env, second: Env)
    requires Moving(c) && Both(w, c, first, second).1.Accepted?
    ensures var (done, reply) := Both(w, c, first, second);
            && reply.status.state == Target(c)
            && (done.shell.Some? ==> done.shell.value.state == Target(c))
            && (done.browser.state == Target(c) <==> !(done.shell.Some? && Disturbs(second, Target(c))))
  {
    AcceptedTarget(Asked(w, first).browser, c, first.outcome, first.deadline);
    var b := ToBrowser(w, c, first).0;
    if b.shell.Some? {
      AcceptedTarget(Asked(b, second).shell.value, c, second.outcome, second.deadline);
    }
  }

  /** Where an operation that returns ok leaves both containers. */
  function Goal(op: Op): State {
    match op
    case DoGrant(_) => Human
    case DoDecline(_) => Agent
    case DoRelease(_, still) => if still then Human else Agent
    case DoExpire(_) => Paused
    case DoSync(_, _) => Requested
    case DoAsk(_) => Requested
  }

  /** The request to the shell that completes an operation. */
  function LastRequest(op: Op): nat {
    match op
    case DoGrant(_) => 3
    case DoDecline(_) => 3
    case DoRelease(_, _) => 6
    case DoExpire(_) => 1
    case DoSync(_, _) => 1
    case DoAsk(_) => 0
  }

  /** The reply and the shell at the goal, and the browser too exactly unless an ask comes before `last`. */
  predicate Reached(w: World, reply: Reply, goal: State, last: Env)
  {
    && reply.Accepted? && reply.status.state == goal
    && (w.shell.Some? ==> w.shell.value.state == goal)
    && (w.browser.state == goal <==> !(w.shell.Some? && Disturbs(last, goal)))
  }

  lemma BothReach(w: World, c: Command, sch: Schedule, i: nat, j: nat)
    requires Moving(c) && Both(w, c, At(sch, i), At(sch, j)).1.Accepted?
    ensures var (done, reply) := Both(w, c, At(sch, i), At(sch, j)); Reached(done, reply, Target(c), At(sch, j))
  {
    BothAgree(w, c, At(sch, i), At(sch, j));
  }

  lemma GrantReaches(w: World, id: string, sch: Schedule)
    requires GrantRun(w, id, sch).1.Accepted?
    ensures var (done, reply) := GrantRun(w, id, sch); Reached(done, reply, Human, At(sch, 3))
  {
    var (w0, status) := ToBrowser(w, Status, At(sch, 0));
    if w0.shell.None? {
      BothReach(w0, GrantCmd(id), sch, 2, 3);
    } else {
      var expires := if status.status.expiresAt.Some? then status.status.expiresAt.value else "";
      BothReach(ToShell(w0, Sync(id, expires), At(sch, 1)).0, GrantCmd(id), sch, 2, 3);
    }
  }

  lemma ValidationReaches(w: World, still: bool, sch: Schedule)
    requires Validation(w, still, sch).1.Accepted?
    ensures var (done, reply) := Validation(w, still, sch);
            Reached(done, reply, if still then Human else Agent, At(sch, 6))
  {
    var (w1, seen) := ToBrowser(w, Observe(still), At(sch, 4));
    BothReach(w1, Validate(seen.still), sch, 5, 6);
  }

  /**
   * Main result: an operation that returns ok reports its goal and leaves the shell in it. The browser is in it
   * too, exactly unless the model asks between the two requests that complete the operation and the goal is a
   * state that takes asks: so always after a grant, a sync and a release that ends with the human.
   */
  lemma OkMeansAgreement(w: World, op: Op, sch: Schedule)
    ensures var (done, reply) := Perform(w, op, sch);
            reply.Accepted? ==> !op.DoAsk? && Reached(done, reply, Goal(op), At(sch, LastRequest(op)))
  {
    if Perform(w, op, sch).1.Accepted? {
      match op {
        case DoGrant(id) =>
          GrantReaches(w, id, sch);
        case DoDecline(id) =>
          BothReach(Statuses(w, sch).0, DeclineCmd(id), sch, 2, 3);
        case DoRelease(id, still) =>
          var released := Both(Statuses(w, sch).0, ReleaseCmd(id), At(sch, 2), At(sch, 3)).0;
          ValidationReaches(released, still, sch);
        case DoExpire(id) =>
          BothReach(w, TtlCmd(id), sch, 0, 1);
        case DoSync(id, expiresAt) =>
          BothReach(w, Sync(id, expiresAt), sch, 0, 1);
        case DoAsk(_) =>
      }
    }
  }

  /** One ask that can split the sides, and nothing else amiss. */
  function AskBeforeLast(ask: Command): Schedule {
    var quiet := Env(None, Clean, "");
    [quiet, quiet, quiet, Env(Some(ask), Clean, "")]
  }

  /**
   * Wherever a decline succeeds, an ask between its two last requests splits the sides under an ok reply: the
   * shell is the agent's and the browser waits for a person.
   */
  lemma DeclineSplits(w: World, id: string, ask: Command)
    requires w.shell.Some? && ask.Ask? && DeclineRun(w, id, []).1.Accepted?
    ensures var (done, reply) := DeclineRun(w, id, AskBeforeLast(ask));
            && reply.Accepted? && reply.status.state == Agent
            && done.browser.state == Requested && done.shell.value.state == Agent
  {
    var quiet, sch := Env(None, Clean, ""), AskBeforeLast(ask);
    assert At(sch, 0) == At(sch, 1) == At(sch, 2) == quiet && At(sch, 3) == Env(Some(ask), Clean, "");
    assert Statuses(w, sch) == Statuses(w, []);
    var w1 := Statuses(w, []).0;
    SplitBoth(w1, DeclineCmd(id), At(sch, 3));
    BothAgree(w1, DeclineCmd(id), quiet, At(sch, 3));
  }

  /** The shell does not mind an ask in the browser. */
  lemma SplitBoth(w: World, c: Command, second: Env)
    requires second.outcome == Clean && c.DeclineCmd?
    ensures var quiet := Env(None, Clean, "");
            Both(w, c, quiet, second).1.Accepted? <==> Both(w, c, quiet, quiet).1.Accepted?
  {
  }

  // ---------- refusals ----------

  predicate NoAsks(sch: Schedule) {
    forall i | 0 <= i < |sch| :: sch[i].ask.None?
  }

  /** A grant for anything but the open request reaches neither session: a stale id rewrites nothing. */
  lemma StaleGrantTouchesNothing(w: World, id: string, sch: Schedule)
    requires NoAsks(sch)
    requires Payload(w.browser).takeoverId != id || w.browser.state != Requested
    ensures var (done, reply) := GrantRun(w, id, sch);
            !reply.Accepted? && done.browser == w.browser && done.shell == w.shell
  {
  }

  /** If either side cannot go back to the agent under this id, a decline touches neither. */
  lemma InvalidDeclineTouchesNothing(w: World, id: string, sch: Schedule)
    requires NoAsks(sch)
    requires var b := w.browser; var s := if w.shell.Some? then w.shell.value else b;
             || (b.state != Agent && Transition(b.state, Decline).None?)
             || (s.state != Agent && Transition(s.state, Decline).None?)
             || Payload(b).takeoverId !in {"", id} || Payload(s).takeoverId !in {"", id}
    ensures var (done, reply) := DeclineRun(w, id, sch);
            !reply.Accepted? && done.browser == w.browser && done.shell == w.shell
  {
  }

  // ---------- without faults ----------

  /** Whether both sides would take an event, and neither is bound to another id. */
  predicate BothTake(w: World, id: string, event: Event) {
    && !IdMismatch(w.browser, id) && Transition(w.browser.state, event).Some?
    && (w.shell.Some? ==> !IdMismatch(w.shell.value, id) && Transition(w.shell.value.state, event).Some?)
  }

  lemma QuietBoth(w: World, c: Command, id: string, event: Event)
    requires (c == GrantCmd(id) && event == Grant) || (c == ReleaseCmd(id) && event == Release)
    ensures Both(w, c, Env(None, Clean, ""), Env(None, Clean, "")).1.Accepted? <==> BothTake(w, id, event)
  {
  }

  /** Undisturbed, a grant succeeds exactly for the open request, whatever state the shell was left in. */
  lemma GrantSucceedsIff(w: World, id: string)
    ensures GrantRun(w, id, []).1.Accepted? <==>
            Payload(w.browser).takeoverId == id && w.browser.state == Requested
  {
    var quiet := Env(None, Clean, "");
    var (w0, status) := ToBrowser(w, Status, quiet);
    assert w0.browser == w.browser && w0.shell == w.shell && status == Accepted(Payload(w.browser));
    if status.status.takeoverId == id && Transition(w.browser.state, Grant).Some? {
      if w.shell.None? {
        QuietBoth(w0, GrantCmd(id), id, Grant);
      } else {
        var expires := if status.status.expiresAt.Some? then status.status.expiresAt.value else "";
        var (w1, synced) := ToShell(w0, Sync(id, expires), quiet);
        assert synced.Accepted? && w1.browser == w.browser && w1.shell.value.state == Requested;
        QuietBoth(w1, GrantCmd(id), id, Grant);
      }
    }
  }

  /** Undisturbed, a decline succeeds exactly when both sides can go back to the agent under this id. */
  lemma DeclineSucceedsIff(w: World, id: string)
    ensures DeclineRun(w, id, []).1.Accepted? <==>
            var b := w.browser; var s := if w.shell.Some? then w.shell.value else b;
            && Payload(b).takeoverId in {"", id} && (b.state == Agent || Transition(b.state, Decline).Some?)
            && Payload(s).takeoverId in {"", id} && (s.state == Agent || Transition(s.state, Decline).Some?)
  {
    var (w1, browser, shell) := Statuses(w, []);
    assert w1.browser == w.browser && w1.shell == w.shell && browser == Accepted(Payload(w.browser));
    assert w.shell.Some? ==> shell == Accepted(Payload(w.shell.value));
  }

  /** Undisturbed, a release succeeds exactly when both sides are human's under this id. */
  lemma ReleaseSucceedsIff(w: World, id: string, still: bool)
    ensures ReleaseRun(w, id, still, []).1.Accepted? <==>
            var b := w.browser; var s := if w.shell.Some? then w.shell.value else b;
            && Payload(b).takeoverId in {"", id} && b.state == Human
            && Payload(s).takeoverId in {"", id} && s.state == Human
  {
    var (w1, browser, shell) := Statuses(w, []);
    var (w2, released) := Both(w1, ReleaseCmd(id), Env(None, Clean, ""), Env(None, Clean, ""));
    assert w1.browser == w.browser && w1.shell == w.shell && browser == Accepted(Payload(w.browser));
    assert w.shell.Some? ==> shell == Accepted(Payload(w.shell.value));
    QuietBoth(w1, ReleaseCmd(id), id, Release);
    if released.Accepted? {
      assert w2.browser.state == Validating && (w2.shell.Some? ==> w2.shell.value.state == Validating);
      QuietValidation(w2, still);
    }
  }

  lemma QuietValidation(w: World, still: bool)
    requires w.browser.state == Validating && (w.shell.Some? ==> w.shell.value.state == Validating)
    ensures Validation(w, still, []).1.Accepted?
  {
  }
}
