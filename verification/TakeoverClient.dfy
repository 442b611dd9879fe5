/**
 * The daemon's client: it drives the takeover of a browser container and a shell container by one
 * remote request after the other, any of which may fail, while the model may ask for a takeover between
 * any two of them.
 */
module TakeoverClient {
  import opened Wrappers
  import opened Takeover

  /** What the environment does around one remote request. */
  datatype Env = Env(ask: Option<Command>, outcome: Outcome, deadline: string)

  /** One entry per request; a schedule that runs out has no more faults. */
  type Schedule = seq<Env>

  function At(schedule: Schedule, i: nat): Env {
    if i < |schedule| then schedule[i] else Env(None, Clean, "")
  }

  /** Both sessions, as they stood after a request or an ask. */
  datatype Snapshot = Snapshot(browser: Session, shell: Option<Session>)

  /** Both containers (a computer may have no shell) and every pair of sessions they went through. */
  datatype World = World(browser: Session, shell: Option<Session>, history: seq<Snapshot>)

  function Now(w: World): Snapshot {
    Snapshot(w.browser, w.shell)
  }

  function Noted(w: World): World {
    w.(history := w.history + [Now(w)])
  }

  /** The model asks for a takeover in the browser container, or it does not. */
  function Asked(w: World, env: Env): World {
    if env.ask.Some? && env.ask.value.Ask? then Noted(w.(browser := Handled(w.browser, env.ask.value, env.deadline).0))
    else w
  }

  function ToBrowser(w: World, c: Command, env: Env): (World, Reply) {
    var asked := Asked(w, env);
    var (session, reply) := Dispatched(asked.browser, c, env.outcome, env.deadline);
    (Noted(asked.(browser := session)), reply)
  }

  function ToShell(w: World, c: Command, env: Env): (World, Reply)
    requires w.shell.Some?
  {
    var asked := Asked(w, env);
    var (session, reply) := Dispatched(asked.shell.value, c, env.outcome, env.deadline);
    (Noted(asked.(shell := Some(session))), reply)
  }

  /** The browser decides; the shell is touched once the browser has accepted. */
  function Both(w: World, c: Command, first: Env, second: Env): (World, Reply) {
    var (b, reply) := ToBrowser(w, c, first);
    if !reply.Accepted? || b.shell.None? then (b, reply)
    else
      var (done, answer) := ToShell(b, c, second);
      (done, if answer.Accepted? then reply else answer)
  }

  /** A reported id that is not ours; none is reported when nobody holds control. */
  predicate ReportsOther(reply: Reply, id: string) {
    reply.Accepted? && reply.status.takeoverId != "" && reply.status.takeoverId != id
  }

  predicate CanDecline(reply: Reply) {
    reply.Accepted? && (reply.status.state == Agent || Transition(reply.status.state, Decline).Some?)
  }

  function GrantRun(w: World, id: string, sch: Schedule): (World, Reply) {
    var (w0, status) := ToBrowser(w, Status, At(sch, 0));
    if !status.Accepted? then (w0, status)
    else if status.status.takeoverId != id || Transition(status.status.state, Grant).None? then (w0, Refused)
    else if w0.shell.None? then Both(w0, GrantCmd(id), At(sch, 2), At(sch, 3))
    else
      var expires := if status.status.expiresAt.Some? then status.status.expiresAt.value else "";
      var (w1, synced) := ToShell(w0, Sync(id, expires), At(sch, 1));
      if !synced.Accepted? then (w1, synced) else Both(w1, GrantCmd(id), At(sch, 2), At(sch, 3))
  }

  /** Both statuses, and the first failure among them. */
  function Statuses(w: World, sch: Schedule): (World, Reply, Reply) {
    var (w0, browser) := ToBrowser(w, Status, At(sch, 0));
    if w0.shell.None? then (w0, browser, browser)
    else
      var (w1, shell) := ToShell(w0, Status, At(sch, 1));
      (w1, browser, shell)
  }

  function DeclineRun(w: World, id: string, sch: Schedule): (World, Reply) {
    var (w1, browser, shell) := Statuses(w, sch);
    if !browser.Accepted? then (w1, browser)
    else if !shell.Accepted? then (w1, shell)
    else if ReportsOther(browser, id) || ReportsOther(shell, id) || !CanDecline(browser) || !CanDecline(shell) then
      (w1, Refused)
    else Both(w1, DeclineCmd(id), At(sch, 2), At(sch, 3))
  }

  /** The second half of a release, from the masked observation on. */
  function Validation(w: World, still: bool, sch: Schedule): (World, Reply) {
    var (w1, seen) := ToBrowser(w, Observe(still), At(sch, 4));
    if !seen.Seen? then (w1, seen) else Both(w1, Validate(seen.still), At(sch, 5), At(sch, 6))
  }

  function ReleaseRun(w: World, id: string, still: bool, sch: Schedule): (World, Reply) {
    var (w1, browser, shell) := Statuses(w, sch);
    if !browser.Accepted? then (w1, browser)
    else if !shell.Accepted? then (w1, shell)
    else if ReportsOther(browser, id) || ReportsOther(shell, id) then (w1, Refused)
    else
      var (w2, released) := Both(w1, ReleaseCmd(id), At(sch, 2), At(sch, 3));
      if !released.Accepted? then (w2, released) else Validation(w2, still, sch)
  }

  datatype Op =
    | DoGrant(id: string)
    | DoDecline(id: string)
    | DoRelease(id: string, still: bool)
    | DoExpire(id: string)
    | DoSync(id: string, expiresAt: string)
    | DoAsk(ask: Command)

  function Perform(w: World, op: Op, sch: Schedule): (World, Reply) {
    match op
    case DoGrant(id) => GrantRun(w, id, sch)
    case DoDecline(id) => DeclineRun(w, id, sch)
    case DoRelease(id, still) => ReleaseRun(w, id, still, sch)
    case DoExpire(id) => Both(w, TtlCmd(id), At(sch, 0), At(sch, 1))
    case DoSync(id, expiresAt) => Both(w, Sync(id, expiresAt), At(sch, 0), At(sch, 1))
    case DoAsk(ask) => (Asked(w, Env(Some(ask), Clean, "")), Refused)
  }

  function RunAll(w: World, ops: seq<(Op, Schedule)>): World
    decreases |ops|
  {
    if ops == [] then w else RunAll(Perform(w, ops[0].0, ops[0].1).0, ops[1..])
  }

  function Start(hasShell: bool): World {
    World(NEW_SESSION, if hasShell then Some(NEW_SESSION) else None, [])
  }

  // ---------- the client object over two session objects ----------

  class ExecClient {
    const browser: TakeoverSession
    const shell: TakeoverSession?
    ghost var history: seq<Snapshot>

    ghost function View(): World
      reads this, browser, shell
    {
      World(browser.View(), if shell == null then None else Some(shell.View()), history)
    }

    ghost predicate Valid()
    {
      browser != shell
    }

    constructor (hasShell: bool)
      ensures Valid() && fresh(browser) && (shell != null ==> fresh(shell))
      ensures View() == Start(hasShell)
    {
      history := [];
      browser := new TakeoverSession();
      if hasShell {
        shell := new TakeoverSession();
      } else {
        shell := null;
      }
    }

    method ModelAsks(env: Env)
      requires Valid()
      modifies this, browser
      ensures View() == Asked(old(View()), env)
    {
      if env.ask.Some? && env.ask.value.Ask? {
        var _ := browser.Dispatch(env.ask.value, Clean, env.deadline);
        history := history + [Now(View())];
      }
    }

    method RequestBrowser(c: Command, env: Env) returns (reply: Reply)
      requires Valid()
      modifies this, browser
      ensures (View(), reply) == ToBrowser(old(View()), c, env)
    {
      ModelAsks(env);
      reply := browser.Dispatch(c, env.outcome, env.deadline);
      history := history + [Now(View())];
    }

    method RequestShell(c: Command, env: Env) returns (reply: Reply)
      requires Valid() && shell != null
      modifies this, browser, shell
      ensures (View(), reply) == ToShell(old(View()), c, env)
    {
      ModelAsks(env);
      reply := shell.Dispatch(c, env.outcome, env.deadline);
      history := history + [Now(View())];
    }

    method RequestBoth(c: Command, first: Env, second: Env) returns (reply: Reply)
      requires Valid()
      modifies this, browser, shell
      ensures (View(), reply) == Both(old(View()), c, first, second)
    {
      reply := RequestBrowser(c, first);
      if !reply.Accepted? || shell == null {
        return;
      }
      var answer := RequestShell(c, second);
      if !answer.Accepted? {
        return answer;
      }
    }

    method GrantTakeover(id: string, sch: Schedule) returns (reply: Reply)
      requires Valid()
      modifies this, browser, shell
      ensures (View(), reply) == GrantRun(old(View()), id, sch)
    {
      var status := RequestBrowser(Status, At(sch, 0));
      if !status.Accepted? {
        return status;
      }
      if status.status.takeoverId != id || Transition(status.status.state, Grant).None? {
        return Refused;
      }
      if shell != null {
        var expires := if status.status.expiresAt.Some? then status.status.expiresAt.value else "";
        var synced := RequestShell(Sync(id, expires), At(sch, 1));
        if !synced.Accepted? {
          return synced;
        }
      }
      reply := RequestBoth(GrantCmd(id), At(sch, 2), At(sch, 3));
    }

    method ReadStatuses(sch: Schedule) returns (browserStatus: Reply, shellStatus: Reply)
      requires Valid()
      modifies this, browser, shell
      ensures (View(), browserStatus, shellStatus) == Statuses(old(View()), sch)
    {
      browserStatus := RequestBrowser(Status, At(sch, 0));
      shellStatus := browserStatus;
      if shell != null {
        shellStatus := RequestShell(Status, At(sch, 1));
      }
    }

    method DeclineTakeover(id: string, sch: Schedule) returns (reply: Reply)
      requires Valid()
      modifies this, browser, shell
      ensures (View(), reply) == DeclineRun(old(View()), id, sch)
    {
      var b, s := ReadStatuses(sch);
      if !b.Accepted? {
        return b;
      }
      if !s.Accepted? {
        return s;
      }
      if ReportsOther(b, id) || ReportsOther(s, id) || !CanDecline(b) || !CanDecline(s) {
        return Refused;
      }
      reply := RequestBoth(DeclineCmd(id), At(sch, 2), At(sch, 3));
    }

    method ReleaseTakeover(id: string, still: bool, sch: Schedule) returns (reply: Reply)
      requires Valid()
      modifies this, browser, shell
      ensures (View(), reply) == ReleaseRun(old(View()), id, still, sch)
    {
      var b, s := ReadStatuses(sch);
      if !b.Accepted? {
        return b;
      }
      if !s.Accepted? {
        return s;
      }
      if ReportsOther(b, id) || ReportsOther(s, id) {
        return Refused;
      }
      var released := RequestBoth(ReleaseCmd(id), At(sch, 2), At(sch, 3));
      if !released.Accepted? {
        return released;
      }
      var seen := RequestBrowser(Observe(still), At(sch, 4));
      if !seen.Seen? {
        return seen;
      }
      reply := RequestBoth(Validate(seen.still), At(sch, 5), At(sch, 6));
    }

    method ExpireTakeover(id: string, sch: Schedule) returns (reply: Reply)
      requires Valid()
      modifies this, browser, shell
      ensures (View(), reply) == Perform(old(View()), DoExpire(id), sch)
    {
      reply := RequestBoth(TtlCmd(id), At(sch, 0), At(sch, 1));
    }
  }
}
