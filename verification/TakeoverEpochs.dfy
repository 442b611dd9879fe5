/**
 * One takeover session over time: its epoch tells one handover from the next, so that input of one person
 * never passes in another's turn, and what it remembers while nobody holds control.
 */
module TakeoverEpochs {
  import opened Wrappers
  import opened Takeover

  /** A command as the dispatcher takes it, with what the environment does about it. */
  datatype Request = Request(command: Command, outcome: Outcome, deadline: string)

  function Next(s: Session, r: Request): Session {
    Dispatched(s, r.command, r.outcome, r.deadline).0
  }

  /** A session's life under any commands but the one that restores it from outside. */
  ghost predicate Life(sessions: seq<Session>, requests: seq<Request>) {
    && |sessions| == |requests| + 1
    && forall k: nat | k < |requests| ::
         !requests[k].command.SyncHuman? && sessions[k + 1] == Next(sessions[k], requests[k])
  }

  // ---------- the table, row by row ----------

  datatype Row = Row(from: State, event: Event, to: State)

  const ROWS := [
    Row(Agent, Event.Request, Requested),
    Row(Requested, Grant, Human),
    Row(Requested, Decline, Agent),
    Row(Paused, Decline, Agent),
    Row(Human, Release, Validating),
    Row(Validating, Validated, Agent),
    Row(Validating, StillSensitive, Human),
    Row(Requested, Ttl, Paused),
    Row(Human, Ttl, Paused),
    Row(Validating, Ttl, Paused),
    Row(Paused, Event.Request, Requested),
    Row(Agent, Stop, Terminated),
    Row(Requested, Stop, Terminated),
    Row(Human, Stop, Terminated),
    Row(Validating, Stop, Terminated),
    Row(Paused, Stop, Terminated)]

  /** The transitions are the rows of the table and no others. */
  lemma TransitionsAreRows(from: State, event: Event, to: State)
    ensures Transition(from, event) == Some(to) <==> Row(from, event, to) in ROWS
  {
  }

  // ---------- epochs ----------

  /** From one moment to the next the epoch never goes back, and goes on with every way into a request. */
  predicate EpochStep(s: Session, next: Session) {
    && next.epoch >= s.epoch
    && (next.state == Requested && s.state != Requested ==> next.epoch > s.epoch)
    && (next.state == Human && s.state != Human ==>
          (s.state == Requested || s.state == Validating) && next.epoch == s.epoch)
    && (next.state == Validating && s.state != Validating ==> s.state == Human && next.epoch == s.epoch)
    && (next.state == s.state && next.epoch != s.epoch ==> s.state == Requested)
  }

  lemma MovedEpoch(s: Session, id: string, event: Event, deadline: string)
    requires !event.Request?
    ensures EpochStep(s, Moved(s, id, event, deadline).0)
  {
  }

  lemma HandledEpoch(s: Session, c: Command, deadline: string)
    requires !c.SyncHuman?
    ensures EpochStep(s, Handled(s, c, deadline).0)
  {
    match c
    case GrantCmd(id) => MovedEpoch(s, id, Grant, deadline);
    case ReleaseCmd(id) => MovedEpoch(s, id, Release, deadline);
    case DeclineCmd(id) => MovedEpoch(s, id, Decline, deadline);
    case Validate(still) => MovedEpoch(s, "", if still then StillSensitive else Validated, deadline);
    case TtlCmd(id) => MovedEpoch(s, id, Ttl, deadline);
    case _ =>
  }

  lemma StepEpoch(s: Session, r: Request)
    requires !r.command.SyncHuman?
    ensures EpochStep(s, Next(s, r))
  {
    HandledEpoch(s, r.command, r.deadline);
  }

  /** Main result: the epoch never decreases. */
  lemma {:induction false} EpochNeverDecreases(sessions: seq<Session>, requests: seq<Request>, i: nat, j: nat)
    requires Life(sessions, requests) && i <= j <= |requests|
    ensures sessions[i].epoch <= sessions[j].epoch
    decreases j
  {
    if i < j {
      EpochNeverDecreases(sessions, requests, i, j - 1);
      StepEpoch(sessions[j - 1], requests[j - 1]);
    }
  }

  /** A person has control, or has just given it back and may get it again at once. */
  predicate SameTurn(s: State) {
    s == Human || s == Validating
  }

  /** As long as the turn lasts, the epoch does. */
  lemma {:induction false} TurnKeepsEpoch(sessions: seq<Session>, requests: seq<Request>, i: nat, j: nat)
    requires Life(sessions, requests) && i <= j <= |requests|
    requires forall k | i <= k <= j :: SameTurn(sessions[k].state)
    ensures sessions[j].epoch == sessions[i].epoch
    decreases j
  {
    if i < j {
      TurnKeepsEpoch(sessions, requests, i, j - 1);
      StepEpoch(sessions[j - 1], requests[j - 1]);
      assert SameTurn(sessions[j - 1].state) && SameTurn(sessions[j].state);
    }
  }

  /** From a turn, a request is of a later epoch. */
  lemma {:induction false} RequestIsLater(sessions: seq<Session>, requests: seq<Request>, i: nat, j: nat)
    requires Life(sessions, requests) && i <= j <= |requests| && sessions[i].state != Requested
    ensures sessions[j].state == Requested ==> sessions[j].epoch > sessions[i].epoch
    decreases j
  {
    if i < j {
      RequestIsLater(sessions, requests, i, j - 1);
      EpochNeverDecreases(sessions, requests, i, j - 1);
      StepEpoch(sessions[j - 1], requests[j - 1]);
    }
  }

  /** From a state in which nobody has control or asks for it, the next turn is of a later epoch. */
  lemma {:induction false} TurnIsLater(sessions: seq<Session>, requests: seq<Request>, i: nat, j: nat)
    requires Life(sessions, requests) && i <= j <= |requests|
    requires !SameTurn(sessions[i].state) && sessions[i].state != Requested
    ensures SameTurn(sessions[j].state) || sessions[j].state == Requested ==> sessions[j].epoch > sessions[i].epoch
    decreases j
  {
    if i < j {
      TurnIsLater(sessions, requests, i, j - 1);
      EpochNeverDecreases(sessions, requests, i, j - 1);
      StepEpoch(sessions[j - 1], requests[j - 1]);
    }
  }

  /** Main result: between two moments of human control the epoch stays exactly if the turn does. */
  lemma SameEpochIff(sessions: seq<Session>, requests: seq<Request>, i: nat, j: nat)
    requires Life(sessions, requests) && i <= j <= |requests|
    requires sessions[i].state == Human && sessions[j].state == Human
    ensures sessions[i].epoch == sessions[j].epoch <==> forall k | i <= k <= j :: SameTurn(sessions[k].state)
  {
    if forall k | i <= k <= j :: SameTurn(sessions[k].state) {
      TurnKeepsEpoch(sessions, requests, i, j);
    } else {
      var k :| i <= k <= j && !SameTurn(sessions[k].state);
      EpochNeverDecreases(sessions, requests, i, k);
      EpochNeverDecreases(sessions, requests, k, j);
      if sessions[k].state == Requested {
        RequestIsLater(sessions, requests, i, k);
      } else {
        TurnIsLater(sessions, requests, k, j);
      }
    }
  }

  /**
   * Main result: input bearing an epoch passes the gate at two moments only within one turn. Once the desktop has
   * been anywhere else in between, what passed before is refused.
   */
  lemma InputPassesInOneTurn(sessions: seq<Session>, requests: seq<Request>, i: nat, j: nat, epoch: Option<int>)
    requires Life(sessions, requests) && i <= j <= |requests|
    requires Gate(sessions[i], LiveInput(epoch)) && Gate(sessions[j], LiveInput(epoch))
    ensures forall k | i <= k <= j :: SameTurn(sessions[k].state)
  {
    SameEpochIff(sessions, requests, i, j);
  }

  /** The gate, state by state: input for the human's epoch, tools when the session is not in use, the rest always. */
  lemma GateByState(s: Session, m: Method)
    ensures m.LiveInput? ==> (Gate(s, m) <==> s.state == Human && m.epoch == Some(s.epoch))
    ensures m.Tool? ==> (Gate(s, m) <==> s.state == Agent || s.state == Terminated)
    ensures m.Control? || m.ExemptTool? ==> Gate(s, m)
  {
  }

  // ---------- what a session remembers ----------

  /** The agent's session holds nothing of the last handover; a human's has a lease. */
  predicate Remembers(s: Session) {
    && (s.state == Agent ==> s.takeoverId == None && s.expiresAt == None && s.reason == None)
    && (s.state == Human ==> s.expiresAt.Some?)
    && (s.state != Agent ==> s.takeoverId.Some?)
  }

  lemma MovedRemembers(s: Session, id: string, event: Event, deadline: string)
    requires Remembers(s) && !event.Request? && !event.Stop?
    ensures Remembers(Moved(s, id, event, deadline).0)
  {
  }

  lemma HandledRemembers(s: Session, c: Command, deadline: string)
    requires Remembers(s) && !c.SyncHuman?
    ensures Remembers(Handled(s, c, deadline).0)
  {
    match c
    case GrantCmd(id) => MovedRemembers(s, id, Grant, deadline);
    case ReleaseCmd(id) => MovedRemembers(s, id, Release, deadline);
    case DeclineCmd(id) => MovedRemembers(s, id, Decline, deadline);
    case Validate(still) => MovedRemembers(s, "", if still then StillSensitive else Validated, deadline);
    case TtlCmd(id) => MovedRemembers(s, id, Ttl, deadline);
    case _ =>
  }

  lemma StepRemembers(s: Session, r: Request)
    requires Remembers(s) && !r.command.SyncHuman?
    ensures Remembers(Next(s, r))
  {
    HandledRemembers(s, r.command, r.deadline);
  }

  /** Main result: in every life of a new session, at every moment. */
  lemma {:induction false} LifeRemembers(sessions: seq<Session>, requests: seq<Request>, k: nat)
    requires Life(sessions, requests) && k <= |requests| && sessions[0] == NEW_SESSION
    ensures Remembers(sessions[k])
  {
    if k > 0 {
      LifeRemembers(sessions, requests, k - 1);
      StepRemembers(sessions[k - 1], requests[k - 1]);
    }
  }

  /** What an accepted command leaves, in terms of its arguments. */
  lemma AcceptedLeaves(s: Session, r: Request)
    requires Dispatched(s, r.command, r.outcome, r.deadline).1.Accepted?
    ensures var next, c := Next(s, r), r.command;
            && (c.Ask? ==> next.takeoverId == Some(c.id) && next.epoch == s.epoch + 1
                           && next.reason == (if c.reason == "" then None else Some(c.reason)))
            && (c.GrantCmd? ==> next.expiresAt == Some(r.deadline) && next.takeoverId == s.takeoverId
                                && next.reason == s.reason && next.epoch == s.epoch)
            && (c.Sync? ==> next.takeoverId == Some(c.id) && next.expiresAt == Some(c.expiresAt)
                            && next.epoch == s.epoch + 1 && next.reason == s.reason)
            && (c.SyncHuman? ==> next.takeoverId == Some(c.id) && next.expiresAt == Some(c.expiresAt)
                                 && next.state == Human && next.reason == s.reason
                                 && (c.epoch.Some? && c.epoch.value > 0.0 ==> next.epoch == c.epoch.value.Floor)
                                 && ((c.epoch.Some? && c.epoch.value > 0.0) || next.epoch == s.epoch))
            && (c.DeclineCmd? && s.state != Agent ==> next.epoch == s.epoch + 1)
            && (c.ReleaseCmd? || c.TtlCmd? ==> next == s.(state := next.state))
            && (c.Validate? && c.still ==> next == s.(state := Human, expiresAt := Some(r.deadline)))
            && (c.Validate? && !c.still ==> next.epoch == s.epoch)
            && (c.Status? || c.Observe? ==> next == s)
  {
  }

  /** An accepted reply reports the session as the command leaves it. */
  lemma ReplyReports(s: Session, r: Request)
    requires Dispatched(s, r.command, r.outcome, r.deadline).1.Accepted?
    ensures var next, status := Next(s, r), Dispatched(s, r.command, r.outcome, r.deadline).1.status;
            && status.state == next.state && status.epoch == next.epoch && status.expiresAt == next.expiresAt
            && status.takeoverId == match next.takeoverId { case Some(id) => id case None => "" }
  {
  }

  /** Only a fault makes a request fail; a refusal, and a fault on the way there, leave the session as it was. */
  lemma FailsIff(s: Session, r: Request)
    ensures var reply := Dispatched(s, r.command, r.outcome, r.deadline).1;
            && (reply.Failed? <==> r.outcome == NoEffect || r.outcome == EffectOnly)
            && (reply.Refused? || r.outcome == NoEffect ==> Next(s, r) == s)
            && (r.outcome == EffectOnly ==> Next(s, r) == Handled(s, r.command, r.deadline).0)
  {
  }
}
