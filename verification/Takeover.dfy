/**
 * The takeover state machine of one container: the transition table, the session object, the gate in
 * front of every method, and the takeover cases of the dispatcher.
 */
module Takeover {
  import opened Wrappers

  datatype State = Agent | Requested | Human | Validating | Paused | Terminated

  datatype Event = Request | Grant | Release | Decline | Validated | StillSensitive | Ttl | Stop

  /** The rows of the transition table. */
  function Transition(state: State, event: Event): Option<State> {
    match (state, event)
    case (Agent, Request) => Some(Requested)
    case (Requested, Grant) => Some(Human)
    case (Requested, Decline) => Some(Agent)
    case (Paused, Decline) => Some(Agent)
    case (Human, Release) => Some(Validating)
    case (Validating, Validated) => Some(Agent)
    case (Validating, StillSensitive) => Some(Human)
    case (Requested, Ttl) => Some(Paused)
    case (Human, Ttl) => Some(Paused)
    case (Validating, Ttl) => Some(Paused)
    case (Paused, Request) => Some(Requested)
    case (Terminated, Stop) => None
    case (_, Stop) => Some(Terminated)
    case _ => None
  }

  predicate Busy(state: State) {
    state.Requested? || state.Human? || state.Validating? || state.Paused?
  }

  /** The session's fields; an absent identifier or deadline is null. */
  datatype Session = Session(
    state: State,
    takeoverId: Option<string>,
    expiresAt: Option<string>,
    epoch: int,
    reason: Option<string>)

  const NEW_SESSION := Session(Agent, None, None, 1, None)

  /** What the environment decides about one request: see `Outcome`; `deadline` is the renewed lease. */
  datatype Outcome =
    | Clean
    | NoEffect    // lost on the way, or the handler threw before its transition
    | EffectOnly  // the handler threw after its transition, or the reply was lost

  datatype Command =
    | Status
    | Sync(id: string, expiresAt: string)
    | SyncHuman(id: string, expiresAt: string, epoch: Option<real>)
    | GrantCmd(id: string)
    | ReleaseCmd(id: string)
    | DeclineCmd(id: string)
    | Validate(still: bool)
    | TtlCmd(id: string)
    | Observe(still: bool)
    | Ask(id: string, reason: string)

  datatype StatusData = StatusData(state: State, takeoverId: string, expiresAt: Option<string>, epoch: int)

  datatype Reply = Accepted(status: StatusData) | Seen(still: bool) | Refused | Failed

  function Payload(s: Session): StatusData {
    StatusData(s.state, if s.takeoverId.Some? then s.takeoverId.value else "", s.expiresAt, s.epoch)
  }

  /** A given id cannot address a different active session. */
  predicate IdMismatch(s: Session, id: string) {
    id != "" && s.takeoverId.Some? && s.takeoverId.value != "" && id != s.takeoverId.value
  }

  /** The session after an accepted event; `id` names a fresh request, `deadline` a renewed lease. */
  function After(s: Session, event: Event, id: string, deadline: string): Session
    requires Transition(s.state, event).Some?
  {
    var next := Transition(s.state, event).value;
    var asked := if event == Request then s.(takeoverId := Some(id), epoch := s.epoch + 1) else s;
    var renewed := if next == Human then asked.(expiresAt := Some(deadline)) else asked;
    var counted := if event == Decline then renewed.(epoch := renewed.epoch + 1) else renewed;
    var moved := counted.(state := next);
    if next == Agent then moved.(takeoverId := None, expiresAt := None, reason := None) else moved
  }

  /** The session a command leaves and the reply it makes when nothing goes wrong. */
  function Handled(s: Session, c: Command, deadline: string): (Session, Reply) {
    match c
    case Status => (s, Accepted(Payload(s)))
    case Observe(still) => (s, Seen(still))
    case Sync(id, expiresAt) =>
      var next := s.(takeoverId := Some(id), expiresAt := Some(expiresAt), state := Requested, epoch := s.epoch + 1);
      (next, Accepted(Payload(next)))
    case SyncHuman(id, expiresAt, epoch) =>
      var next := s.(takeoverId := Some(id), expiresAt := Some(expiresAt), state := Human,
                     epoch := if epoch.Some? && epoch.value > 0.0 then epoch.value.Floor else s.epoch);
      (next, Accepted(Payload(next)))
    case GrantCmd(id) => Moved(s, id, Grant, deadline)
    case ReleaseCmd(id) => Moved(s, id, Release, deadline)
    case DeclineCmd(id) =>
      if !IdMismatch(s, id) && s.state == Agent then (s, Accepted(Payload(s))) else Moved(s, id, Decline, deadline)
    case Validate(still) => Moved(s, "", if still then StillSensitive else Validated, deadline)
    case TtlCmd(id) => Moved(s, id, Ttl, deadline)
    case Ask(id, reason) =>
      if Transition(s.state, Request).None? then (s, Refused)
      else
        var next := After(s, Request, id, deadline).(reason := if reason == "" then None else Some(reason));
        (next, Accepted(Payload(next)))
  }

  function Moved(s: Session, id: string, event: Event, deadline: string): (Session, Reply) {
    if IdMismatch(s, id) || Transition(s.state, event).None? then (s, Refused)
    else (After(s, event, id, deadline), Accepted(Payload(After(s, event, id, deadline))))
  }

  /** One request as the caller experiences it. */
  function Dispatched(s: Session, c: Command, outcome: Outcome, deadline: string): (Session, Reply) {
    match outcome
    case Clean => Handled(s, c, deadline)
    case NoEffect => (s, Failed)
    case EffectOnly => (Handled(s, c, deadline).0, Failed)
  }

  // ---------- the gate ----------

  /** The methods, as the gate tells them apart. */
  datatype Method =
    | LiveInput(epoch: Option<int>)  // pointer, key and text input of the operator
    | Control                        // takeover control, screencast, quarantine, introspection
    | ExemptTool                     // takeover_status and done
    | Tool                           // every other tool

  /** Whether the gate lets a method through. */
  predicate Gate(s: Session, m: Method) {
    match m
    case LiveInput(epoch) => s.state == Human && epoch == Some(s.epoch)
    case Control => true
    case ExemptTool => true
    case Tool => !Busy(s.state)
  }

  // ---------- the object ----------

  class TakeoverSession {
    var state: State
    var takeoverId: Option<string>
    var expiresAt: Option<string>
    var epoch: int
    var reason: Option<string>

    function View(): Session
      reads this
    {
      Session(state, takeoverId, expiresAt, epoch, reason)
    }

    constructor ()
      ensures View() == NEW_SESSION
    {
      state, takeoverId, expiresAt, epoch, reason := Agent, None, None, 1, None;
    }

    method GateMethod(m: Method, deadline: string) returns (pass: bool)
      modifies this
      ensures pass == Gate(old(View()), m)
      ensures View() == if pass && m.LiveInput? then old(View()).(expiresAt := Some(deadline)) else old(View())
    {
      if m.LiveInput? {
        if state != Human || m.epoch != Some(epoch) {
          return false;
        }
        expiresAt := Some(deadline);
        return true;
      }
      if !Busy(state) {
        return true;
      }
      return m.Control? || m.ExemptTool?;
    }

    method Move(event: Event, id: string, deadline: string) returns (next: Option<State>)
      modifies this
      ensures next == Transition(old(state), event)
      ensures View() == if next.Some? then After(old(View()), event, id, deadline) else old(View())
    {
      next := Transition(state, event);
      if next.None? {
        return;
      }
      state := next.value;
      if event == Request {
        takeoverId := Some(id);
        epoch := epoch + 1;
      }
      if next.value == Human {
        expiresAt := Some(deadline);
      }
      if event == Decline {
        epoch := epoch + 1;
      }
      if next.value == Agent {
        takeoverId, expiresAt, reason := None, None, None;
      }
    }

    method Dispatch(c: Command, outcome: Outcome, deadline: string) returns (reply: Reply)
      modifies this
      ensures (View(), reply) == Dispatched(old(View()), c, outcome, deadline)
    {
      if outcome == NoEffect {
        return Failed;
      }
      var done: Option<State>;
      match c {
        case Status =>
          reply := Accepted(Payload(View()));
        case Observe(still) =>
          reply := Seen(still);
        case Sync(id, expires) =>
          takeoverId, expiresAt := Some(id), Some(expires);
          state := Requested;
          epoch := epoch + 1;
          reply := Accepted(Payload(View()));
        case SyncHuman(id, expires, given) =>
          takeoverId, expiresAt := Some(id), Some(expires);
          state := Human;
          if given.Some? && given.value > 0.0 {
            epoch := given.value.Floor;
          }
          reply := Accepted(Payload(View()));
        case GrantCmd(id) =>
          reply := MoveFor(id, Grant, deadline);
        case ReleaseCmd(id) =>
          reply := MoveFor(id, Release, deadline);
        case DeclineCmd(id) =>
          if !IdMismatch(View(), id) && state == Agent {
            reply := Accepted(Payload(View()));
          } else {
            reply := MoveFor(id, Decline, deadline);
          }
        case Validate(still) =>
          reply := MoveFor("", if still then StillSensitive else Validated, deadline);
        case TtlCmd(id) =>
          reply := MoveFor(id, Ttl, deadline);
        case Ask(id, why) =>
          done := Move(Request, id, deadline);
          if done.None? {
            reply := Refused;
          } else {
            reason := if why == "" then None else Some(why);
            reply := Accepted(Payload(View()));
          }
      }
      if outcome == EffectOnly {
        reply := Failed;
      }
    }

    method MoveFor(id: string, event: Event, deadline: string) returns (reply: Reply)
      modifies this
      ensures (View(), reply) == Moved(old(View()), id, event, deadline)
    {
      if IdMismatch(View(), id) {
        return Refused;
      }
      var next := Move(event, id, deadline);
      if next.None? {
        return Refused;
      }
      return Accepted(Payload(View()));
    }
  }
}
