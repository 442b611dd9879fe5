/**
 * The JSON-RPC relay: many socket clients share one upstream pipe, and every id is rewritten to name its
 * client. The relay is compared with a private pipe per client.
 */
module McpRelay {
  import opened Seqs
  import opened Wrappers

  /** JSON-RPC identifiers. */
  datatype Id = Num(n: int) | Str(s: string) | Null

  const CANCELLED := "notifications/cancelled"

  /** One line: `requestId` stands for `params.requestId`, `rest` for everything the relay copies. */
  datatype Message = Message(id: Option<Id>, name: Option<string>, requestId: Option<Id>, rest: string)

  /**
   * What a text taken apart as a pair gives: the pair of a client and its id, something that names no client
   * (another array, or a string), or an exception.
   */
  datatype Unwrapped = Pair(client: nat, original: Id) | NoClient | Unreadable

  /** The JSON text of the pair [client, id], and reading such a text back. */
  datatype Codec = Codec(wrap: (nat, Id) -> string, unwrap: string -> Unwrapped)

  ghost predicate Good(codec: Codec) {
    forall c: nat, i: Id :: codec.unwrap(codec.wrap(c, i)) == Pair(c, i)
  }

  function Tag(codec: Codec, client: nat, id: Id): Id {
    Str(codec.wrap(client, id))
  }

  /** What the relay sends upstream for a client's message. */
  function Forward(codec: Codec, client: nat, m: Message): Message {
    var tagged := if m.id.Some? then m.(id := Some(Tag(codec, client, m.id.value))) else m;
    if m.name == Some(CANCELLED) && m.requestId.Some?
    then tagged.(requestId := Some(Tag(codec, client, m.requestId.value)))
    else tagged
  }

  /** Where an upstream message goes. */
  datatype Route = All | To(client: nat, original: Id) | Nobody | Throws

  function RouteOf(codec: Codec, m: Message): Route {
    if m.id.None? then All
    else if !m.id.value.Str? then Throws
    else match codec.unwrap(m.id.value.s)
      case Pair(client, original) => To(client, original)
      case NoClient => Nobody
      case Unreadable => Throws
  }

  // ---------- the relay ----------

  /**
   * Open clients, those among them whose socket is destroyed but not closed yet, everything sent upstream with
   * its sender, everything that reached each client.
   */
  datatype Relay = Relay(
    open: set<nat>,
    deaf: set<nat>,
    sequence: nat,
    up: seq<(nat, Message)>,
    down: map<nat, seq<Message>>,
    alive: bool)

  const NEW_RELAY := Relay({}, {}, 0, [], map[], true)

  /** `None` is a line that does not parse. */
  datatype Event =
    | Connect
    | Line(client: nat, message: Option<Message>)
    | Reply(reply: Option<Message>)
    | Close(closing: nat)

  function Delivered(r: Relay, client: nat): seq<Message> {
    if client in r.down then r.down[client] else []
  }

  /** A write to a client that is gone, or whose socket is destroyed, reaches nobody. */
  function Write(r: Relay, client: nat, m: Message): Relay {
    if client in r.open - r.deaf then r.(down := r.down[client := Delivered(r, client) + [m]]) else r
  }

  function Broadcast(r: Relay, m: Message): (next: Relay)
  {
    r.(down := map c | c in r.down.Keys + (r.open - r.deaf) ::
         if c in r.open - r.deaf then Delivered(r, c) + [m] else Delivered(r, c))
  }

  /** A destroyed socket hears nothing more, but lines it had sent already still come until it closes. */
  function Step(codec: Codec, r: Relay, e: Event): Relay {
    if !r.alive then r
    else match e
      case Connect => r.(sequence := r.sequence + 1, open := r.open + {r.sequence + 1})
      case Line(client, message) =>
        if client !in r.open then r
        else if message.None? then r.(deaf := r.deaf + {client})
        else r.(up := r.up + [(client, Forward(codec, client, message.value))])
      case Reply(reply) =>
        if reply.None? then r.(alive := false)
        else
          (match RouteOf(codec, reply.value)
           case All => Broadcast(r, reply.value)
           case To(client, original) => Write(r, client, reply.value.(id := Some(original)))
           case Nobody => r
           case Throws => r.(alive := false))
      case Close(client) => r.(open := r.open - {client})
  }

  function Run(codec: Codec, events: seq<Event>): Relay {
    if events == [] then NEW_RELAY
    else Step(codec, Run(codec, events[..|events| - 1]), events[|events| - 1])
  }

  // ---------- the object ----------

  class McpListen {
    var open: set<nat>
    var deaf: set<nat>
    var sequence: nat
    var up: seq<(nat, Message)>
    var down: map<nat, seq<Message>>
    var alive: bool

    function View(): Relay
      reads this
    {
      Relay(open, deaf, sequence, up, down, alive)
    }

    constructor ()
      ensures View() == NEW_RELAY
    {
      open, deaf, sequence, up, down, alive := {}, {}, 0, [], map[], true;
    }

    method OnConnect(codec: Codec)
      requires alive
      modifies this
      ensures View() == Step(codec, old(View()), Connect)
    {
      sequence := sequence + 1;
      open := open + {sequence};
    }

    method OnLine(codec: Codec, client: nat, line: Option<Message>)
      requires alive && client in open
      modifies this
      ensures View() == Step(codec, old(View()), Line(client, line))
    {
      if line.None? {
        deaf := deaf + {client};
        return;
      }
      var message := line.value;
      if message.id.Some? {
        message := message.(id := Some(Tag(codec, client, message.id.value)));
      }
      if message.name == Some(CANCELLED) && message.requestId.Some? {
        message := message.(requestId := Some(Tag(codec, client, message.requestId.value)));
      }
      up := up + [(client, message)];
    }

    method OnReply(codec: Codec, line: Option<Message>)
      requires alive
      modifies this
      ensures View() == Step(codec, old(View()), Reply(line))
    {
      if line.None? {
        alive := false;
        return;
      }
      var message := line.value;
      if message.id.Some? {
        if !message.id.value.Str? {
          alive := false;
          return;
        }
        match codec.unwrap(message.id.value.s) {
          case Pair(client, original) =>
            if client in open - deaf {
              down := down[client := Delivered(View(), client) + [message.(id := Some(original))]];
            }
          case NoClient =>
          case Unreadable =>
            alive := false;
        }
        return;
      }
      var hearing := open - deaf;
      var left := hearing;
      while left != {}
        invariant left <= hearing == old(open) - old(deaf) && open == old(open) && deaf == old(deaf)
        invariant up == old(up) && alive && sequence == old(sequence)
        invariant down.Keys == old(down.Keys) + (hearing - left)
        invariant forall c :: Delivered(View(), c) ==
                    if c in hearing - left then Delivered(old(View()), c) + [message] else Delivered(old(View()), c)
        decreases left
      {
        var c :| c in left;
        down := down[c := Delivered(View(), c) + [message]];
        left := left - {c};
      }
      BroadcastByLookup(old(View()), View(), message);
    }

    method OnClose(codec: Codec, client: nat)
      requires alive
      modifies this
      ensures View() == Step(codec, old(View()), Close(client))
    {
      open := open - {client};
    }
  }

  lemma BroadcastByLookup(r: Relay, next: Relay, m: Message)
    requires next.open == r.open && next.deaf == r.deaf && next.sequence == r.sequence
    requires next.up == r.up && next.alive == r.alive
    requires next.down.Keys == r.down.Keys + (r.open - r.deaf)
    requires forall c: nat ::
               Delivered(next, c) == if c in r.open - r.deaf then Delivered(r, c) + [m] else Delivered(r, c)
    ensures next == Broadcast(r, m)
  {
    var b := Broadcast(r, m);
    assert b.down.Keys == next.down.Keys;
    forall c | c in next.down
      ensures next.down[c] == b.down[c]
    {
      assert Delivered(next, c) == next.down[c];
    }
    assert next.down == b.down;
  }

  // ---------- a private pipe ----------

  /** One client on a pipe of its own: nothing is renamed. */
  datatype Pipe = Pipe(open: bool, deaf: bool, up: seq<Message>, down: seq<Message>, alive: bool)

  const NEW_PIPE := Pipe(false, false, [], [], true)

  datatype PipeEvent = Opened | Sent(message: Option<Message>) | Came(reply: Message) | Closed | Died

  function PipeStep(p: Pipe, e: PipeEvent): Pipe {
    if !p.alive then p
    else match e
      case Opened => p.(open := true)
      case Sent(message) =>
        if !p.open then p
        else if message.None? then p.(deaf := true)
        else p.(up := p.up + [message.value])
      case Came(reply) => if p.open && !p.deaf then p.(down := p.down + [reply]) else p
      case Closed => p.(open := false)
      case Died => p.(alive := false)
  }

  /** What an event of the relay is to client `c`, when `seen` clients have connected before. */
  function Project(codec: Codec, c: nat, seen: nat, e: Event): Option<PipeEvent> {
    match e
    case Connect => if seen + 1 == c then Some(Opened) else None
    case Line(client, message) => if client == c then Some(Sent(message)) else None
    case Close(client) => if client == c then Some(Closed) else None
    case Reply(reply) =>
      if reply.None? then Some(Died)
      else match RouteOf(codec, reply.value)
        case All => Some(Came(reply.value))
        case To(client, original) => if client == c then Some(Came(reply.value.(id := Some(original)))) else None
        case Nobody => None
        case Throws => Some(Died)
  }

  function ProjectAll(codec: Codec, c: nat, events: seq<Event>): seq<PipeEvent> {
    if events == [] then []
    else
      var before := events[..|events| - 1];
      var e := Project(codec, c, Run(codec, before).sequence, events[|events| - 1]);
      ProjectAll(codec, c, before) + if e.Some? then [e.value] else []
  }

  function PipeRun(events: seq<PipeEvent>): Pipe {
    if events == [] then NEW_PIPE
    else PipeStep(PipeRun(events[..|events| - 1]), events[|events| - 1])
  }

  /** The part of the upstream traffic that client `c` sent. */
  function SentBy(c: nat, up: seq<(nat, Message)>): seq<Message> {
    if up == [] then []
    else
      var last := up[|up| - 1];
      SentBy(c, up[..|up| - 1]) + if last.0 == c then [last.1] else []
  }

  function ForwardAll(codec: Codec, c: nat, ms: seq<Message>): seq<Message> {
    seq(|ms|, i requires 0 <= i < |ms| => Forward(codec, c, ms[i]))
  }

  ghost predicate Simulates(codec: Codec, c: nat, r: Relay, p: Pipe) {
    && r.alive == p.alive
    && (c in r.open <==> p.open) && (c in r.deaf <==> p.deaf)
    && (forall d | d in r.open :: d <= r.sequence)
    && (p.open ==> c <= r.sequence)
    && Delivered(r, c) == p.down
    && SentBy(c, r.up) == ForwardAll(codec, c, p.up)
  }

  lemma SentByMore(c: nat, up: seq<(nat, Message)>, sender: nat, m: Message)
    ensures SentBy(c, up + [(sender, m)]) == SentBy(c, up) + if sender == c then [m] else []
  {
    assert (up + [(sender, m)])[..|up|] == up;
  }

  lemma LineSimulates(codec: Codec, c: nat, r: Relay, p: Pipe, client: nat, message: Option<Message>)
    requires Simulates(codec, c, r, p)
    ensures Simulates(codec, c, Step(codec, r, Line(client, message)),
                      if client == c then PipeStep(p, Sent(message)) else p)
  {
    if r.alive && client in r.open && message.Some? {
      SentByMore(c, r.up, client, Forward(codec, client, message.value));
    }
  }

  lemma ReplySimulates(codec: Codec, c: nat, r: Relay, p: Pipe, reply: Option<Message>)
    requires Simulates(codec, c, r, p)
    ensures var pe := Project(codec, c, r.sequence, Reply(reply));
            Simulates(codec, c, Step(codec, r, Reply(reply)), if pe.Some? then PipeStep(p, pe.value) else p)
  {
  }

  lemma StepSimulates(codec: Codec, c: nat, r: Relay, p: Pipe, e: Event)
    requires Simulates(codec, c, r, p)
    ensures var pe := Project(codec, c, r.sequence, e);
            Simulates(codec, c, Step(codec, r, e), if pe.Some? then PipeStep(p, pe.value) else p)
  {
    match e
    case Connect =>
    case Line(client, message) =>
      LineSimulates(codec, c, r, p, client, message);
    case Reply(reply) =>
      ReplySimulates(codec, c, r, p, reply);
    case Close(_) =>
  }

  /**
   * Main result: over any interleaving of connects, lines, replies and disconnects, what the relay does
   * for one client is what a private pipe does on the client's own events, up to the renaming of ids on
   * the way up; on the way down the ids are the client's.
   */
  lemma {:induction false} RelayIsPrivatePipes(codec: Codec, c: nat, events: seq<Event>)
    ensures Simulates(codec, c, Run(codec, events), PipeRun(ProjectAll(codec, c, events)))
  {
    if events != [] {
      var before, e := events[..|events| - 1], events[|events| - 1];
      RelayIsPrivatePipes(codec, c, before);
      StepSimulates(codec, c, Run(codec, before), PipeRun(ProjectAll(codec, c, before)), e);
      var pe := Project(codec, c, Run(codec, before).sequence, e);
      if pe.Some? {
        var all := ProjectAll(codec, c, before) + [pe.value];
        assert all[..|all| - 1] == ProjectAll(codec, c, before);
      } else {
        Empty(ProjectAll(codec, c, before));
      }
    }
  }

  // ---------- ids ----------

  ghost predicate IsForward(codec: Codec, client: nat, sent: Message) {
    exists m :: sent == Forward(codec, client, m)
  }

  /** Everything sent upstream is some client's message, renamed for that client. */
  ghost predicate Renamed(codec: Codec, up: seq<(nat, Message)>) {
    forall i | 0 <= i < |up| :: IsForward(codec, up[i].0, up[i].1)
  }

  lemma {:induction false} RunRenames(codec: Codec, events: seq<Event>)
    ensures Renamed(codec, Run(codec, events).up)
  {
    if events != [] {
      var before, e := Run(codec, events[..|events| - 1]), events[|events| - 1];
      RunRenames(codec, events[..|events| - 1]);
      if before.alive && e.Line? && e.client in before.open && e.message.Some? {
        var sent := Forward(codec, e.client, e.message.value);
        assert IsForward(codec, e.client, sent);
        assert Run(codec, events).up == before.up + [(e.client, sent)];
      } else {
        assert Run(codec, events).up == before.up;
      }
    }
  }

  /** Ids of different clients never collide upstream, equal as they may be downstream. */
  lemma IdsNeverCollide(codec: Codec, events: seq<Event>, i: nat, j: nat)
    requires Good(codec)
    requires var up := Run(codec, events).up;
             i < |up| && j < |up| && up[i].0 != up[j].0 && up[i].1.id.Some? && up[j].1.id.Some?
    ensures Run(codec, events).up[i].1.id != Run(codec, events).up[j].1.id
  {
    RunRenames(codec, events);
    var up := Run(codec, events).up;
    var m :| up[i].1 == Forward(codec, up[i].0, m);
    var n :| up[j].1 == Forward(codec, up[j].0, n);
    assert codec.unwrap(codec.wrap(up[i].0, m.id.value)) == Pair(up[i].0, m.id.value);
    assert codec.unwrap(codec.wrap(up[j].0, n.id.value)) == Pair(up[j].0, n.id.value);
  }

  /**
   * A reply under an id that a client's request was sent under reaches that client alone, with the id the
   * client chose; a client that has gone gets nothing, and nobody else gets it instead.
   */
  lemma ReplyReachesAsker(codec: Codec, r: Relay, asker: nat, request: Message, reply: Message)
    requires Good(codec) && r.alive && request.id.Some?
    requires reply.id == Forward(codec, asker, request).id
    ensures var next := Step(codec, r, Reply(Some(reply)));
            && next.alive && next.up == r.up && next.open == r.open && next.deaf == r.deaf
            && Delivered(next, asker) ==
               (if asker in r.open - r.deaf then Delivered(r, asker) + [reply.(id := request.id)]
                else Delivered(r, asker))
            && forall other: nat :: other != asker ==> Delivered(next, other) == Delivered(r, other)
  {
    assert codec.unwrap(codec.wrap(asker, request.id.value)) == Pair(asker, request.id.value);
  }

  /** A cancel names exactly the id its request went up under: of that client, and of no other request. */
  lemma CancelNamesItsRequest(codec: Codec, canceller: nat, cancel: Message, owner: nat, request: Message)
    requires Good(codec) && cancel.name == Some(CANCELLED) && cancel.requestId.Some? && request.id.Some?
    ensures Forward(codec, canceller, cancel).requestId == Forward(codec, owner, request).id
       <==> canceller == owner && cancel.requestId == request.id
  {
    assert codec.unwrap(codec.wrap(canceller, cancel.requestId.value)) == Pair(canceller, cancel.requestId.value);
    assert codec.unwrap(codec.wrap(owner, request.id.value)) == Pair(owner, request.id.value);
  }

  /** A line from upstream that makes the relay's handler throw: not a message, or an id that does not take apart. */
  predicate Fatal(codec: Codec, line: Option<Message>) {
    || line.None?
    || (line.value.id.Some? && (!line.value.id.value.Str? || codec.unwrap(line.value.id.value.s).Unreadable?))
  }

  /** Nothing else ends the relay: no client does, and of the lines from upstream exactly these. A null id is one. */
  lemma RelayEndsIff(codec: Codec, r: Relay, e: Event)
    requires r.alive
    ensures !Step(codec, r, e).alive <==> e.Reply? && Fatal(codec, e.reply)
  {
  }

  /** Upstream answers only ids it was asked under, and sends well-formed lines. */
  ghost predicate Honest(codec: Codec, events: seq<Event>) {
    forall k | 0 <= k < |events| && events[k].Reply? ::
      && events[k].reply.Some?
      && (events[k].reply.value.id.Some? ==>
            exists i :: 0 <= i < |Run(codec, events[..k]).up|
                        && Run(codec, events[..k]).up[i].1.id == events[k].reply.value.id)
  }

  lemma HonestRoute(codec: Codec, events: seq<Event>, m: Message)
    requires Good(codec) && m.id.Some?
    requires exists i :: 0 <= i < |Run(codec, events).up| && Run(codec, events).up[i].1.id == m.id
    ensures RouteOf(codec, m).To?
  {
    RunRenames(codec, events);
    var up := Run(codec, events).up;
    var i :| 0 <= i < |up| && up[i].1.id == m.id;
    var n :| up[i].1 == Forward(codec, up[i].0, n);
    assert codec.unwrap(codec.wrap(up[i].0, n.id.value)) == Pair(up[i].0, n.id.value);
  }

  /** With an honest upstream no client, whatever it sends, can bring the relay down. */
  lemma {:induction false} HonestUpstreamKeepsRelayAlive(codec: Codec, events: seq<Event>)
    requires Good(codec) && Honest(codec, events)
    ensures Run(codec, events).alive
  {
    if events != [] {
      var last := |events| - 1;
      var before := events[..last];
      forall k | 0 <= k < |before|
        ensures before[..k] == events[..k]
      {
      }
      assert Honest(codec, before);
      HonestUpstreamKeepsRelayAlive(codec, before);
      var e := events[last];
      if e.Reply? && e.reply.value.id.Some? {
        HonestRoute(codec, before, e.reply.value);
      }
    }
  }
}
