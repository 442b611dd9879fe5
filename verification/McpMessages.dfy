/**
 * What the JSON-RPC relay does to messages, member by member: what a client has upstream is what it sent, but
 * for the tags that name it, and what comes down goes to those it is for, unchanged.
 */
module McpMessages {
  import opened Wrappers
  import opened McpRelay

  /** The id, taken apart, is the client and the id it chose. */
  predicate TagOf(codec: Codec, client: nat, tagged: Option<Id>, original: Id) {
    tagged.Some? && tagged.value.Str? && codec.unwrap(tagged.value.s) == Pair(client, original)
  }

  /** `got` is `sent`, with its id tagged if it has one, and the target of a cancel; nothing else is touched. */
  predicate SameButTags(codec: Codec, client: nat, sent: Message, got: Message) {
    && got.name == sent.name && got.rest == sent.rest
    && (if sent.id.Some? then TagOf(codec, client, got.id, sent.id.value) else got.id == None)
    && (if sent.name == Some("notifications/cancelled") && sent.requestId.Some?
        then TagOf(codec, client, got.requestId, sent.requestId.value)
        else got.requestId == sent.requestId)
  }

  lemma ForwardTags(codec: Codec, client: nat, m: Message)
    requires Good(codec)
    ensures SameButTags(codec, client, m, Forward(codec, client, m))
  {
    if m.id.Some? {
      assert codec.unwrap(codec.wrap(client, m.id.value)) == Pair(client, m.id.value);
    }
    if m.requestId.Some? {
      assert codec.unwrap(codec.wrap(client, m.requestId.value)) == Pair(client, m.requestId.value);
    }
  }

  /**
   * Main result: in every run, what a client has upstream is, message by message and in order, what it sent while
   * it was connected, but for the tags.
   */
  lemma UpstreamIsWhatWasSent(codec: Codec, c: nat, events: seq<Event>)
    requires Good(codec)
    ensures var sent, got := PipeRun(ProjectAll(codec, c, events)).up, SentBy(c, McpRelay.Run(codec, events).up);
            |got| == |sent| && forall i | 0 <= i < |sent| :: SameButTags(codec, c, sent[i], got[i])
  {
    RelayIsPrivatePipes(codec, c, events);
    var sent := PipeRun(ProjectAll(codec, c, events)).up;
    forall i | 0 <= i < |sent|
      ensures SameButTags(codec, c, sent[i], ForwardAll(codec, c, sent)[i])
    {
      ForwardTags(codec, c, sent[i]);
    }
  }

  /** One line of a connected client goes up as one message, behind all others; no other client's does. */
  lemma LineGoesUp(codec: Codec, r: Relay, client: nat, m: Message)
    requires Good(codec) && r.alive && client in r.open
    ensures var next := Step(codec, r, Line(client, Some(m)));
            && |next.up| == |r.up| + 1 && next.up[..|r.up|] == r.up
            && next.up[|r.up|].0 == client && SameButTags(codec, client, m, next.up[|r.up|].1)
            && next == r.(up := next.up)
  {
    ForwardTags(codec, client, m);
  }

  /** A message without an id reaches every client that hears, as it is, and changes nothing else. */
  lemma NotificationReachesAll(codec: Codec, r: Relay, m: Message)
    requires r.alive && m.id == None
    ensures var next := Step(codec, r, Reply(Some(m)));
            && next == r.(down := next.down)
            && forall client: nat :: Delivered(next, client) ==
                 Delivered(r, client) + if client in r.open && client !in r.deaf then [m] else []
  {
    var next := Step(codec, r, Reply(Some(m)));
    forall client: nat
      ensures Delivered(next, client) ==
              Delivered(r, client) + if client in r.open && client !in r.deaf then [m] else []
    {
      if client in r.open && client !in r.deaf {
        assert client in r.down.Keys + (r.open - r.deaf);
      } else {
        assert Delivered(r, client) + [] == Delivered(r, client);
      }
    }
  }

  /** A message under an id goes to the client in it, with the original id, to nobody, or ends the relay. */
  lemma ReplyByItsId(codec: Codec, r: Relay, m: Message, d: nat)
    requires r.alive && m.id.Some?
    ensures var next := Step(codec, r, Reply(Some(m)));
            if !m.id.value.Str? || codec.unwrap(m.id.value.s).Unreadable? then next == r.(alive := false)
            else if codec.unwrap(m.id.value.s).NoClient? then next == r
            else
              var named := codec.unwrap(m.id.value.s);
              && next == r.(down := next.down)
              && Delivered(next, d) ==
                 if d == named.client && d in r.open && d !in r.deaf
                 then Delivered(r, d) + [Message(Some(named.original), m.name, m.requestId, m.rest)]
                 else Delivered(r, d)
  {
  }

  /** Numbers are never used twice: a new client is none of those that connected before. */
  lemma {:induction false} NewClientIsNew(codec: Codec, events: seq<Event>)
    ensures var r := McpRelay.Run(codec, events);
            && (forall d | d in r.open :: 1 <= d <= r.sequence)
            && (r.alive ==> r.sequence + 1 !in r.open && r.sequence + 1 in Step(codec, r, Connect).open)
  {
    if events != [] {
      NewClientIsNew(codec, events[..|events| - 1]);
    }
  }

  /** A connect adds its client, a close takes its client away, and nothing else changes who is connected. */
  lemma WhoIsConnected(codec: Codec, r: Relay, e: Event)
    requires r.alive
    ensures Step(codec, r, e).open ==
            match e
            case Connect => r.open + {r.sequence + 1}
            case Close(client) => r.open - {client}
            case _ => r.open
    ensures Step(codec, r, e).sequence == r.sequence + if e.Connect? then 1 else 0
  {
  }
}
