/**
 * Whole runs of a WebSocket connection: a stream of bytes means a list of frames, however TCP cut it.
 * Claims are about a connection up to its first close.
 */
module WsStream {
  import opened Bytes
  import opened Seqs
  import opened Wrappers
  import opened WsFrames
  import opened WsConnection

  /** The connection after every chunk, also those that arrive after a close. */
  function Run(c: Conn, chunks: seq<seq<byte>>): Conn
    decreases |chunks|
  {
    if chunks == [] then c else Run(Received(c, chunks[0]), chunks[1..])
  }

  /** The connection when it first closed, or after the last chunk. */
  function UpToClose(c: Conn, chunks: seq<seq<byte>>): Conn
    decreases |chunks|
  {
    if !c.open || chunks == [] then c else UpToClose(Received(c, chunks[0]), chunks[1..])
  }

  /** The size guard lets every chunk before the first close through. */
  predicate Untripped(c: Conn, chunks: seq<seq<byte>>)
    decreases |chunks|
  {
    c.open && chunks != [] ==>
      !Trips(c, chunks[0]) && Untripped(Received(c, chunks[0]), chunks[1..])
  }

  function Flatten(chunks: seq<seq<byte>>): seq<byte> {
    if chunks == [] then [] else chunks[0] + Flatten(chunks[1..])
  }

  /** Same effects, same life cycle and, while open, the same leftover. */
  predicate Agree(a: Conn, b: Conn) {
    && a.effects == b.effects
    && a.open == b.open && a.closedEmitted == b.closedEmitted
    && (a.open ==> a.buf == b.buf)
  }

  // ---------- chunk independence ----------

  lemma {:induction false} DrainWaits(c: Conn)
    requires Drained(c).open
    ensures ParseFrame(Drained(c).buf).Incomplete?
    decreases |c.buf|
  {
    match ParseFrame(c.buf)
    case Incomplete =>
    case Oversize =>
    case Complete(opcode, payload, used) =>
      if opcode != OP_CLOSE {
        DrainWaits(Answered(c.(buf := c.buf[used..]), opcode, payload));
      }
  }

  /** Draining now and again when more arrives is draining once at the end. */
  lemma {:induction false} DrainInTwo(c: Conn, more: seq<byte>)
    requires c.open
    ensures var d := Drained(c);
            Agree(Drained(c.(buf := c.buf + more)), if d.open then Drained(d.(buf := d.buf + more)) else d)
    decreases |c.buf|
  {
    if !ParseFrame(c.buf).Incomplete? {
      ParseStable(c.buf, more);
    }
    match ParseFrame(c.buf)
    case Incomplete =>
    case Oversize =>
    case Complete(opcode, payload, used) =>
      assert (c.buf + more)[used..] == c.buf[used..] + more;
      if opcode != OP_CLOSE {
        var next := Answered(c.(buf := c.buf[used..]), opcode, payload);
        DrainInTwo(next, more);
        assert next.(buf := next.buf + more) == Answered(c.(buf := c.buf[used..] + more), opcode, payload);
      }
  }

  /** Main result: chunks that pass the guard do what their concatenation does in one piece. */
  lemma {:induction false} ChunksAreOneStream(c: Conn, chunks: seq<seq<byte>>)
    requires c.open && ParseFrame(c.buf).Incomplete?
    requires Untripped(c, chunks)
    ensures Agree(UpToClose(c, chunks), Drained(c.(buf := c.buf + Flatten(chunks))))
    decreases |chunks|
  {
    if chunks == [] {
      Empty(c.buf);
    } else {
      var first, rest := c.(buf := c.buf + chunks[0]), Flatten(chunks[1..]);
      DrainInTwo(first, rest);
      Assoc(c.buf, chunks[0], rest);
      AfterFirstChunk(c, chunks);
      if Drained(first).open {
        DrainWaits(first);
        ChunksAreOneStream(Drained(first), chunks[1..]);
      }
    }
  }

  lemma AfterFirstChunk(c: Conn, chunks: seq<seq<byte>>)
    requires c.open && chunks != [] && Untripped(c, chunks)
    ensures var d := Drained(c.(buf := c.buf + chunks[0]));
            && UpToClose(c, chunks) == (if d.open then UpToClose(d, chunks[1..]) else d)
            && Untripped(d, chunks[1..])
  {
  }

  /** Two cuts of one stream: same messages and pongs up to and including the close, same leftover. */
  lemma ChunkIndependence(chunks: seq<seq<byte>>, others: seq<seq<byte>>)
    requires Flatten(chunks) == Flatten(others)
    requires Untripped(FRESH, chunks) && Untripped(FRESH, others)
    ensures Agree(UpToClose(FRESH, chunks), UpToClose(FRESH, others))
  {
    ChunksAreOneStream(FRESH, chunks);
    ChunksAreOneStream(FRESH, others);
  }

  // ---------- the guard ----------

  function Singles(stream: seq<byte>): seq<seq<byte>> {
    if stream == [] then [] else [[stream[0]]] + Singles(stream[1..])
  }

  lemma {:induction false} FlattenSingles(stream: seq<byte>)
    ensures Flatten(Singles(stream)) == stream
  {
    if stream != [] {
      FlattenSingles(stream[1..]);
    }
  }

  /** An open connection never holds more than the longest incomplete frame. */
  lemma LeftoverBound(c: Conn, chunk: seq<byte>)
    requires Received(c, chunk).open
    ensures |Received(c, chunk).buf| <= MAX_FRAME_BYTES + 13
  {
    DrainWaits(c.(buf := c.buf + chunk));
  }

  lemma {:induction false} SinglesNeverTrip(c: Conn, stream: seq<byte>)
    requires |c.buf| <= MAX_FRAME_BYTES + 13
    ensures Untripped(c, Singles(stream))
    decreases |stream|
  {
    if stream != [] && c.open {
      var next := Received(c, [stream[0]]);
      if next.open {
        LeftoverBound(c, [stream[0]]);
        SinglesNeverTrip(next, stream[1..]);
      }
    }
  }

  /** One byte at a time, the guard never interferes: the connection is the one-shot decoder. */
  lemma BytewiseIsOneShot(stream: seq<byte>)
    ensures Agree(UpToClose(FRESH, Singles(stream)), Drained(FRESH.(buf := stream)))
  {
    SinglesNeverTrip(FRESH, stream);
    FlattenSingles(stream);
    ChunksAreOneStream(FRESH, Singles(stream));
    Empty(stream);
  }

  // ---------- what a stream means ----------

  predicate AllLegal(frames: seq<WireFrame>) {
    forall i | 0 <= i < |frames| :: Legal(frames[i])
  }

  function Wire(frames: seq<WireFrame>): seq<byte>
    requires AllLegal(frames)
  {
    if frames == [] then [] else Layout(frames[0]) + Wire(frames[1..])
  }

  /** The reaction to a list of frames, up to the first close. */
  function Reaction(c: Conn, frames: seq<WireFrame>): Conn
    requires AllLegal(frames)
    decreases |frames|
  {
    if frames == [] then c
    else if frames[0].b0 % 16 == OP_CLOSE then Closed(c, 1000, [])
    else Reaction(Answered(c, frames[0].b0 % 16, Payload(frames[0])), frames[1..])
  }

  lemma AnsweredKeepsBuffer(c: Conn, opcode: byte, payload: seq<byte>, buf: seq<byte>)
    requires |payload| <= MAX_FRAME_BYTES
    ensures Answered(c.(buf := buf), opcode, payload) == Answered(c, opcode, payload).(buf := buf)
  {
  }

  lemma {:induction false} DrainIsReaction(c: Conn, frames: seq<WireFrame>, tail: seq<byte>)
    requires AllLegal(frames) && c.open && ParseFrame(tail).Incomplete?
    ensures Agree(Drained(c.(buf := Wire(frames) + tail)), Reaction(c.(buf := tail), frames))
    decreases |frames|
  {
    if frames == [] {
      Empty(tail);
    } else {
      var w, rest := frames[0], Wire(frames[1..]) + tail;
      Assoc(Layout(w), Wire(frames[1..]), tail);
      ParseLayout(w, rest);
      Cut(Layout(w), rest);
      if w.b0 % 16 != OP_CLOSE {
        AnsweredKeepsBuffer(c, w.b0 % 16, Payload(w), rest);
        AnsweredKeepsBuffer(c, w.b0 % 16, Payload(w), tail);
        DrainIsReaction(Answered(c, w.b0 % 16, Payload(w)), frames[1..], tail);
      }
    }
  }

  /** Main result: legal frames, in any length form, masked or not, cut anywhere, get their reaction. */
  lemma StreamMeaning(frames: seq<WireFrame>, tail: seq<byte>, chunks: seq<seq<byte>>)
    requires AllLegal(frames) && ParseFrame(tail).Incomplete?
    requires Flatten(chunks) == Wire(frames) + tail && Untripped(FRESH, chunks)
    ensures Agree(UpToClose(FRESH, chunks), Reaction(FRESH.(buf := tail), frames))
  {
    ChunksAreOneStream(FRESH, chunks);
    Empty(Flatten(chunks));
    DrainIsReaction(FRESH, frames, tail);
  }

  /** Every stream is a list of legal frames and a tail that does not start with one. */
  lemma {:induction false} StreamSplits(stream: seq<byte>) returns (frames: seq<WireFrame>, tail: seq<byte>)
    ensures AllLegal(frames) && Wire(frames) + tail == stream && !ParseFrame(tail).Complete?
    decreases |stream|
  {
    frames, tail := [], stream;
    if ParseFrame(stream).Complete? {
      var more, end := StreamSplits(stream[ParseFrame(stream).used..]);
      FrameInFront(stream, more, end);
      frames, tail := [FrameSeen(stream)] + more, end;
    } else {
      Empty(stream);
    }
  }

  lemma FrameInFront(stream: seq<byte>, more: seq<WireFrame>, tail: seq<byte>)
    requires ParseFrame(stream).Complete? && AllLegal(more)
    requires Wire(more) + tail == stream[ParseFrame(stream).used..]
    ensures AllLegal([FrameSeen(stream)] + more)
    ensures Wire([FrameSeen(stream)] + more) + tail == stream
  {
    var w, used := FrameSeen(stream), ParseFrame(stream).used;
    ParsedIsLayout(stream);
    WireCons(w, more);
    Assoc(Layout(w), Wire(more), tail);
    Halves(stream, used);
  }

  lemma WireCons(w: WireFrame, frames: seq<WireFrame>)
    requires Legal(w) && AllLegal(frames)
    ensures AllLegal([w] + frames) && Wire([w] + frames) == Layout(w) + Wire(frames)
  {
    assert ([w] + frames)[1..] == frames;
  }

  // ---------- round trip ----------

  datatype Message = Message(opcode: byte, payload: seq<byte>)

  type Outgoing = m: Message | m.opcode < 16 && |m.payload| <= MAX_FRAME_BYTES witness Message(OP_TEXT, [])

  /** No masking, or a four-byte key. */
  type Key = k: Option<seq<byte>> | k.Some? ==> |k.value| == 4 witness None

  function Decoded(buf: seq<byte>): seq<Message> {
    match ParseFrame(buf)
    case Complete(opcode, payload, used) => [Message(opcode, payload)] + Decoded(buf[used..])
    case _ => []
  }

  function SentAll(c: Conn, messages: seq<Outgoing>): Conn
    decreases |messages|
  {
    assert Pow256(8) > MAX_FRAME_BYTES;
    if messages == [] then c
    else SentAll(Sent(c, messages[0].opcode, messages[0].payload), messages[1..])
  }

  function Written(effects: seq<Effect>): seq<byte> {
    if effects == [] then []
    else
      var before := Written(effects[..|effects| - 1]);
      match effects[|effects| - 1]
      case Write(bytes) => before + bytes
      case _ => before
  }

  lemma {:induction false} MaskTwice(payload: seq<byte>, key: seq<byte>)
    requires |key| == 4
    ensures Masked(Masked(payload, key), key) == payload
  {
    if payload != [] {
      var last := |payload| - 1;
      var out := Masked(payload, key);
      MaskTwice(payload[..last], key);
      XorUndo(payload[last], key[last % 4]);
      assert out[..last] == Masked(payload[..last], key);
      Halves(payload, last);
    }
  }

  function DressedFrame(m: Outgoing, key: Key): (w: WireFrame)
    ensures Legal(w) && w.b0 % 16 == m.opcode && Payload(w) == m.payload
  {
    assert Pow256(8) > MAX_FRAME_BYTES;
    match key
    case None => ServerFrame(m.opcode, m.payload)
    case Some(bytes) =>
      MaskTwice(m.payload, bytes);
      ServerFrame(m.opcode, m.payload).(key := key, body := Masked(m.payload, bytes))
  }

  /** The server's frames, each left bare or masked under its own key. */
  function Dressed(messages: seq<Outgoing>, keys: seq<Key>): (frames: seq<WireFrame>)
    requires |keys| == |messages|
    ensures AllLegal(frames) && |frames| == |messages|
  {
    if messages == [] then [] else [DressedFrame(messages[0], keys[0])] + Dressed(messages[1..], keys[1..])
  }

  function Bare(n: nat): (keys: seq<Key>)
    ensures |keys| == n
  {
    if n == 0 then [] else [None] + Bare(n - 1)
  }

  lemma SentIsOneFrame(c: Conn, m: Outgoing)
    requires c.open
    ensures Pow256(8) > MAX_FRAME_BYTES
    ensures Written(Sent(c, m.opcode, m.payload).effects) == Written(c.effects) + Layout(DressedFrame(m, None))
  {
    assert Pow256(8) > MAX_FRAME_BYTES;
    var effects := Sent(c, m.opcode, m.payload).effects;
    assert effects[..|effects| - 1] == c.effects;
  }

  /** The bare frames of the messages, one after the other. */
  function BareWire(messages: seq<Outgoing>): seq<byte> {
    if messages == [] then [] else Layout(DressedFrame(messages[0], None)) + BareWire(messages[1..])
  }

  lemma {:induction false} BareWireIsWire(messages: seq<Outgoing>)
    ensures BareWire(messages) == Wire(Dressed(messages, Bare(|messages|)))
  {
    if messages != [] {
      BareWireIsWire(messages[1..]);
      assert Bare(|messages|)[1..] == Bare(|messages| - 1);
      WireCons(DressedFrame(messages[0], None), Dressed(messages[1..], Bare(|messages| - 1)));
    }
  }

  lemma {:induction false} SentIsBareWire(c: Conn, messages: seq<Outgoing>)
    requires c.open
    ensures Written(SentAll(c, messages).effects) == Written(c.effects) + BareWire(messages)
    decreases |messages|
  {
    if messages == [] {
      Empty(Written(c.effects));
    } else {
      SentIsOneFrame(c, messages[0]);
      SentIsBareWire(Sent(c, messages[0].opcode, messages[0].payload), messages[1..]);
      Assoc(Written(c.effects), Layout(DressedFrame(messages[0], None)), BareWire(messages[1..]));
    }
  }

  lemma SentIsWire(c: Conn, messages: seq<Outgoing>)
    requires c.open
    ensures Written(SentAll(c, messages).effects) ==
            Written(c.effects) + Wire(Dressed(messages, Bare(|messages|)))
  {
    SentIsBareWire(c, messages);
    BareWireIsWire(messages);
  }

  lemma DecodeOne(w: WireFrame, rest: seq<byte>)
    requires Legal(w)
    ensures Decoded(Layout(w) + rest) == [Message(w.b0 % 16, Payload(w))] + Decoded(rest)
  {
    ParseLayout(w, rest);
    Cut(Layout(w), rest);
  }

  lemma {:induction false} WireDecodes(messages: seq<Outgoing>, keys: seq<Key>)
    requires |keys| == |messages|
    ensures Decoded(Wire(Dressed(messages, keys))) == messages
    decreases |messages|
  {
    if messages != [] {
      WireDecodes(messages[1..], keys[1..]);
      var frames := Dressed(messages, keys);
      assert frames[1..] == Dressed(messages[1..], keys[1..]);
      DecodeOne(frames[0], Wire(frames[1..]));
    }
  }

  /** Main result: what an open connection sends decodes to what was sent, bare or masked under any keys. */
  lemma SendRoundTrip(messages: seq<Outgoing>, keys: seq<Key>)
    requires |keys| == |messages|
    ensures Decoded(Written(SentAll(FRESH, messages).effects)) == messages
    ensures Decoded(Wire(Dressed(messages, keys))) == messages
  {
    SentIsWire(FRESH, messages);
    WireDecodes(messages, Bare(|messages|));
    WireDecodes(messages, keys);
    Empty(Wire(Dressed(messages, Bare(|messages|))));
  }

  // ---------- the guard is what chunking can change, and closing is final ----------

  lemma {:induction false} PongsAreSilent(c: Conn, n: nat)
    requires c.open
    ensures AllLegal(seq(n, _ => WireFrame(0x8a, Short, None, [])))
    ensures Reaction(c, seq(n, _ => WireFrame(0x8a, Short, None, []))) == c
    ensures |Wire(seq(n, _ => WireFrame(0x8a, Short, None, [])))| == 2 * n
  {
    var frames := seq(n, _ => WireFrame(0x8a, Short, None, []));
    if n > 0 {
      assert frames[1..] == seq(n - 1, _ => WireFrame(0x8a, Short, None, []));
      PongsAreSilent(c, n - 1);
    }
  }

  /** Without the guard condition chunk independence fails: empty pongs in one large chunk close it. */
  lemma GuardSeesChunks() returns (stream: seq<byte>)
    ensures !UpToClose(FRESH, [stream]).open && UpToClose(FRESH, Singles(stream)).open
  {
    var frames := seq(MAX_FRAME_BYTES, _ => WireFrame(0x8a, Short, None, []));
    PongsAreSilent(FRESH, MAX_FRAME_BYTES);
    stream := Wire(frames);
    BytewiseIsOneShot(stream);
    DrainIsReaction(FRESH, frames, []);
    Empty(stream);
    assert UpToClose(FRESH, [stream]) == UpToClose(Received(FRESH, stream), []);
  }

  /** A frame that nobody hears of: it delivers, answers and closes nothing. */
  predicate Silent(opcode: byte) {
    opcode != OP_CLOSE && opcode != OP_PING && opcode != OP_TEXT && opcode != OP_BIN
  }

  /** Silent frames, then a header that announces too much. */
  predicate SilentThenOversize(buf: seq<byte>) {
    match ParseFrame(buf)
    case Incomplete => false
    case Oversize => true
    case Complete(opcode, _, used) => Silent(opcode) && SilentThenOversize(buf[used..])
  }

  lemma {:induction false} DrainExtends(c: Conn)
    ensures c.effects <= Drained(c).effects
    decreases |c.buf|
  {
    match ParseFrame(c.buf)
    case Incomplete =>
    case Oversize =>
    case Complete(opcode, payload, used) =>
      if opcode != OP_CLOSE {
        DrainExtends(Answered(c.(buf := c.buf[used..]), opcode, payload));
      }
  }

  /** The first effect of refusing a chunk: a close frame with eleven octets of payload. */
  predicate StartsRefusal(before: seq<Effect>, effects: seq<Effect>) {
    && |effects| > |before| && effects[|before|].Write?
    && |effects[|before|].bytes| >= 2 && effects[|before|].bytes[0] == 0x88 && effects[|before|].bytes[1] == 11
  }

  lemma RefusalStarts(c: Conn)
    requires c.open
    ensures StartsRefusal(c.effects, Closed(c, 1009, TOO_LARGE).effects)
  {
  }

  lemma CloseStarts(c: Conn)
    requires c.open
    ensures !StartsRefusal(c.effects, Closed(c, 1000, []).effects)
  {
    assert Closed(c, 1000, []).effects[|c.effects|] == Write([0x88, 2] + (ToBigEndian(1000, 2) + []));
  }

  lemma AnswerStarts(c: Conn, opcode: byte, payload: seq<byte>)
    requires c.open && |payload| <= MAX_FRAME_BYTES && !Silent(opcode) && opcode != OP_CLOSE
    ensures var next := Answered(c, opcode, payload);
            |next.effects| == |c.effects| + 1 && !StartsRefusal(c.effects, next.effects)
  {
  }

  /** A frame that is heard has an effect first that is not the refusal of a chunk. */
  lemma HeardFirst(c: Conn)
    requires c.open && ParseFrame(c.buf).Complete? && !Silent(ParseFrame(c.buf).opcode)
    ensures !StartsRefusal(c.effects, Drained(c).effects)
  {
    var p := ParseFrame(c.buf);
    var rest := c.(buf := c.buf[p.used..]);
    if p.opcode == OP_CLOSE {
      CloseStarts(rest);
    } else {
      AnswerStarts(rest, p.opcode, p.payload);
      DrainExtends(Answered(rest, p.opcode, p.payload));
    }
  }

  /** Refusing a chunk does what the decoder does exactly on silent frames and an oversize header. */
  lemma {:induction false} RefusalIff(c: Conn)
    requires c.open
    ensures Agree(Closed(c, 1009, TOO_LARGE), Drained(c)) <==> SilentThenOversize(c.buf)
    decreases |c.buf|
  {
    match ParseFrame(c.buf)
    case Incomplete =>
    case Oversize =>
    case Complete(opcode, payload, used) =>
      if Silent(opcode) {
        RefusalIff(c.(buf := c.buf[used..]));
      } else {
        HeardFirst(c);
        RefusalStarts(c);
      }
  }

  /** The guard lets every chunk through, or the rest is such that refusing it is right. */
  predicate Fair(c: Conn, chunks: seq<seq<byte>>)
    decreases |chunks|
  {
    c.open && chunks != [] ==>
      if Trips(c, chunks[0]) then SilentThenOversize(c.buf + Flatten(chunks))
      else Fair(Received(c, chunks[0]), chunks[1..])
  }

  /**
   * Main result: chunks do what their concatenation does in one piece exactly when the guard trips on none of
   * them, or where it first trips the rest is silent frames followed by an oversize header.
   */
  lemma {:induction false} ChunksAgreeIff(c: Conn, chunks: seq<seq<byte>>)
    requires c.open && ParseFrame(c.buf).Incomplete?
    ensures Agree(UpToClose(c, chunks), Drained(c.(buf := c.buf + Flatten(chunks)))) <==> Fair(c, chunks)
    decreases |chunks|
  {
    if chunks == [] {
      Empty(c.buf);
    } else if Trips(c, chunks[0]) {
      RefusedStops(c, chunks);
      RefusalIff(c.(buf := c.buf + Flatten(chunks)));
    } else {
      var first, rest := c.(buf := c.buf + chunks[0]), Flatten(chunks[1..]);
      DrainInTwo(first, rest);
      Assoc(c.buf, chunks[0], rest);
      if Drained(first).open {
        DrainWaits(first);
        ChunksAgreeIff(Drained(first), chunks[1..]);
      }
    }
  }

  lemma RefusedStops(c: Conn, chunks: seq<seq<byte>>)
    requires c.open && chunks != [] && Trips(c, chunks[0])
    ensures UpToClose(c, chunks) == Closed(c, 1009, TOO_LARGE)
    ensures var d := c.(buf := c.buf + Flatten(chunks));
            Closed(d, 1009, TOO_LARGE) == Closed(c, 1009, TOO_LARGE).(buf := d.buf)
  {
  }

  lemma {:induction false} ClosedDrain(c: Conn)
    requires !c.open
    ensures !Drained(c).open && c.effects <= Drained(c).effects
    ensures Written(Drained(c).effects) == Written(c.effects)
    decreases |c.buf|
  {
    match ParseFrame(c.buf)
    case Incomplete =>
    case Oversize =>
    case Complete(opcode, payload, used) =>
      if opcode != OP_CLOSE {
        var next := Answered(c.(buf := c.buf[used..]), opcode, payload);
        assert next.effects == c.effects || next.effects[..|next.effects| - 1] == c.effects;
        ClosedDrain(next);
      }
  }

  /** A closed connection stays closed and never writes again, whatever still arrives. */
  lemma {:induction false} ClosedIsFinal(c: Conn, chunks: seq<seq<byte>>)
    requires !c.open
    ensures !Run(c, chunks).open && c.effects <= Run(c, chunks).effects
    ensures Written(Run(c, chunks).effects) == Written(c.effects)
    decreases |chunks|
  {
    if chunks != [] {
      ClosedDrain(c.(buf := c.buf + chunks[0]));
      ClosedIsFinal(Received(c, chunks[0]), chunks[1..]);
    }
  }

  /** What happened up to the first close is a prefix of what happens in all. */
  lemma {:induction false} CloseIsPrefix(c: Conn, chunks: seq<seq<byte>>)
    ensures UpToClose(c, chunks).effects <= Run(c, chunks).effects
    ensures Written(UpToClose(c, chunks).effects) == Written(Run(c, chunks).effects)
    ensures UpToClose(c, chunks).open == Run(c, chunks).open
    decreases |chunks|
  {
    if !c.open {
      ClosedIsFinal(c, chunks);
    } else if chunks != [] {
      CloseIsPrefix(Received(c, chunks[0]), chunks[1..]);
    }
  }
}
