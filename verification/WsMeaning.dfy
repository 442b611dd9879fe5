/**
 * What a WebSocket connection makes of a stream, in the terms of RFC 6455 alone: opcodes as numbers, messages
 * as octets with a flag, and the frames it writes as the parser reads them.
 */
module WsMeaning {
  import opened Bytes
  import opened Seqs
  import opened WsFrames
  import opened WsConnection
  import opened WsStream

  // ---------- frames that have an effect ----------

  /** Section 5.2: 1 is a text frame, 2 a binary one, 8 a close, 9 a ping, 10 a pong. */
  function Opcode(w: WireFrame): byte {
    w.b0 % 16
  }

  /** The text, binary and ping frames, in order. */
  function Heard(frames: seq<WireFrame>): seq<WireFrame> {
    if frames == [] then []
    else (if Opcode(frames[0]) in {1, 2, 9} then [frames[0]] else []) + Heard(frames[1..])
  }

  /** A frame written: final, unmasked, and nothing but this opcode and payload. */
  predicate Writes(e: Effect, opcode: byte, payload: seq<byte>) {
    e.Write? && ParseFrame(e.bytes) == Complete(opcode, payload, |e.bytes|) && e.bytes[0] == 128 + opcode
  }

  /** A text frame is delivered as text, a binary one as binary, and a ping is answered by a pong of its payload. */
  predicate Answers(e: Effect, w: WireFrame)
    requires Legal(w)
  {
    match Opcode(w)
    case 1 => e == Deliver(Payload(w), false)
    case 2 => e == Deliver(Payload(w), true)
    case _ => Writes(e, 10, Payload(w))
  }

  ghost predicate AllAnswered(effects: seq<Effect>, frames: seq<WireFrame>)
    requires AllLegal(frames)
  {
    |effects| == |frames| && forall i | 0 <= i < |effects| :: Answers(effects[i], frames[i])
  }

  /** A connection ends with one close frame of this code and reason, the end of the socket and one notice. */
  predicate EndsWith(effects: seq<Effect>, code: nat, reason: seq<byte>)
    requires code < 65536
  {
    && |effects| == 3 && Writes(effects[0], 8, [code / 256, code % 256] + reason)
    && effects[1] == End && effects[2] == EmitClose
  }

  /** "too large" */
  const REASON: seq<byte> := [116, 111, 111, 32, 108, 97, 114, 103, 101]

  predicate NoClose(frames: seq<WireFrame>) {
    forall i | 0 <= i < |frames| :: Opcode(frames[i]) != 8
  }

  lemma {:induction false} HeardLegal(frames: seq<WireFrame>)
    requires AllLegal(frames)
    ensures AllLegal(Heard(frames))
  {
    if frames != [] {
      HeardLegal(frames[1..]);
    }
  }

  // ---------- what is written is read as what it is ----------

  lemma ServerFrameIsRead(opcode: byte, payload: seq<byte>)
    requires opcode < 16 && |payload| <= MAX_FRAME_BYTES
    ensures var w := ServerFrame(opcode, payload);
            && Legal(w) && Layout(w)[0] == 128 + opcode
            && ParseFrame(Layout(w)) == Complete(opcode, payload, |Layout(w)|)
  {
    var w := ServerFrame(opcode, payload);
    assert Pow256(8) > MAX_FRAME_BYTES;
    ParseLayout(w, []);
    Empty(Layout(w));
  }

  lemma SentIsLayout(c: Conn, opcode: byte, payload: seq<byte>)
    requires c.open && opcode < 16 && |payload| <= MAX_FRAME_BYTES && Legal(ServerFrame(opcode, payload))
    ensures Pow256(8) > MAX_FRAME_BYTES
    ensures Sent(c, opcode, payload).effects == c.effects + [Write(Layout(ServerFrame(opcode, payload)))]
  {
    assert Pow256(8) > MAX_FRAME_BYTES;
    var w := ServerFrame(opcode, payload);
    Empty(HeaderBytes(w.b0, false, w.form, |payload|));
  }

  lemma SentIsRead(c: Conn, opcode: byte, payload: seq<byte>)
    requires c.open && opcode < 16 && |payload| <= MAX_FRAME_BYTES
    ensures Pow256(8) > MAX_FRAME_BYTES
    ensures var effects := Sent(c, opcode, payload).effects;
            |effects| == |c.effects| + 1 && effects[..|c.effects|] == c.effects
            && Writes(effects[|c.effects|], opcode, payload)
  {
    ServerFrameIsRead(opcode, payload);
    SentIsLayout(c, opcode, payload);
  }

  lemma AnsweredIsHeard(c: Conn, w: WireFrame)
    requires c.open && Legal(w) && Opcode(w) != 8
    ensures var effects := WsConnection.Answered(c, Opcode(w), Payload(w)).effects;
            if Opcode(w) in {1, 2, 9} then
              && |effects| == |c.effects| + 1 && effects[..|c.effects|] == c.effects
              && Answers(effects[|c.effects|], w)
            else effects == c.effects
  {
    SentIsRead(c, 10, Payload(w));
  }

  lemma ClosedIsRead(c: Conn, code: nat, reason: seq<byte>)
    requires c.open && !c.closedEmitted && code < 65536 && |reason| < 1000
    ensures Pow256(8) > MAX_FRAME_BYTES
    ensures var effects := Closed(c, code, reason).effects;
            c.effects <= effects && EndsWith(effects[|c.effects|..], code, reason)
  {
    assert Pow256(8) > MAX_FRAME_BYTES;
    assert ToBigEndian(code, 2) == [code / 256, code % 256];
    SentIsRead(c, 8, ToBigEndian(code, 2) + reason);
  }

  // ---------- whole streams ----------

  /** Frames without a close are taken one by one, whatever follows them; `d` is the connection after them. */
  lemma {:induction false} DrainFrames(c: Conn, frames: seq<WireFrame>, rest: seq<byte>) returns (d: Conn)
    requires AllLegal(frames) && NoClose(frames) && c.open && !c.closedEmitted
    ensures AllLegal(Heard(frames)) && d.open && !d.closedEmitted && d.buf == rest
    ensures c.effects <= d.effects && AllAnswered(d.effects[|c.effects|..], Heard(frames))
    ensures Drained(c.(buf := Wire(frames) + rest)) == Drained(d)
    decreases |frames|
  {
    HeardLegal(frames);
    if frames == [] {
      Empty(rest);
      d := c.(buf := rest);
    } else {
      var w, more := frames[0], Wire(frames[1..]) + rest;
      assert Opcode(frames[0]) != 8 && NoClose(frames[1..]);
      var next := WsConnection.Answered(c.(buf := more), Opcode(w), Payload(w));
      TakesOne(c, w, more, Wire(frames) + rest, Wire(frames[1..]), rest);
      d := DrainFrames(next, frames[1..], rest);
      AnsweredInFront(c.effects, next.effects, d.effects, frames);
    }
  }

  lemma TakesOne(c: Conn, w: WireFrame, more: seq<byte>, all: seq<byte>, wire: seq<byte>, rest: seq<byte>)
    requires c.open && Legal(w) && Opcode(w) != 8 && more == wire + rest && all == Layout(w) + wire + rest
    ensures var next := WsConnection.Answered(c.(buf := more), Opcode(w), Payload(w));
            && Drained(c.(buf := all)) == Drained(next) && next.open && next.closedEmitted == c.closedEmitted
            && next.(buf := more) == next
            && if Opcode(w) in {1, 2, 9} then
                 && |next.effects| == |c.effects| + 1 && next.effects[..|c.effects|] == c.effects
                 && Answers(next.effects[|c.effects|], w)
               else next.effects == c.effects
  {
    Assoc(Layout(w), wire, rest);
    ParseLayout(w, more);
    Cut(Layout(w), more);
    AnsweredIsHeard(c.(buf := more), w);
  }

  lemma AnsweredInFront(before: seq<Effect>, next: seq<Effect>, all: seq<Effect>, frames: seq<WireFrame>)
    requires frames != [] && AllLegal(frames) && AllLegal(Heard(frames)) && AllLegal(Heard(frames[1..]))
    requires if Opcode(frames[0]) in {1, 2, 9} then
               |next| == |before| + 1 && next[..|before|] == before && Answers(next[|before|], frames[0])
             else next == before
    requires next <= all && AllAnswered(all[|next|..], Heard(frames[1..]))
    ensures before <= all && AllAnswered(all[|before|..], Heard(frames))
  {
  }

  /**
   * Main result: a stream of legal frames without a close and whatever comes after them, cut anywhere into chunks
   * that pass the guard, has the effects that section 5 of RFC 6455 gives its text, binary and ping frames, in
   * order and no others; then it waits for more, or closes as what comes after demands. Every stream is of this form.
   */
  lemma StreamIsHeard(frames: seq<WireFrame>, rest: seq<byte>, chunks: seq<seq<byte>>)
    requires AllLegal(frames) && NoClose(frames)
    requires Flatten(chunks) == Wire(frames) + rest && Untripped(FRESH, chunks)
    ensures AllLegal(Heard(frames))
    ensures var c := UpToClose(FRESH, chunks); var n := |Heard(frames)|;
            && n <= |c.effects| && AllAnswered(c.effects[..n], Heard(frames))
            && (ParseFrame(rest).Incomplete? ==> |c.effects| == n && c.open && c.buf == rest)
            && (ParseFrame(rest).Complete? && ParseFrame(rest).opcode == 8 ==>
                  !c.open && EndsWith(c.effects[n..], 1000, []))
            && (ParseFrame(rest).Oversize? ==> !c.open && EndsWith(c.effects[n..], 1009, REASON))
  {
    ChunksAreOneStream(FRESH, chunks);
    Empty(Flatten(chunks));
    var d := DrainFrames(FRESH, frames, rest);
    assert d.effects[0..] == d.effects;
    RestDecides(d);
    AnsweredPrefix(d.effects, Drained(d).effects, frames);
  }

  lemma AnsweredPrefix(some: seq<Effect>, all: seq<Effect>, frames: seq<WireFrame>)
    requires AllLegal(Heard(frames)) && AllAnswered(some, Heard(frames)) && some <= all
    ensures AllAnswered(all[..|Heard(frames)|], Heard(frames)) && all[..|Heard(frames)|] == some
  {
  }

  lemma RestDecides(d: Conn)
    requires d.open && !d.closedEmitted
    ensures var all, p := Drained(d), ParseFrame(d.buf);
            && (p.Incomplete? ==> all == d)
            && (p.Complete? && p.opcode == 8 ==>
                  !all.open && d.effects <= all.effects && EndsWith(all.effects[|d.effects|..], 1000, []))
            && (p.Oversize? ==>
                  !all.open && d.effects <= all.effects && EndsWith(all.effects[|d.effects|..], 1009, REASON))
            && d.effects <= all.effects
  {
    DrainExtends(d);
    var p := ParseFrame(d.buf);
    if p.Complete? && p.opcode == 8 {
      ClosedIsRead(d.(buf := d.buf[p.used..]), 1000, []);
    } else if p.Oversize? {
      ClosedIsRead(d, 1009, REASON);
    }
  }

  /** A chunk that would take the buffer past 1 MiB and 14 bytes closes an open connection; no other is refused. */
  lemma GuardRefuses(c: Conn, chunk: seq<byte>)
    requires c.open && !c.closedEmitted
    ensures var next := Received(c, chunk);
            if |c.buf| + |chunk| > 1_048_590 then
              !next.open && c.effects <= next.effects && EndsWith(next.effects[|c.effects|..], 1009, REASON)
            else next == Drained(c.(buf := c.buf + chunk))
  {
    ClosedIsRead(c, 1009, REASON);
  }

  // ---------- examples of section 5.7 ----------

  /** A text frame "Hello"; the headers of 256 and of 65536 bytes of binary data; the header of a masked frame. */
  lemma Examples(rest: seq<byte>)
    ensures ParseFrame([0x81, 0x05, 0x48, 0x65, 0x6c, 0x6c, 0x6f]) == Complete(1, [0x48, 0x65, 0x6c, 0x6c, 0x6f], 7)
    ensures ReadHeader([0x82, 0x7e, 0x01, 0x00] + rest) == Header(2, false, 256, 4)
    ensures ReadHeader([0x82, 0x7f, 0, 0, 0, 0, 0, 1, 0, 0] + rest) == Header(2, false, 65536, 10)
    ensures ReadHeader([0x81, 0x85] + rest) == Header(1, true, 5, 2)
  {
    var hello := [0x81, 0x05, 0x48, 0x65, 0x6c, 0x6c, 0x6f];
    assert hello[2..7] == [0x48, 0x65, 0x6c, 0x6c, 0x6f];
    MediumLength();
    LongLength();
    assert ([0x82, 0x7e, 0x01, 0x00] + rest)[2..4] == [0x01, 0x00];
    assert ([0x82, 0x7f, 0, 0, 0, 0, 0, 1, 0, 0] + rest)[2..10] == [0, 0, 0, 0, 0, 1, 0, 0];
  }

  lemma MediumLength()
    ensures BigEndian([0x01, 0x00]) == 256
  {
    BigEndianMore([0x01], 0);
    BigEndianMore([], 1);
    assert [] + [1] == [1] && [0x01] + [0] == [0x01, 0x00];
  }

  lemma BigEndianMore(bytes: seq<byte>, last: byte)
    ensures BigEndian(bytes + [last]) == 256 * BigEndian(bytes) + last
  {
    assert (bytes + [last])[..|bytes|] == bytes;
  }

  lemma {:induction false} Zeros(bytes: seq<byte>)
    requires forall i | 0 <= i < |bytes| :: bytes[i] == 0
    ensures BigEndian(bytes) == 0
  {
    if bytes != [] {
      Zeros(bytes[..|bytes| - 1]);
    }
  }

  lemma LongLength()
    ensures BigEndian([0, 0, 0, 0, 0, 1, 0, 0]) == 65536
  {
    Zeros([0, 0, 0, 0, 0]);
    BigEndianMore([0, 0, 0, 0, 0], 1);
    BigEndianMore([0, 0, 0, 0, 0, 1], 0);
    BigEndianMore([0, 0, 0, 0, 0, 1, 0], 0);
    assert [0, 0, 0, 0, 0] + [1] == [0, 0, 0, 0, 0, 1];
    assert [0, 0, 0, 0, 0, 1] + [0] == [0, 0, 0, 0, 0, 1, 0];
    assert [0, 0, 0, 0, 0, 1, 0] + [0] == [0, 0, 0, 0, 0, 1, 0, 0];
  }

  // ---------- masks ----------

  function Bit(n: nat, k: nat): nat
    decreases k
  {
    if k == 0 then n % 2 else Bit(n / 2, k - 1)
  }

  lemma {:induction false} XorBit(a: nat, b: nat, k: nat)
    ensures Bit(XorNat(a, b), k) == (Bit(a, k) + Bit(b, k)) % 2
    decreases k
  {
    if a == 0 && b == 0 {
      ZeroBit(k);
    } else {
      LastBit(a, b, XorNat(a / 2, b / 2));
      if k == 0 {
        SumParity(a, b, XorNat(a / 2, b / 2));
      } else {
        XorBit(a / 2, b / 2, k - 1);
      }
    }
  }

  lemma SumParity(a: nat, b: nat, half: nat)
    ensures (2 * half + (a + b) % 2) % 2 == (a % 2 + b % 2) % 2
  {
    assert a + b == 2 * (a / 2 + b / 2) + (a % 2 + b % 2);
    assert (a + b) % 2 == (a % 2 + b % 2) % 2;
  }

  lemma {:induction false} ZeroBit(k: nat)
    ensures Bit(0, k) == 0
  {
    if k > 0 {
      ZeroBit(k - 1);
    }
  }

  /** Section 5.3: bit by bit, octet i of the data is the exclusive or of what travels and octet i mod 4 of the key. */
  lemma {:induction false} MaskedBits(payload: seq<byte>, key: seq<byte>, i: nat, k: nat)
    requires |key| == 4 && i < |payload|
    ensures Bit(Masked(payload, key)[i], k) == (Bit(payload[i], k) + Bit(key[i % 4], k)) % 2
    decreases |payload|
  {
    var last := |payload| - 1;
    if i == last {
      XorBit(payload[i], key[i % 4], k);
    } else {
      MaskedBits(payload[..last], key, i, k);
    }
  }

  // ---------- the listeners are told once ----------

  /** Everything that can happen to a connection; `Gone` is the end or an error of its socket. */
  datatype Happening = Chunk(bytes: seq<byte>) | Send(opcode: byte, payload: seq<byte>)
    | Close(code: nat, reason: seq<byte>) | Gone

  predicate Possible(h: Happening) {
    match h
    case Send(opcode, payload) => opcode < 16 && |payload| < Pow256(8)
    case Close(code, reason) => code < 65536 && |reason| + 2 < Pow256(8)
    case _ => true
  }

  function After(c: Conn, h: Happening): Conn
    requires Possible(h)
  {
    match h
    case Chunk(bytes) => Received(c, bytes)
    case Send(opcode, payload) => Sent(c, opcode, payload)
    case Close(code, reason) => Closed(c, code, reason)
    case Gone => CloseEmitted(c)
  }

  function Told(effects: seq<Effect>): nat {
    if effects == [] then 0
    else Told(effects[..|effects| - 1]) + if effects[|effects| - 1] == EmitClose then 1 else 0
  }

  /** An open connection has not told its listeners, and a closed one has, once. */
  predicate ToldOnce(c: Conn) {
    c.open == !c.closedEmitted && Told(c.effects) == if c.open then 0 else 1
  }

  lemma ToldMore(effects: seq<Effect>, e: Effect)
    ensures Told(effects + [e]) == Told(effects) + if e == EmitClose then 1 else 0
  {
    assert (effects + [e])[..|effects|] == effects;
  }

  lemma SentTells(c: Conn, opcode: byte, payload: seq<byte>)
    requires opcode < 16 && |payload| < Pow256(8)
    ensures var next := Sent(c, opcode, payload);
            next.open == c.open && next.closedEmitted == c.closedEmitted && Told(next.effects) == Told(c.effects)
  {
    var w := ServerFrame(opcode, payload);
    ToldMore(c.effects, Write(HeaderBytes(w.b0, false, w.form, |payload|) + payload));
  }

  lemma ClosedTells(c: Conn, code: nat, reason: seq<byte>)
    requires code < 65536 && |reason| + 2 < Pow256(8) && ToldOnce(c)
    ensures ToldOnce(Closed(c, code, reason))
  {
    if c.open {
      assert Pow256(8) > 65536;
      var sent := Sent(c, OP_CLOSE, ToBigEndian(code, 2) + reason);
      SentTells(c, OP_CLOSE, ToBigEndian(code, 2) + reason);
      ToldMore(sent.effects, End);
      ToldMore(sent.effects + [End], EmitClose);
    }
  }

  lemma AnsweredTells(c: Conn, opcode: byte, payload: seq<byte>)
    requires |payload| <= MAX_FRAME_BYTES
    ensures Told(WsConnection.Answered(c, opcode, payload).effects) == Told(c.effects)
  {
    assert Pow256(8) > MAX_FRAME_BYTES;
    SentTells(c, OP_PONG, payload);
    ToldMore(c.effects, Deliver(payload, opcode == OP_BIN));
  }

  lemma {:induction false} DrainedTells(c: Conn)
    requires ToldOnce(c)
    ensures ToldOnce(Drained(c))
    decreases |c.buf|
  {
    match ParseFrame(c.buf)
    case Incomplete =>
    case Oversize =>
      ClosedTells(c, 1009, TOO_LARGE);
    case Complete(opcode, payload, used) =>
      var rest := c.(buf := c.buf[used..]);
      if opcode == OP_CLOSE {
        ClosedTells(rest, 1000, []);
      } else {
        AnsweredTells(rest, opcode, payload);
        DrainedTells(WsConnection.Answered(rest, opcode, payload));
      }
  }

  function AfterAll(happenings: seq<Happening>): Conn
    requires forall h | h in happenings :: Possible(h)
  {
    if happenings == [] then FRESH
    else After(AfterAll(happenings[..|happenings| - 1]), happenings[|happenings| - 1])
  }

  lemma AfterTells(c: Conn, h: Happening)
    requires Possible(h) && ToldOnce(c)
    ensures ToldOnce(After(c, h)) && (!c.open || h.Gone? ==> !After(c, h).open)
  {
    match h
    case Chunk(bytes) =>
      ClosedTells(c, 1009, TOO_LARGE);
      DrainedTells(c.(buf := c.buf + bytes));
      DrainedStaysClosed(c.(buf := c.buf + bytes));
    case Send(opcode, payload) =>
      SentTells(c, opcode, payload);
    case Close(code, reason) =>
      ClosedTells(c, code, reason);
    case Gone =>
      ToldMore(c.effects, EmitClose);
  }

  /** Main result: whatever happens, a closed connection has told its listeners exactly once, an open one not yet. */
  lemma {:induction false} ListenersAreToldOnce(happenings: seq<Happening>)
    requires forall h | h in happenings :: Possible(h)
    ensures ToldOnce(AfterAll(happenings)) && (Gone in happenings ==> !AfterAll(happenings).open)
  {
    if happenings != [] {
      var front, h := happenings[..|happenings| - 1], happenings[|happenings| - 1];
      assert happenings == front + [h] && h in happenings;
      ListenersAreToldOnce(front);
      AfterTells(AfterAll(front), h);
    }
  }

  lemma {:induction false} DrainedStaysClosed(c: Conn)
    ensures !c.open ==> !Drained(c).open
    decreases |c.buf|
  {
    match ParseFrame(c.buf)
    case Complete(opcode, payload, used) =>
      if opcode != OP_CLOSE {
        DrainedStaysClosed(WsConnection.Answered(c.(buf := c.buf[used..]), opcode, payload));
      }
    case _ =>
  }
}
