/**
 * WebSocket frames: the layout of section 5.2 of RFC 6455 as a printer, one pass of the incremental
 * parser, and the proof that the parser accepts exactly what the printer can print.
 */
module WsFrames {
  import opened Bytes
  import opened Seqs
  import opened Wrappers

  const OP_TEXT: byte := 0x1
  const OP_BIN: byte := 0x2
  const OP_CLOSE: byte := 0x8
  const OP_PING: byte := 0x9
  const OP_PONG: byte := 0xa
  const MAX_FRAME_BYTES := 1024 * 1024
  const MAX_SAFE_INTEGER := 0x1F_FFFF_FFFF_FFFF

  // ---------- the wire format ----------

  datatype LengthForm = Short | Medium | Long

  /**
   * A frame as a peer may send it: the sender picks the length form and whether to mask. The body is
   * what travels, so it is the application data xored with the key when there is one.
   */
  datatype WireFrame = WireFrame(b0: byte, form: LengthForm, key: Option<seq<byte>>, body: seq<byte>)

  predicate Fits(form: LengthForm, length: nat) {
    match form
    case Short => length < 126
    case Medium => length < 65536
    case Long => length < Pow256(8)
  }

  /** Frames the connection is willing to take. */
  predicate Legal(w: WireFrame) {
    && Fits(w.form, |w.body|)
    && |w.body| <= MAX_FRAME_BYTES
    && (w.key.Some? ==> |w.key.value| == 4)
  }

  function HeaderBytes(b0: byte, masked: bool, form: LengthForm, length: nat): (bytes: seq<byte>)
    requires Fits(form, length)
    ensures |bytes| == match form case Short => 2 case Medium => 4 case Long => 10
  {
    var maskBit := if masked then 128 else 0;
    match form
    case Short => [b0, maskBit + length]
    case Medium => [b0, maskBit + 126] + ToBigEndian(length, 2)
    case Long => [b0, maskBit + 127] + ToBigEndian(length, 8)
  }

  /** Section 5.3: octet i is xored with octet i modulo 4 of the key. */
  function Masked(payload: seq<byte>, key: seq<byte>): (out: seq<byte>)
    requires |key| == 4
    ensures |out| == |payload|
  {
    if payload == [] then []
    else
      var last := |payload| - 1;
      Masked(payload[..last], key) + [Xor(payload[last], key[last % 4])]
  }

  /** The application data of a frame. */
  function Payload(w: WireFrame): (payload: seq<byte>)
    requires Legal(w)
    ensures |payload| == |w.body|
  {
    if w.key.Some? then Masked(w.body, w.key.value) else w.body
  }

  function KeyBytes(w: WireFrame): seq<byte> {
    if w.key.Some? then w.key.value else []
  }

  function Layout(w: WireFrame): seq<byte>
    requires Legal(w)
  {
    HeaderBytes(w.b0, w.key.Some?, w.form, |w.body|) + KeyBytes(w) + w.body
  }

  /** The server's own frame: final, unmasked, and the shortest length form. */
  function ServerFrame(opcode: byte, payload: seq<byte>): WireFrame
    requires opcode < 16
  {
    var form := if |payload| < 126 then Short else if |payload| < 65536 then Medium else Long;
    WireFrame(128 + opcode, form, None, payload)
  }

  // ---------- one pass of the parse loop ----------

  datatype Header =
    | Partial
    | Huge
    | Header(opcode: byte, masked: bool, length: nat, offset: nat)

  function ReadHeader(buf: seq<byte>): (h: Header)
    ensures h.Header? ==> h.opcode < 16 && 2 <= h.offset <= 10 && h.offset <= |buf|
  {
    if |buf| < 2 then Partial
    else
      var opcode := buf[0] % 16;
      var masked := buf[1] >= 128;
      var len := buf[1] % 128;
      if len == 126 then
        if |buf| < 4 then Partial else Header(opcode, masked, BigEndian(buf[2..4]), 4)
      else if len == 127 then
        if |buf| < 10 then Partial
        else
          var big := BigEndian(buf[2..10]);
          if big > MAX_SAFE_INTEGER then Huge else Header(opcode, masked, big, 10)
      else Header(opcode, masked, len, 2)
  }

  datatype Parsed =
    | Incomplete
    | Oversize
    | Complete(opcode: byte, payload: seq<byte>, used: nat)

  function ParseFrame(buf: seq<byte>): (p: Parsed)
    ensures p.Complete? ==> 2 <= p.used <= |buf| && p.opcode < 16 && |p.payload| <= MAX_FRAME_BYTES
    ensures p.Incomplete? ==> |buf| <= MAX_FRAME_BYTES + 13
  {
    match ReadHeader(buf)
    case Partial => Incomplete
    case Huge => Oversize
    case Header(opcode, masked, length, offset) => ParseBody(buf, opcode, masked, length, offset)
  }

  function ParseBody(buf: seq<byte>, opcode: byte, masked: bool, length: nat, offset: nat): (p: Parsed)
    requires opcode < 16 && 2 <= offset <= 10
    ensures p.Complete? ==> 2 <= p.used <= |buf| && p.opcode < 16 && |p.payload| <= MAX_FRAME_BYTES
    ensures p.Incomplete? ==> |buf| <= MAX_FRAME_BYTES + 13
  {
    if length > MAX_FRAME_BYTES then Oversize
    else
      var start := offset + if masked then 4 else 0;
      if |buf| < start + length then Incomplete
      else
        var raw := buf[start..start + length];
        var payload := if masked then Masked(raw, buf[offset..offset + 4]) else raw;
        Complete(opcode, payload, start + length)
  }

  // ---------- the parser accepts exactly the layouts ----------

  lemma HeaderRead(b0: byte, masked: bool, form: LengthForm, length: nat, rest: seq<byte>)
    requires Fits(form, length)
    ensures var bytes := HeaderBytes(b0, masked, form, length);
            ReadHeader(bytes + rest) ==
            if length > MAX_SAFE_INTEGER then Huge else Header(b0 % 16, masked, length, |bytes|)
  {
    var bytes := HeaderBytes(b0, masked, form, length);
    var buf := bytes + rest;
    assert Pow256(2) == 65536;
    match form
    case Short =>
    case Medium =>
      assert buf[2..4] == ToBigEndian(length, 2);
      BigEndianRead(length, 2);
    case Long =>
      assert buf[2..10] == ToBigEndian(length, 8);
      BigEndianRead(length, 8);
  }

  lemma BodyOfLayout(header: seq<byte>, opcode: byte, w: WireFrame, rest: seq<byte>)
    requires Legal(w) && opcode < 16 && 2 <= |header| <= 10
    ensures ParseBody(header + KeyBytes(w) + w.body + rest, opcode, w.key.Some?, |w.body|, |header|) ==
            Complete(opcode, Payload(w), |header + KeyBytes(w) + w.body|)
  {
    var key := KeyBytes(w);
    Middle(header + key, w.body, rest);
    Middle(header, key, w.body + rest);
    Assoc(header + key, w.body, rest);
    Empty(header);
  }

  /** Every legal frame at the head of the buffer is decoded to its opcode and application data. */
  lemma ParseLayout(w: WireFrame, rest: seq<byte>)
    requires Legal(w)
    ensures ParseFrame(Layout(w) + rest) == Complete(w.b0 % 16, Payload(w), |Layout(w)|)
  {
    var header := HeaderBytes(w.b0, w.key.Some?, w.form, |w.body|);
    HeaderRead(w.b0, w.key.Some?, w.form, |w.body|, KeyBytes(w) + (w.body + rest));
    BodyOfLayout(header, w.b0 % 16, w, rest);
    Assoc(header + KeyBytes(w), w.body, rest);
    Assoc(header, KeyBytes(w), w.body + rest);
  }

  function FormOf(b1: byte): LengthForm {
    if b1 % 128 == 126 then Medium else if b1 % 128 == 127 then Long else Short
  }

  /** The frame the parser saw at the head of a buffer. */
  function FrameSeen(buf: seq<byte>): WireFrame
    requires ParseFrame(buf).Complete?
  {
    var h := ReadHeader(buf);
    var start := h.offset + if h.masked then 4 else 0;
    WireFrame(buf[0], FormOf(buf[1]),
              if h.masked then Some(buf[h.offset..start]) else None,
              buf[start..start + h.length])
  }

  lemma HeaderWritten(buf: seq<byte>)
    requires ReadHeader(buf).Header?
    ensures var h := ReadHeader(buf);
            Fits(FormOf(buf[1]), h.length) && buf[..h.offset] == HeaderBytes(buf[0], h.masked, FormOf(buf[1]), h.length)
  {
    var h := ReadHeader(buf);
    assert Pow256(2) == 65536;
    match FormOf(buf[1])
    case Short =>
    case Medium =>
      BigEndianBound(buf[2..4]);
      BigEndianWrite(buf[2..4]);
    case Long =>
      BigEndianBound(buf[2..10]);
      BigEndianWrite(buf[2..10]);
  }

  lemma SeenParts(buf: seq<byte>)
    requires ParseFrame(buf).Complete?
    ensures var h := ReadHeader(buf); var w := FrameSeen(buf); var used := ParseFrame(buf).used;
            && h.offset <= used - h.length <= used <= |buf|
            && KeyBytes(w) == buf[h.offset..used - h.length] && w.body == buf[used - h.length..used]
  {
  }

  lemma SeenIsLegal(buf: seq<byte>)
    requires ParseFrame(buf).Complete?
    ensures var h := ReadHeader(buf); var w := FrameSeen(buf);
            && Legal(w) && w.b0 % 16 == ParseFrame(buf).opcode
            && HeaderBytes(w.b0, w.key.Some?, w.form, |w.body|) == buf[..h.offset]
  {
    HeaderWritten(buf);
    SeenParts(buf);
  }

  lemma SeenPayload(buf: seq<byte>)
    requires ParseFrame(buf).Complete? && Legal(FrameSeen(buf))
    ensures Payload(FrameSeen(buf)) == ParseFrame(buf).payload
  {
  }

  /** Whatever the parser accepts was the layout of a legal frame. */
  lemma ParsedIsLayout(buf: seq<byte>)
    requires ParseFrame(buf).Complete?
    ensures var p := ParseFrame(buf); var w := FrameSeen(buf);
            Legal(w) && w.b0 % 16 == p.opcode && Payload(w) == p.payload && Layout(w) == buf[..p.used]
  {
    SeenIsLegal(buf);
    SeenPayload(buf);
    SeenParts(buf);
    var used := ParseFrame(buf).used;
    Join3(buf, ReadHeader(buf).offset, used - ReadHeader(buf).length, used);
  }

  /** Main result: a buffer decodes to a frame exactly when it starts with a layout of that frame. */
  lemma ParseIffLayout(buf: seq<byte>, opcode: byte, payload: seq<byte>, used: nat)
    ensures ParseFrame(buf) == Complete(opcode, payload, used)
       <==> exists w :: Legal(w) && |Layout(w)| == used <= |buf| && Layout(w) == buf[..used]
                        && w.b0 % 16 == opcode && Payload(w) == payload
  {
    if ParseFrame(buf) == Complete(opcode, payload, used) {
      ParsedIsLayout(buf);
      assert Legal(FrameSeen(buf));
    }
    forall w | Legal(w) && |Layout(w)| == used <= |buf| && Layout(w) == buf[..used]
               && w.b0 % 16 == opcode && Payload(w) == payload
      ensures ParseFrame(buf) == Complete(opcode, payload, used)
    {
      ParseLayout(w, buf[used..]);
      assert buf == Layout(w) + buf[used..];
    }
  }

  /** A buffer is refused exactly when it starts with a header announcing more than the maximum. */
  lemma OversizeIffAnnounced(buf: seq<byte>)
    ensures ParseFrame(buf).Oversize?
       <==> exists b0: byte, masked: bool, form: LengthForm, length: nat ::
              && Fits(form, length) && length > MAX_FRAME_BYTES
              && HeaderBytes(b0, masked, form, length) <= buf
  {
    if ParseFrame(buf).Oversize? {
      if ReadHeader(buf).Header? {
        HeaderWritten(buf);
        assert HeaderBytes(buf[0], buf[1] >= 128, FormOf(buf[1]), ReadHeader(buf).length) <= buf;
      } else {
        BigEndianBound(buf[2..10]);
        BigEndianWrite(buf[2..10]);
        assert HeaderBytes(buf[0], buf[1] >= 128, Long, BigEndian(buf[2..10])) <= buf;
      }
    }
    forall b0: byte, masked: bool, form: LengthForm, length: nat | Fits(form, length) && length > MAX_FRAME_BYTES
                                      && HeaderBytes(b0, masked, form, length) <= buf
      ensures ParseFrame(buf).Oversize?
    {
      var bytes := HeaderBytes(b0, masked, form, length);
      HeaderRead(b0, masked, form, length, buf[|bytes|..]);
      assert buf == bytes + buf[|bytes|..];
    }
  }

  lemma HeaderStable(buf: seq<byte>, more: seq<byte>)
    requires !ReadHeader(buf).Partial?
    ensures ReadHeader(buf + more) == ReadHeader(buf)
  {
    if |buf| >= 4 {
      EarlySlice(buf, more, 2, 4);
    }
    if |buf| >= 10 {
      EarlySlice(buf, more, 2, 10);
    }
  }

  lemma BodyStable(buf: seq<byte>, more: seq<byte>, h: Header)
    requires h.Header? && h.opcode < 16 && 2 <= h.offset <= 10
    requires !ParseBody(buf, h.opcode, h.masked, h.length, h.offset).Incomplete?
    ensures ParseBody(buf + more, h.opcode, h.masked, h.length, h.offset) ==
            ParseBody(buf, h.opcode, h.masked, h.length, h.offset)
  {
    if h.length <= MAX_FRAME_BYTES {
      var start := h.offset + if h.masked then 4 else 0;
      EarlySlice(buf, more, start, start + h.length);
      EarlySlice(buf, more, h.offset, start);
    }
  }

  /** More input never changes a decision already taken. */
  lemma ParseStable(buf: seq<byte>, more: seq<byte>)
    requires !ParseFrame(buf).Incomplete?
    ensures ParseFrame(buf + more) == ParseFrame(buf)
  {
    HeaderStable(buf, more);
    if ReadHeader(buf).Header? {
      BodyStable(buf, more, ReadHeader(buf));
    }
  }

  /** The server's frame is legal and no other layout of a body of that length is shorter. */
  lemma ServerFrameIsShortest(opcode: byte, payload: seq<byte>, other: WireFrame)
    requires opcode < 16 && |payload| <= MAX_FRAME_BYTES
    requires Legal(other) && |other.body| == |payload|
    ensures Legal(ServerFrame(opcode, payload))
    ensures |Layout(ServerFrame(opcode, payload))| <= |Layout(other)|
  {
    assert Pow256(8) > MAX_FRAME_BYTES;
  }
}
