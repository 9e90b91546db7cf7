/** The frames the honeypot answers with and the choice of handler for a
    received packet: `handle_handshake`, `handle_ping` and `handle_packet`
    as functions of the bytes in the receive buffer. */
module Protocol {
  import opened CText

  /** What the program does to the world outside its own memory. */
  datatype Event =
    | Logged(ip: seq<byte>)             // log_ip(ip)
    | Received(fd: int)                 // one recv() on the client socket
    | Sent(fd: int, bytes: seq<byte>)   // one send() of these bytes
    | Closed(fd: int)                   // close(fd)

  const HandshakeId: byte := 0x00
  const PingId: byte := 0x01
  const StatusResponseId: byte := 0x00
  /** The `nextState` value of a handshake that asks for the status phase. */
  const StatusState: byte := 1
  /** One length byte and an 8-byte long. */
  const PingMinSize: int := 9

  /** A conversion to `unsigned char`. */
  function U8(x: int): byte { x % 256 }

  /** The Status Response frame `handle_handshake` builds from the stored JSON
      of length n, computing its three lengths in `unsigned char`:
      `[2 + n, 0x00, n, json...]`. The frame buffer is a variable-length
      array of `1 + length` bytes, so n must stay small enough that this
      does not wrap (n <= 252) or `memcpy` would write past its end. */
  function StatusFrame(json: seq<byte>): (f: seq<byte>)
    requires |json| <= 252
    ensures |f| == 3 + |json|
    ensures f[0] == 2 + |json| && f[1] == StatusResponseId && f[2] == |json|
    ensures f[3..] == json
  {
    var responseLength := U8(|json|);
    var length := U8(1 + 1 + responseLength);
    var total := U8(1 + length);
    seq(total, i requires 0 <= i < total =>
      if i == 0 then length
      else if i == 1 then StatusResponseId
      else if i == 2 then responseLength
      else json[i - 3])
  }

  /** A frame is the Status Response for `json` as soon as its header bytes
      and its payload bytes are those of that frame. */
  lemma StatusFrameFromLayout(f: seq<byte>, json: seq<byte>)
    requires |json| <= 252 && |f| == 3 + |json|
    requires f[0] == 2 + |json| && f[1] == StatusResponseId && f[2] == |json|
    requires forall j | 0 <= j < |json| :: f[3 + j] == json[j]
    ensures f == StatusFrame(json)
  {
    var frame := StatusFrame(json);
    forall k | 0 <= k < |f|
      ensures f[k] == frame[k]
    {
      if k >= 3 {
        assert frame[k] == frame[3..][k - 3];
      }
    }
  }

  /** The frame `handle_handshake` sends, if any, when the first `dataSize`
      bytes of `buffer` were received and `json` is the stored payload. */
  function HandshakeReply(buffer: seq<byte>, dataSize: int, json: seq<byte>): (r: Option<seq<byte>>)
    requires dataSize <= |buffer| && |json| <= 252
    ensures r.Some? <==> 0 < dataSize && buffer[dataSize - 1] == StatusState
    ensures r.Some? ==> |r.value| == 3 + |json| && r.value[..3] == [2 + |json|, StatusResponseId, |json|]
    ensures r.Some? ==> r.value[3..] == json
  {
    if dataSize <= 0 then None
    else
      var nextState := buffer[dataSize - 1];
      if nextState != StatusState then None
      else
        var f := StatusFrame(json);
        assert f[..3] == [f[0], f[1], f[2]];
        Some(f)
  }

  /** `handle_handshake`'s return value: -1 when it sends nothing or `send`
      reports another count than the frame's length, else 0. */
  function HandshakeStatus(reply: Option<seq<byte>>, sendResult: int): (ret: int)
    ensures ret == 0 <==> reply.Some? && sendResult == |reply.value|
    ensures ret == 0 || ret == -1
  {
    match reply
    case None => -1
    case Some(frame) => if sendResult != |frame| then -1 else 0
  }

  /** The bytes `handle_ping` sends back: the received bytes themselves,
      when at least nine arrived. */
  function PingReply(buffer: seq<byte>, dataSize: int): (r: Option<seq<byte>>)
    requires dataSize <= |buffer|
    ensures r.Some? <==> dataSize >= PingMinSize
    ensures r.Some? ==> |r.value| == dataSize && forall i | 0 <= i < dataSize :: r.value[i] == buffer[i]
  {
    if dataSize < PingMinSize then None else Some(buffer[..dataSize])
  }

  /** `handle_ping`'s return value: 0 exactly when it sent and `send` reported
      the count the first received byte announces, one more than that byte. */
  function PingStatus(buffer: seq<byte>, dataSize: int, sendResult: int): (ret: int)
    requires 1 <= |buffer|
    ensures ret == 0 <==> dataSize >= PingMinSize && sendResult == buffer[0] as int + 1
    ensures ret == 0 || ret == -1
  {
    if dataSize < PingMinSize then -1
    else
      var length := buffer[0];
      if sendResult != length as int + 1 then -1 else 0
  }

  /** The events of sending `reply`, or none. */
  function Sends(fd: int, reply: Option<seq<byte>>): seq<Event>
  {
    match reply
    case None => []
    case Some(bytes) => [Sent(fd, bytes)]
  }

  datatype Handler = HandshakeHandler | PingHandler | Unrecognized

  /** The `switch` of `handle_packet` on the packet id. */
  function Dispatch(packetId: byte): (h: Handler)
    ensures h == HandshakeHandler <==> packetId == 0x00
    ensures h == PingHandler <==> packetId == 0x01
  {
    if packetId == HandshakeId then HandshakeHandler
    else if packetId == PingId then PingHandler
    else Unrecognized
  }

  /** What `handle_packet(fd, buffer, dataSize)` does: dispatch on `buffer[1]`
      (byte 0, the length, is read and not used); a ping is followed by
      closing the socket. */
  function PacketEvents(fd: int, buffer: seq<byte>, dataSize: int, json: seq<byte>): (ev: seq<Event>)
    requires 2 <= |buffer| && dataSize <= |buffer| && |json| <= 252
    ensures |ev| <= 2
    ensures forall e | e in ev :: e == Closed(fd) || (e.Sent? && e.fd == fd)
  {
    match Dispatch(buffer[1])
    case HandshakeHandler => Sends(fd, HandshakeReply(buffer, dataSize, json))
    case PingHandler => Sends(fd, PingReply(buffer, dataSize)) + [Closed(fd)]
    case Unrecognized => []
  }

  /** A handshake packet gets at most the status frame and leaves the socket
      open; a ping gets at most its echo and then the socket is closed; any
      other id gets nothing. */
  lemma DispatchEffects(fd: int, buffer: seq<byte>, dataSize: int, json: seq<byte>)
    requires 2 <= |buffer| && dataSize <= |buffer| && |json| <= 252
    ensures var ev := PacketEvents(fd, buffer, dataSize, json);
      && (buffer[1] == HandshakeId ==>
            ev == Sends(fd, HandshakeReply(buffer, dataSize, json)) && Closed(fd) !in ev)
      && (buffer[1] == PingId ==>
            |ev| >= 1 && ev[|ev| - 1] == Closed(fd) && ev[..|ev| - 1] == Sends(fd, PingReply(buffer, dataSize)))
      && (buffer[1] != HandshakeId && buffer[1] != PingId ==> ev == [])
      && (forall e | e in ev :: e == Closed(fd) || (e.Sent? && e.fd == fd))
  {
  }

  datatype Option<T> = None | Some(value: T)
}
