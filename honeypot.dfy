/** The program as it runs: its static buffers live in one `Server` object
    whose methods are the C functions that fill and read them, and what it
    does to sockets and the log file is appended to `trace`. */
module Honeypot {
  import opened CText
  import opened StatusJson
  import opened Protocol
  import opened Listen
  import Cli

  class Server {
    /** `static char buffer[1024]` of `begin_listen`, shared by every connection. */
    const recvBuffer: array<byte>
    /** `static char buffer[200]` of `update_json_response`. */
    const scratch: array<byte>
    /** `json_response_buffer[0xFF]`, written by rendering, read by the handshake. */
    const jsonResponse: array<byte>
    /** Log lines, reads, sends and closes, in the order they happen. */
    var trace: seq<Event>

    /** The buffers the loop's decisions depend on. */
    ghost function Snapshot(): State
      reads this, recvBuffer, jsonResponse
    {
      State(recvBuffer[..], jsonResponse[..])
    }

    ghost predicate Valid()
      reads this, recvBuffer, jsonResponse
    {
      StateOk(Snapshot()) && scratch.Length == ScratchCapacity
      && recvBuffer != scratch && recvBuffer != jsonResponse && scratch != jsonResponse
    }

    /** The string `strlen(json_response_buffer)` measures. */
    ghost function StoredJson(): seq<byte>
      reads this, jsonResponse
    {
      CStr(jsonResponse[..])
    }

    /** Program start: static storage is zero and nothing has happened yet. */
    constructor ()
      ensures Valid() && Snapshot() == InitialState() && trace == []
      ensures scratch[..] == seq(ScratchCapacity, _ => NUL)
      ensures fresh(recvBuffer) && fresh(scratch) && fresh(jsonResponse)
    {
      recvBuffer := new byte[RecvCapacity](_ => NUL);
      scratch := new byte[ScratchCapacity](_ => NUL);
      jsonResponse := new byte[ResponseCapacity](_ => NUL);
      trace := [];
      new;
      assert recvBuffer[..] == InitialState().recvBuffer;
      assert jsonResponse[..] == InitialState().jsonBuffer;
      assert Snapshot() == InitialState();
      assert jsonResponse[..][0] == NUL && CStr(jsonResponse[..]) == [];
      assert scratch[..] == seq(ScratchCapacity, _ => NUL);
    }

    /** `update_json_response(ip)`. `false` stands for `exit(EXIT_FAILURE)`:
        the scratch buffer already holds the text, the stored JSON is the
        previous one. */
    method UpdateJsonResponse(ip: CString) returns (ok: bool)
      requires Valid()
      modifies scratch, jsonResponse
      ensures Valid()
      ensures ok <==> Render(ip).Ok?
      ensures jsonResponse[..] == if ok then Snprintf(old(jsonResponse[..]), Render(ip).json) else old(jsonResponse[..])
      ensures ok ==> StoredJson() == Render(ip).json
      ensures scratch[..] == Snprintf(old(scratch[..]), JsonText(MaxPlayers, OnlinePlayers, Description(ip)))
    {
      var description := FormatDescription(ip);
      var text := JsonText(MaxPlayers, OnlinePlayers, description);
      JsonTextHasNoNul(Description(ip));
      var written := FormatInto(scratch, text);
      if written >= ScratchCapacity {
        return false;
      }
      if written > MaxJsonLength {
        return false;
      }
      DescriptionShape(ip);
      SnprintfReadsBack(old(scratch[..]), text);
      var jsonLength := StrLen(scratch);
      assert scratch[..jsonLength] == text;
      var copied := FormatInto(jsonResponse, scratch[..jsonLength]);
      SnprintfReadsBack(old(jsonResponse[..]), text);
      ok := true;
    }

    /** `receive_from_socket(fd, buffer, 1024)`: one `recv`, whose bytes land
        at the start of the shared buffer; a negative result reads as -1. */
    method Receive(fd: int, r: Recv) returns (received: int)
      requires Valid() && r.count <= RecvCapacity && (r.count > 0 ==> |r.data| == r.count)
      modifies this`trace, recvBuffer
      ensures Valid() && StoredJson() == old(StoredJson()) && jsonResponse[..] == old(jsonResponse[..])
      ensures received == if r.count < 0 then -1 else r.count
      ensures recvBuffer[..] == if r.count > 0 then r.data + old(recvBuffer[..])[r.count..] else old(recvBuffer[..])
      ensures trace == old(trace) + [Received(fd)]
    {
      trace := trace + [Received(fd)];
      if r.count < 0 {
        return -1;
      }
      var i := 0;
      while i < r.count
        modifies recvBuffer
        invariant 0 <= i <= r.count
        invariant recvBuffer[..i] == r.data[..i]
        invariant forall j | i <= j < recvBuffer.Length :: recvBuffer[j] == old(recvBuffer[j])
      {
        recvBuffer[i] := r.data[i];
        assert recvBuffer[..i + 1] == recvBuffer[..i] + [r.data[i]];
        assert r.data[..i + 1] == r.data[..i] + [r.data[i]];
        i := i + 1;
      }
      assert recvBuffer[r.count..] == old(recvBuffer[..])[r.count..];
      assert recvBuffer[..] == recvBuffer[..r.count] + recvBuffer[r.count..];
      received := r.count;
    }

    /** `handle_handshake(fd, buffer, dataSize)`; `sendResult` is what `send`
        returns. */
    method HandleHandshake(fd: int, dataSize: int, sendResult: int) returns (ret: int)
      requires Valid() && dataSize <= recvBuffer.Length
      modifies this`trace
      ensures Valid()
      ensures trace == old(trace) + Sends(fd, HandshakeReply(recvBuffer[..], dataSize, StoredJson()))
      ensures ret == HandshakeStatus(HandshakeReply(recvBuffer[..], dataSize, StoredJson()), sendResult)
    {
      if dataSize <= 0 {
        return -1;
      }
      var nextState := recvBuffer[dataSize - 1];
      if nextState != StatusState {
        return -1;
      }
      var packet := BuildStatusPacket(jsonResponse);
      trace := trace + [Sent(fd, packet[..])];
      ret := if sendResult != packet.Length then -1 else 0;
    }

    /** `handle_ping(fd, buffer, dataSize)`: echo what arrived. */
    method HandlePing(fd: int, dataSize: int, sendResult: int) returns (ret: int)
      requires Valid() && dataSize <= recvBuffer.Length
      modifies this`trace
      ensures Valid()
      ensures trace == old(trace) + Sends(fd, PingReply(recvBuffer[..], dataSize))
      ensures ret == PingStatus(recvBuffer[..], dataSize, sendResult)
    {
      if dataSize < PingMinSize {
        return -1;
      }
      var length := recvBuffer[0];
      trace := trace + [Sent(fd, recvBuffer[..dataSize])];
      if sendResult != length as int + 1 {
        return -1;
      }
      return 0;
    }

    /** `handle_packet(fd, buffer, dataSize)`: the handlers' results are
        dropped; a ping closes the socket. */
    method HandlePacket(fd: int, dataSize: int, sendResult: int)
      requires Valid() && dataSize <= recvBuffer.Length
      modifies this`trace
      ensures Valid()
      ensures trace == old(trace) + PacketEvents(fd, recvBuffer[..], dataSize, StoredJson())
    {
      var length := recvBuffer[0];
      var packetId := recvBuffer[1];
      if packetId == HandshakeId {
        var handled := HandleHandshake(fd, dataSize, sendResult);
      } else if packetId == PingId {
        var handled := HandlePing(fd, dataSize, sendResult);
        trace := trace + [Closed(fd)];
      }
    }

    /** One pass of `begin_listen`'s loop body. */
    method ServeOne(attempt: Pass) returns (outcome: Outcome)
      requires Valid()
      modifies this`trace, recvBuffer, scratch, jsonResponse
      ensures Valid()
      ensures var p := Step(old(Snapshot()), attempt);
        && outcome == p.outcome && Snapshot() == p.state && trace == old(trace) + p.events
      ensures scratch[..] == Snprintf(old(scratch[..]), JsonText(MaxPlayers, OnlinePlayers, Description(ClientIp(attempt))))
    {
      var clientFd := attempt.fd;
      var clientIp := ClientIp(attempt);
      trace := trace + [Logged(clientIp)];
      var ok := UpdateJsonResponse(clientIp);
      if !ok {
        return Exited;
      }
      ghost var rendered: Memory := State(old(Snapshot()).recvBuffer, Snprintf(old(Snapshot()).jsonBuffer, Render(clientIp).json));
      assert Snapshot() == rendered;
      if clientFd < 0 {
        return Listening;
      }
      ghost var before := trace;
      outcome := ServeConnection(attempt);
      ghost var c := Connection(rendered, attempt);
      assert trace == before + c.events;
      AppendAssoc(old(trace), [Logged(clientIp)], c.events);
    }

    /** The part of the loop body after the descriptor check. */
    method ServeConnection(attempt: Pass) returns (outcome: Outcome)
      requires Valid()
      modifies this`trace, recvBuffer
      ensures Valid()
      ensures var p := Connection(old(Snapshot()), attempt);
        && outcome == p.outcome && Snapshot() == p.state && trace == old(trace) + p.events
    {
      var clientFd := attempt.fd;
      var receivedBytes := Receive(clientFd, attempt.recv);
      if receivedBytes > 0 {
        HandlePacket(clientFd, receivedBytes, attempt.sendResult);
      } else if receivedBytes == 0 {
        return Stopped;
      } else {
        return Stopped;
      }
      trace := trace + [Closed(clientFd)];
      return Listening;
    }

    /** Pass `i` of `begin_listen` over `script`, begun where the first `i`
        passes left the loop state; `logged` is what was traced before. */
    method ServeNext(ghost start: Memory, script: seq<Pass>, i: nat, ghost logged: seq<Event>) returns (outcome: Outcome)
      requires Valid() && i < |script|
      requires var run := Run(start, script, i);
        && run.outcome == Listening && run.state == Snapshot() && trace == logged + run.events
      modifies this`trace, recvBuffer, scratch, jsonResponse
      ensures Valid()
      ensures var run := Run(start, script, i + 1);
        && outcome == run.outcome && Snapshot() == run.state && trace == logged + run.events
    {
      LoopSnoc(Step, start, script, i);
      ghost var prev := Run(start, script, i);
      outcome := ServeOne(script[i]);
      ghost var p := Step(prev.state, script[i]);
      AppendAssoc(logged, prev.events, p.events);
    }

    /** `begin_listen` over the passes `script` reports, up to the first
        that leaves the loop; `Listening` means the script ran out while the
        loop would go on. */
    method BeginListen(script: seq<Pass>) returns (outcome: Outcome)
      requires Valid()
      modifies this`trace, recvBuffer, scratch, jsonResponse
      ensures Valid()
      ensures var run := Run(old(Snapshot()), script, |script|);
        && outcome == run.outcome && Snapshot() == run.state && trace == old(trace) + run.events
    {
      ghost var start: Memory := Snapshot();
      var i := 0;
      while i < |script|
        invariant 0 <= i <= |script| && Valid()
        invariant var run := Run(start, script, i);
          && run.outcome == Listening && run.state == Snapshot() && trace == old(trace) + run.events
      {
        var passed := ServeNext(start, script, i, old(trace));
        if passed != Listening {
          LoopStaysEnded(Step, start, script, i + 1, |script|);
          return passed;
        }
        i := i + 1;
      }
      outcome := Listening;
    }
  }

  /** `snprintf(description, 50, "Your IP is: %s", ip)` into a fresh local
      buffer, read back by `%s`. */
  method FormatDescription(ip: CString) returns (description: seq<byte>)
    ensures description == Description(ip)
  {
    var buffer := new byte[DescriptionCapacity](_ => NUL);
    assert buffer[..] == seq(DescriptionCapacity, _ => NUL);
    AsciiHasNoNul(DescriptionPrefix);
    NoNulConcat(Ascii(DescriptionPrefix), ip);
    var full := FormatInto(buffer, Ascii(DescriptionPrefix) + ip);
    var descriptionLength := StrLen(buffer);
    description := buffer[..descriptionLength];
  }

  /** The Status Response packet `handle_handshake` fills in a
      variable-length array: header bytes one by one, then `memcpy`. */
  method BuildStatusPacket(json: array<byte>) returns (packet: array<byte>)
    requires NUL in json[..] && |CStr(json[..])| <= 252
    ensures fresh(packet)
    ensures packet[..] == StatusFrame(CStr(json[..]))
  {
    var packetId := StatusResponseId;
    var n := StrLen(json);
    var responseLength := U8(n);
    var length := U8(1 + 1 + responseLength);
    var totalPacketLength := U8(1 + length);
    assert responseLength == n && length == n + 2 && totalPacketLength == n + 3;
    packet := new byte[totalPacketLength];
    packet[0] := length;
    packet[1] := packetId;
    packet[2] := responseLength;
    // memcpy(packet + 3, json_response_buffer, responseLength)
    var i := 0;
    while i < responseLength
      invariant 0 <= i <= responseLength
      invariant packet[0] == length && packet[1] == packetId && packet[2] == responseLength
      invariant forall j | 0 <= j < i :: packet[3 + j] == json[j]
    {
      packet[3 + i] := json[i];
      i := i + 1;
    }
    ghost var frame, payload := packet[..], json[..n];
    assert forall j | 0 <= j < |payload| :: frame[3 + j] == payload[j];
    StatusFrameFromLayout(frame, payload);
  }

  /** How the process ends: `get_port` exited, rendering exited,
      `begin_listen` returned (and `main` returns 0), or it is still
      listening when the script runs out. */
  datatype ProcessEnd = UsageFailure | RenderFailure | Returned | StillListening

  /** `main(argc, argv)`: choose the port, then serve; creating, binding and
      closing the listening socket are not part of this model. */
  method Program(argv: seq<CString>, script: seq<Pass>) returns (end: ProcessEnd, events: seq<Event>)
    requires 1 <= |argv|
    ensures |argv| != 1 ==> end == UsageFailure && events == []
    ensures |argv| == 1 ==> events == Run(InitialState(), script, |script|).events
    ensures |argv| == 1 ==> (end == StillListening <==> forall i | 0 <= i < |script| :: !Stops(script[i]))
    ensures |argv| == 1 ==> (end == RenderFailure <==> Run(InitialState(), script, |script|).outcome == Exited)
    ensures |argv| == 1 ==> (end == Returned <==> Run(InitialState(), script, |script|).outcome == Stopped)
    ensures |argv| == 1 ==> end != UsageFailure
  {
    var port := Cli.GetPort(argv);
    Cli.GetPortOnlyDefault(argv);
    if port.ExitFailure? {
      return UsageFailure, [];
    }
    var server := new Server();
    var outcome := server.BeginListen(script);
    RunListeningIff(InitialState(), script, |script|);
    events := server.trace;
    end := match outcome
      case Listening => StillListening
      case Stopped => Returned
      case Exited => RenderFailure;
  }
}
