/** The decisions `begin_listen` takes, one pass of its `while (1)` per
    accepted (or failed) connection, over what the socket layer reports. */
module Listen {
  import opened CText
  import opened StatusJson
  import opened Protocol

  /** `static char buffer[1024]` of `begin_listen`, also `recv`'s limit. */
  const RecvCapacity: nat := 1024

  /** `recv`'s return value and, when positive, the bytes it stored. */
  datatype Recv = Recv(count: int, data: seq<byte>)

  /** One pass of the loop as the socket layer reports it: the descriptor
      `accept` returned (negative on failure), the peer address
      `getpeername` found (`None` when it fails), what `recv` gave, and the
      value `send` returns if the handler sends. */
  datatype Attempt = Attempt(fd: int, peer: Option<CString>, recv: Recv, sendResult: int)

  /** What `recv` can report into a buffer of 1024 bytes. */
  predicate WellFormed(a: Attempt)
  {
    a.recv.count <= RecvCapacity && (a.recv.count > 0 ==> |a.recv.data| == a.recv.count)
  }

  type Pass = a: Attempt | WellFormed(a) witness Attempt(-1, None, Recv(0, []), 0)

  /** The string `get_client_ip` returns when `getpeername` fails. */
  function NullIp(): (ip: CString)
    ensures |ip| == 4
  {
    AsciiHasNoNul("NULL");
    Ascii("NULL")
  }

  /** `get_client_ip(fd)`: `getpeername` always fails on a negative descriptor. */
  function ClientIp(a: Attempt): (ip: CString)
    ensures ip == NullIp() || (a.fd >= 0 && a.peer == Some(ip))
    ensures a.fd >= 0 && a.peer.Some? ==> ip == a.peer.value
  {
    if a.fd < 0 || a.peer.None? then NullIp() else a.peer.value
  }

  /** The process memory the loop depends on: the receive buffer and
      `json_response_buffer`. */
  datatype State = State(recvBuffer: seq<byte>, jsonBuffer: seq<byte>)

  /** The buffers have their C sizes and the stored JSON is a terminated
      string that fits a single-byte length. */
  predicate StateOk(st: State)
  {
    |st.recvBuffer| == RecvCapacity && |st.jsonBuffer| == ResponseCapacity
    && NUL in st.jsonBuffer && |CStr(st.jsonBuffer)| <= MaxJsonLength
  }

  /** The states the loop can be in. */
  type Memory = st: State | StateOk(st)
    witness var zero := seq(ResponseCapacity, _ => NUL);
      assert zero[0] == NUL && CStr(zero) == [];
      State(seq(RecvCapacity, _ => NUL), zero)

  /** The state at program start: static buffers are zero. */
  function InitialState(): (st: Memory)
    ensures st.recvBuffer == seq(RecvCapacity, _ => NUL) && st.jsonBuffer == seq(ResponseCapacity, _ => NUL)
    ensures CStr(st.jsonBuffer) == []
  {
    var zero := seq(ResponseCapacity, _ => NUL);
    assert zero[0] == NUL && CStr(zero) == [];
    State(seq(RecvCapacity, _ => NUL), zero)
  }

  /** `Listening`: the loop goes on; `Stopped`: it was left by `break`;
      `Exited`: `update_json_response` ended the process. */
  datatype Outcome = Listening | Stopped | Exited

  datatype Progress = Progress(state: Memory, events: seq<Event>, outcome: Outcome)

  /** A payload that rendering accepts keeps the three `unsigned char`
      lengths of the handshake from wrapping: the frame is at most 130 bytes
      and is the Status Response for the stored JSON. */
  lemma FrameLengthsDoNotWrap(ip: CString)
    requires Render(ip).Ok?
    ensures var n := |Render(ip).json|;
      && U8(n) == n && U8(1 + 1 + U8(n)) == 2 + n && U8(1 + U8(1 + 1 + U8(n))) == 3 + n <= 130
      && |StatusFrame(Render(ip).json)| == 3 + n
  {
  }

  /** One pass of the loop: log the IP and re-render the status payload, skip
      a failed accept, then serve the connection. */
  function Step(st: Memory, a: Pass): (p: Progress)
    ensures |p.events| >= 1 && p.events[0] == Logged(ClientIp(a))
    ensures p.outcome == Exited <==> Render(ClientIp(a)).Abort?
  {
    var ip := ClientIp(a);
    match Render(ip)
    case Abort(_) => Progress(st, [Logged(ip)], Exited)
    case Ok(json) =>
      SnprintfReadsBack(st.jsonBuffer, json);
      var rendered: Memory := State(st.recvBuffer, Snprintf(st.jsonBuffer, json));
      if a.fd < 0 then Progress(rendered, [Logged(ip)], Listening)
      else
        var c := Connection(rendered, a);
        Progress(c.state, [Logged(ip)] + c.events, c.outcome)
  }

  /** An accepted connection: read once; dispatch a positive read and close
      the socket, or leave the whole loop without closing it. */
  function Connection(st: Memory, a: Pass): (p: Progress)
    ensures |p.events| >= 1 && p.events[0] == Received(a.fd)
    ensures p.outcome == Listening <==> a.recv.count > 0
    ensures p.outcome != Exited && p.state.jsonBuffer == st.jsonBuffer
  {
    if a.recv.count > 0 then
      var buffer := a.recv.data + st.recvBuffer[a.recv.count..];
      var handled := PacketEvents(a.fd, buffer, a.recv.count, CStr(st.jsonBuffer));
      Progress(State(buffer, st.jsonBuffer), [Received(a.fd)] + handled + [Closed(a.fd)], Listening)
    else
      Progress(st, [Received(a.fd)], Stopped)
  }

  /** The `while (1)` of `begin_listen` with body `pass`: the first `n` passes
      over `script`, or fewer when one of them leaves the loop. */
  function Loop(pass: (Memory, Pass) -> Progress, st: Memory, script: seq<Pass>, n: nat): Progress
    requires n <= |script|
  {
    if n == 0 then Progress(st, [], Listening)
    else
      var prev := Loop(pass, st, script, n - 1);
      if prev.outcome != Listening then prev
      else
        var p := pass(prev.state, script[n - 1]);
        Progress(p.state, prev.events + p.events, p.outcome)
  }

  /** The loop of the program: its body is `Step`. */
  function Run(st: Memory, script: seq<Pass>, n: nat): Progress
    requires n <= |script|
  {
    Loop(Step, st, script, n)
  }

  /** A pass that leaves the loop: the payload is refused or the read on an
      accepted socket returned zero or less. */
  predicate Stops(a: Pass)
  {
    |ClientIp(a)| > 16 || (a.fd >= 0 && a.recv.count <= 0)
  }

  function Logs(ev: seq<Event>): nat
  {
    if ev == [] then 0 else Logs(ev[..|ev| - 1]) + (if ev[|ev| - 1].Logged? then 1 else 0)
  }

  function Receives(ev: seq<Event>): nat
  {
    if ev == [] then 0 else Receives(ev[..|ev| - 1]) + (if ev[|ev| - 1].Received? then 1 else 0)
  }

  /** The number of the first `n` passes whose `accept` succeeded. */
  function Accepted(script: seq<Pass>, n: nat): nat
    requires n <= |script|
  {
    if n == 0 then 0 else Accepted(script, n - 1) + (if script[n - 1].fd >= 0 then 1 else 0)
  }

  lemma {:induction false} CountsAppend(a: seq<Event>, b: seq<Event>)
    ensures Logs(a + b) == Logs(a) + Logs(b)
    ensures Receives(a + b) == Receives(a) + Receives(b)
    decreases |b|
  {
    if b == [] {
      assert a + b == a;
    } else {
      assert (a + b)[..|a + b| - 1] == a + b[..|b| - 1];
      CountsAppend(a, b[..|b| - 1]);
    }
  }

  lemma {:induction false} CountsNone(ev: seq<Event>)
    requires forall e | e in ev :: !e.Logged? && !e.Received?
    ensures Logs(ev) == 0 && Receives(ev) == 0
    decreases |ev|
  {
    if ev != [] {
      assert ev[|ev| - 1] in ev;
      forall e | e in ev[..|ev| - 1] ensures !e.Logged? && !e.Received? {
        assert e in ev;
      }
      CountsNone(ev[..|ev| - 1]);
    }
  }

  lemma CountsSingle(e: Event)
    ensures Logs([e]) == (if e.Logged? then 1 else 0)
    ensures Receives([e]) == (if e.Received? then 1 else 0)
  {
    assert [e][..0] == [];
  }

  /** Every pass starts by logging the IP and re-rendering the payload,
      before the descriptor is checked and before anything is read. */
  lemma StepLogsAndRendersFirst(st: Memory, a: Pass)
    ensures var p := Step(st, a);
      && |p.events| >= 1 && p.events[0] == Logged(ClientIp(a))
      && (p.outcome == Exited <==> |ClientIp(a)| > 16)
      && (p.outcome == Exited ==> p.events == [Logged(ClientIp(a))] && p.state == st)
      && (p.outcome != Exited ==> CStr(p.state.jsonBuffer) == Render(ClientIp(a)).json)
  {
    var ip := ClientIp(a);
    RenderContent(ip);
    if Render(ip).Ok? {
      SnprintfReadsBack(st.jsonBuffer, Render(ip).json);
    }
  }

  /** A pass lets the loop go on exactly when it does not stop. */
  lemma StepOutcome(st: Memory, a: Pass)
    ensures Step(st, a).outcome == Listening <==> !Stops(a)
  {
    RenderContent(ClientIp(a));
  }

  /** A failed accept is logged as "NULL", re-renders, reads nothing and the
      loop goes on. */
  lemma StepFailedAccept(st: Memory, a: Pass)
    requires a.fd < 0
    ensures var p := Step(st, a);
      && p.events == [Logged(NullIp())] && p.outcome == Listening
      && p.state.recvBuffer == st.recvBuffer
  {
    RenderContent(NullIp());
  }

  /** A positive read is stored at the start of the buffer, dispatched once,
      and the socket is then closed; the loop goes on. */
  lemma StepDispatchesThenCloses(st: Memory, a: Pass)
    requires a.fd >= 0 && a.recv.count > 0
    requires Render(ClientIp(a)).Ok?
    ensures var p := Step(st, a);
      && p.outcome == Listening
      && p.state.recvBuffer[..a.recv.count] == a.recv.data
      && p.state.recvBuffer[a.recv.count..] == st.recvBuffer[a.recv.count..]
      && p.events == [Logged(ClientIp(a)), Received(a.fd)]
         + PacketEvents(a.fd, p.state.recvBuffer, a.recv.count, CStr(p.state.jsonBuffer))
         + [Closed(a.fd)]
  {
  }

  /** A read of zero or less leaves the whole loop, with the client socket
      left open. */
  lemma StepSilentClientStops(st: Memory, a: Pass)
    requires a.fd >= 0 && a.recv.count <= 0
    requires Render(ClientIp(a)).Ok?
    ensures var p := Step(st, a);
      && p.outcome == Stopped && p.events == [Logged(ClientIp(a)), Received(a.fd)]
      && p.state.recvBuffer == st.recvBuffer
  {
  }

  /** A connection's events around its handled packet hold one log and one read. */
  lemma ConnectionCounts(ip: seq<byte>, fd: int, handled: seq<Event>)
    requires forall e | e in handled :: e.Sent? || e.Closed?
    ensures Logs([Logged(ip), Received(fd)] + handled + [Closed(fd)]) == 1
    ensures Receives([Logged(ip), Received(fd)] + handled + [Closed(fd)]) == 1
  {
    CountsNone(handled);
    CountsSingle(Logged(ip));
    CountsSingle(Received(fd));
    CountsSingle(Closed(fd));
    CountsAppend([Logged(ip)], [Received(fd)]);
    assert [Logged(ip)] + [Received(fd)] == [Logged(ip), Received(fd)];
    CountsAppend([Logged(ip), Received(fd)], handled);
    CountsAppend([Logged(ip), Received(fd)] + handled, [Closed(fd)]);
  }

  /** Each pass logs one IP and reads an accepted socket exactly once, unless
      the process exits before reading. */
  lemma StepCounts(st: Memory, a: Pass)
    ensures Logs(Step(st, a).events) == 1
    ensures Receives(Step(st, a).events) == if a.fd >= 0 && |ClientIp(a)| <= 16 then 1 else 0
  {
    var ip := ClientIp(a);
    RenderContent(ip);
    CountsSingle(Logged(ip));
    if Render(ip).Ok? && a.fd >= 0 {
      if a.recv.count > 0 {
        var p := Step(st, a);
        StepDispatchesThenCloses(st, a);
        DispatchEffects(a.fd, p.state.recvBuffer, a.recv.count, CStr(p.state.jsonBuffer));
        ConnectionCounts(ip, a.fd, PacketEvents(a.fd, p.state.recvBuffer, a.recv.count, CStr(p.state.jsonBuffer)));
      } else {
        CountsSingle(Received(a.fd));
        CountsAppend([Logged(ip)], [Received(a.fd)]);
      }
    }
  }

  lemma AppendAssoc<T>(a: seq<T>, b: seq<T>, c: seq<T>)
    ensures (a + b) + c == a + (b + c)
  {
  }

  /** One more pass of a loop that is still going. */
  lemma LoopSnoc(pass: (Memory, Pass) -> Progress, st: Memory, script: seq<Pass>, i: nat)
    requires i < |script| && Loop(pass, st, script, i).outcome == Listening
    ensures var prev := Loop(pass, st, script, i);
      var p := pass(prev.state, script[i]);
      Loop(pass, st, script, i + 1) == Progress(p.state, prev.events + p.events, p.outcome)
  {
  }

  /** Once the loop has been left, later passes change nothing. */
  lemma {:induction false} LoopStaysEnded(pass: (Memory, Pass) -> Progress, st: Memory, script: seq<Pass>, k: nat, n: nat)
    requires k <= n <= |script| && Loop(pass, st, script, k).outcome != Listening
    ensures Loop(pass, st, script, n) == Loop(pass, st, script, k)
  {
    if n > k {
      LoopStaysEnded(pass, st, script, k, n - 1);
    }
  }

  /** With a body that goes on exactly for the passes `stops` rejects, the
      loop is still going after `n` passes exactly when none of them stops. */
  lemma {:induction false} LoopListeningIff(pass: (Memory, Pass) -> Progress, stops: Pass -> bool,
                                            st: Memory, script: seq<Pass>, n: nat)
    requires n <= |script|
    requires forall s: Memory, a: Pass :: pass(s, a).outcome == Listening <==> !stops(a)
    ensures Loop(pass, st, script, n).outcome == Listening <==> forall i | 0 <= i < n :: !stops(script[i])
  {
    if n > 0 {
      LoopListeningIff(pass, stops, st, script, n - 1);
      var prev := Loop(pass, st, script, n - 1);
      if prev.outcome != Listening {
        var i :| 0 <= i < n - 1 && stops(script[i]);
        assert Loop(pass, st, script, n) == prev;
      } else if stops(script[n - 1]) {
        assert Loop(pass, st, script, n).outcome == pass(prev.state, script[n - 1]).outcome != Listening;
      } else {
        assert Loop(pass, st, script, n).outcome == pass(prev.state, script[n - 1]).outcome == Listening;
        forall i | 0 <= i < n ensures !stops(script[i]) {
          if i < n - 1 {
            assert !stops(script[i]);
          }
        }
      }
    }
  }

  /** With a body that logs once and reads each accepted socket once when it
      goes on, a loop still going has logged once per pass and read once per
      accepted socket. */
  lemma {:induction false} LoopCounts(pass: (Memory, Pass) -> Progress, st: Memory, script: seq<Pass>, n: nat)
    requires n <= |script|
    requires forall s: Memory, a: Pass :: (Logs(pass(s, a).events) == 1
      && (pass(s, a).outcome == Listening ==> Receives(pass(s, a).events) == if a.fd >= 0 then 1 else 0))
    requires Loop(pass, st, script, n).outcome == Listening
    ensures Logs(Loop(pass, st, script, n).events) == n
    ensures Receives(Loop(pass, st, script, n).events) == Accepted(script, n)
  {
    if n > 0 {
      var prev := Loop(pass, st, script, n - 1);
      LoopCounts(pass, st, script, n - 1);
      CountsAppend(prev.events, pass(prev.state, script[n - 1]).events);
    }
  }

  /** The program's loop is still going after `n` passes exactly when none
      of them stops. */
  lemma RunListeningIff(st: Memory, script: seq<Pass>, n: nat)
    requires n <= |script|
    ensures Run(st, script, n).outcome == Listening <==> forall i | 0 <= i < n :: !Stops(script[i])
  {
    forall s: Memory, a: Pass ensures Step(s, a).outcome == Listening <==> !Stops(a) {
      StepOutcome(s, a);
    }
    LoopListeningIff(Step, Stops, st, script, n);
  }

  /** A run the loop has not left logged one IP per pass and read once per
      accepted socket. */
  lemma RunCounts(st: Memory, script: seq<Pass>, n: nat)
    requires n <= |script| && Run(st, script, n).outcome == Listening
    ensures Logs(Run(st, script, n).events) == n
    ensures Receives(Run(st, script, n).events) == Accepted(script, n)
  {
    forall s: Memory, a: Pass
      ensures Logs(Step(s, a).events) == 1
      ensures Step(s, a).outcome == Listening ==> Receives(Step(s, a).events) == if a.fd >= 0 then 1 else 0
    {
      StepCounts(s, a);
      StepOutcome(s, a);
    }
    LoopCounts(Step, st, script, n);
  }

  /** Processing ends at the first pass that stops: later passes of the
      script never happen, and every pass up to it logged one IP. */
  lemma RunEndsAtFirstStop(st: Memory, script: seq<Pass>, i: nat)
    requires i < |script| && Stops(script[i])
    requires forall j | 0 <= j < i :: !Stops(script[j])
    ensures Run(st, script, |script|) == Run(st, script, i + 1)
    ensures Run(st, script, |script|).outcome != Listening
    ensures Logs(Run(st, script, |script|).events) == i + 1
  {
    RunListeningIff(st, script, i);
    var prev := Run(st, script, i);
    RunCounts(st, script, i);
    StepOutcome(prev.state, script[i]);
    StepCounts(prev.state, script[i]);
    CountsAppend(prev.events, Step(prev.state, script[i]).events);
    LoopSnoc(Step, st, script, i);
    LoopStaysEnded(Step, st, script, i + 1, |script|);
  }
}
