# Minecraft status honeypot — a Dafny model

The program is a honeypot that poses as a Minecraft server. It answers the
"server list ping" so that every client that probes it has its IP address
logged. A single C file, `main.c`, holds all of it. This project models the
core of that file:

- `update_json_response` renders the status JSON with the client's IP in
  its description. It refuses (exits) when the payload exceeds 127 bytes.
  Otherwise it stores the payload in the global 255-byte
  `json_response_buffer`.
- `handle_handshake` builds the Status Response frame
  `[2+n, 0x00, n, json…]` with `unsigned char` arithmetic, in a
  variable-length array.
- `handle_ping` echoes the received bytes back.
- `handle_packet` switches on `buffer[1]`.
- `get_port` chooses the listening port from the command line. `strtoul` is
  written out for base 10.
- `begin_listen` is the `while (1)` that serves one connection per pass over
  the static 1024-byte receive buffer, and `main` ties the two together.

Layout:

- `c_text.dfy` (module `CText`) covers bytes, C strings, `snprintf`
  (`Snprintf`, `FormatInto`), `strlen` (`StrLen`) and `%d` (`Decimal`).
- `status_json.dfy` (`StatusJson`) is the renderer as a function
  `Render(ip) : Ok(json) | Abort(reason)` with its properties.
- `protocol.dfy` (`Protocol`) holds the frames, the handlers' return values
  and the dispatch, as functions of the received bytes.
- `cli.dfy` (`Cli`) is `get_port`, `strtoul`, and the intended `get_port`.
- `listen.dfy` (`Listen`) states the loop's decisions:
  - one pass as the function `Step` over the two buffers the loop depends on;
  - the loop as `Loop`, proved generically for any pass function;
  - the program's run as `Run = Loop(Step, …)`.
- `honeypot.dfy` (`Honeypot`) is the imperative program. A `Server` object
  owns the static buffers as arrays:
  - `recvBuffer[1024]`, `scratch[200]` and `jsonResponse[255]`;
  - a `trace` of the effects on the world (log, recv, send, close).

  Its methods follow the C functions, and each is proved against the
  functions above. `Program` is `main`.

What the socket layer reports is an input. Each pass of the loop is an
`Attempt` with these fields:

- the descriptor `accept` returned (negative on failure);
- the peer address `getpeername` found (`None` when it fails, which makes
  the IP `"NULL"`);
- what `recv` returned and stored;
- what `send` returns.

A run is a finite script of such passes, in place of `while (1)`.

### What the code does and does not do

- **No per-connection protocol state.** Packet id `0x00` is always a
  handshake and `0x01` is always a ping, whatever came before on the
  connection.
  - A two-byte Status Request `[0x01, 0x00]` has id `buffer[1] == 0x00`.
    It is therefore handled as a handshake whose next state, its last byte,
    is 0. Nothing is sent, and the socket is closed once, by `begin_listen`.
- **One `recv` per connection.** There is no read loop and no receive
  timeout.
- **Rendering happens on every pass.** The IP is logged and the payload
  re-rendered right after `accept`. This is before the descriptor check,
  before any read and before any handshake. A failed accept is logged as
  `"NULL"`.
- **A read of zero or less breaks out of the whole `while (1)`.** It does
  not only end the connection. The client socket is not closed on that
  path.
- **The receive buffer is static.** A one-byte read dispatches on a stale
  `buffer[1]` left by an earlier connection. The model keeps the whole
  1024-byte buffer, so this is what it does.
- **A ping is followed by two closes of the same descriptor.**
  `handle_packet` closes it, then `begin_listen` closes it again. Both
  appear as `Closed` events.
- **The ping handler does not compare `send`'s result with what it sent.**
  It compares it with `buffer[0] + 1`.

## Model

| member | source | states |
|---|---|---|
| CText.CStr | main.c:135 | the C string at the start of a buffer: NUL-free and no longer than the buffer; `CStrAtTerminator` pins it to the bytes before the first NUL |
| CText.Snprintf | main.c:200-222 | what `snprintf` leaves in a buffer: same size, a NUL right after as much of the text as fits, that much of the text before it; `SnprintfReadsBack` states what `%s` then reads |
| CText.SnprintfReadsBack | main.c:200 | after `snprintf` into a buffer, the buffer keeps its size, holds a NUL, and its C string is the text cut to capacity less one |
| CText.FormatInto | main.c:222 | `snprintf` into an array whose fully formatted (NUL-free) text is `s`: returns the full length and leaves exactly the truncated text, a NUL, and the untouched rest |
| CText.StrLen | main.c:135 | `strlen` finds the first NUL; the bytes before it are the buffer's C string |
| CText.CStrAtTerminator | main.c:135 | a NUL at `n` with no NUL before it makes the first `n` bytes the C string |
| CText.Decimal | main.c:206 | `%d` of a non-negative value is a non-empty run of decimal digits |
| StatusJson.Description | main.c:196-200 | the description text `snprintf` leaves in the 50-byte buffer: NUL-free and at most 49 bytes; `DescriptionShape` states it exactly |
| StatusJson.JsonText | main.c:202-206 | the JSON template filled in: 97 fixed bytes plus both numbers and the text, with the text just before the closing `"}}`; `RenderContent` and `DescriptionShape` state its value for the rendered IP |
| StatusJson.Render | main.c:193-223 | a rendered payload is at most 127 bytes and NUL-free (so `%s` copies it whole) |
| StatusJson.RenderContent | main.c:194-219 | rendering succeeds iff the IP has at most 16 bytes; a refusal is always the 127-byte check; the JSON is the template with max 8, online 6 and "Your IP is: " + ip, of length 111 + \|ip\| |
| StatusJson.DescriptionShape | main.c:199-206 | the description is the prefix of "Your IP is: " + ip of length min(12 + \|ip\|, 49), NUL-free; the JSON is 99 bytes plus the description |
| StatusJson.ScratchCheckNeverFires | main.c:205-212 | the rendered text is at most 148 bytes, so the `>= 200` check can never fire |
| StatusJson.RenderBoundary | main.c:214-219 | a 16-byte IP gives exactly 127 bytes and succeeds; a 17-byte IP is refused; refusal iff the text exceeds 127 bytes |
| StatusJson.JsonTextHasNoNul | main.c:202-206 | filling the template with NUL-free text gives NUL-free text |
| StatusJson.TemplateHasNoNul | main.c:202 | every fixed piece of the template and both numbers are NUL-free |
| Honeypot.FormatDescription | main.c:199-200 | formatting the description into a fresh 50-byte buffer and reading it back gives `Description(ip)` |
| Honeypot.Server.UpdateJsonResponse | main.c:193-223 | `ok` iff rendering succeeds; the scratch buffer always holds the formatted text; on success the stored C string is exactly the rendered JSON, on refusal the global buffer is unchanged |
| Protocol.StatusFrame | main.c:134-144 | the Status Response for a JSON of length n has 3 + n bytes: 2 + n, 0x00, n, then the JSON exactly |
| Protocol.StatusFrameFromLayout | main.c:140-144 | a frame with those header bytes and payload bytes is that frame |
| Listen.FrameLengthsDoNotWrap | main.c:135-137 | for an accepted payload the three `unsigned char` lengths do not wrap and the frame has at most 130 bytes |
| Honeypot.BuildStatusPacket | main.c:134-144 | filling the variable-length array byte by byte and by `memcpy` gives exactly `StatusFrame` of the stored C string |
| Protocol.HandshakeReply | main.c:122-146 | a frame is sent iff at least one byte arrived and the last received byte is 1; it is the status frame for the stored JSON |
| Protocol.HandshakeStatus | main.c:146-153 | the handshake returns 0 iff a frame was sent and `send` reported its full length, else -1 |
| Honeypot.Server.HandleHandshake | main.c:122-154 | the trace gains exactly the frame `HandshakeReply` gives (or nothing) and the return value is `HandshakeStatus`; the buffers stay as they are |
| Protocol.PingReply | main.c:156-163 | the echo is sent iff at least 9 bytes arrived, and is exactly the first `dataSize` received bytes |
| Protocol.PingStatus | main.c:157-170 | the ping returns 0 iff at least 9 bytes arrived and `send` reported `buffer[0] + 1`, else -1 |
| Honeypot.Server.HandlePing | main.c:156-171 | the trace gains exactly the echo (or nothing) and the return value is `PingStatus` |
| Protocol.PacketEvents | main.c:173-191 | the effects of `handle_packet`: at most two events, each a send or a close on the client descriptor; `DispatchEffects` states which for each id |
| Protocol.Dispatch | main.c:177-190 | id 0x00 selects the handshake handler and 0x01 the ping handler, each iff |
| Protocol.DispatchEffects | main.c:173-191 | a handshake id sends at most the status frame and does not close; a ping id sends at most the echo and then closes; any other id does nothing; every effect is on the client descriptor |
| Honeypot.Server.HandlePacket | main.c:173-191 | the trace gains exactly `PacketEvents` of the shared buffer, dispatched on `buffer[1]` |
| Honeypot.Server.Receive | main.c:112-120 | one `recv` is traced; a positive count overwrites that many leading bytes of the shared buffer and keeps the rest; a negative result reads as -1 |
| Cli.SkipSpaces | main.c:249 | `strtoul` skips exactly the leading white space |
| Cli.DigitsEnd | main.c:249 | the digit run ends at the first non-digit |
| Cli.StrToUL | main.c:249-250 | `endptr` stays in the string; no conversion gives value 0 and `endptr` at the start; otherwise `endptr` is just past the last digit; the value is at most `ULONG_MAX` |
| Cli.OptionsDoNotConvert | main.c:241-250 | neither `-p` nor `--port` holds a digit, so `strtoul` on them converts nothing |
| Cli.GetPort | main.c:226-256 | `get_port` as written: 25565 for a bare invocation, failure for more than three arguments or an unknown option, and never a port above 65535; `GetPortOnlyDefault` shows it returns only for a bare invocation |
| Cli.GetPortOnlyDefault | main.c:226-256 | as written, the port is 25565 for a bare invocation and every other command line exits with failure |
| Cli.GetPortIntended | main.c:229-255 | the corrected `get_port` returns only ports up to 65535, and besides the bare invocation only for `-p`/`--port` and a value |
| Cli.DecimalDigitsValue | main.c:249 | the digits `%d` writes denote the number and all of them are digits |
| Cli.StrToULDecimal | main.c:249 | `strtoul` reads back any port written in decimal, ending at its last digit |
| Cli.GetPortIntendedParses | main.c:229-255 | the corrected `get_port` accepts `-p <n>` and `--port <n>` for every port n from 0 to 65535 |
| Listen.ClientIp | main.c:13-25 | the IP of a pass is "NULL" or the peer address of an accepted socket, and for an accepted socket whose peer `getpeername` found it is exactly that address |
| Listen.Connection | main.c:276-298 | the accepted-socket part of a pass: it starts with one read, goes on iff the read was positive, never exits and leaves the stored JSON as it is; `StepDispatchesThenCloses` and `StepSilentClientStops` state its effects |
| Listen.Step | main.c:264-298 | one pass of the loop body: it starts by logging the IP, and exits iff rendering refuses the payload; `StepLogsAndRendersFirst`, `StepOutcome` and `StepCounts` state the rest |
| Listen.NullIp | main.c:17-19 | the IP of a failed `getpeername` is the 4-byte "NULL" |
| Listen.InitialState | main.c:11 | static storage starts zeroed: both buffers hold only NUL and the stored JSON is empty |
| Listen.StepLogsAndRendersFirst | main.c:264-273 | every pass first logs the IP and re-renders; it exits iff the IP exceeds 16 bytes, with nothing else done; otherwise the stored JSON is the rendered one |
| Listen.StepOutcome | main.c:264-296 | a pass lets the loop go on exactly when the payload is accepted and the accept failed or the read was positive |
| Listen.StepFailedAccept | main.c:266-273 | a failed accept logs "NULL", reads nothing, leaves the receive buffer and goes on |
| Listen.StepDispatchesThenCloses | main.c:276-298 | a positive read is stored at the start of the shared buffer (the rest stays), dispatched once, then the socket is closed, and the loop goes on |
| Listen.StepSilentClientStops | main.c:276-296 | a read of zero or less leaves the whole loop after one read, without closing the client socket |
| Listen.ConnectionCounts | main.c:267-298 | a connection's events around its handled packet hold one log and one read |
| Listen.StepCounts | main.c:264-298 | each pass logs once and reads once when the accept succeeded and the payload was accepted, otherwise not at all |
| Listen.Loop | main.c:264-301 | the `while (1)` with a given body over the first n passes, left at the first pass that does not go on; `LoopStaysEnded`, `LoopListeningIff` and `LoopCounts` state its properties for any body |
| Listen.Run | main.c:264-301 | the program's loop, with `Step` as its body; `RunListeningIff`, `RunCounts` and `RunEndsAtFirstStop` state its properties |
| Listen.LoopStaysEnded | main.c:264-301 | once the loop has been left, later passes change nothing |
| Listen.LoopListeningIff | main.c:264-301 | for a body that goes on exactly for passes that do not stop, the loop is still going after n passes iff none of them stopped |
| Listen.LoopCounts | main.c:264-301 | for a body that logs once and reads once per accepted socket, a loop still going has logged n times and read once per accepted socket |
| Listen.RunListeningIff | main.c:264-301 | the program's loop is still going after n passes iff none of them stopped |
| Listen.RunCounts | main.c:264-301 | while the loop goes on, it has logged one IP per pass and read exactly once per accepted connection |
| Listen.RunEndsAtFirstStop | main.c:264-301 | processing ends at the first pass that stops; the passes after it never happen, and that pass is the last one logged |
| Honeypot.Server.constructor | main.c:11 | all three static buffers (receive, scratch and `json_response_buffer`) start zeroed and nothing has happened |
| Honeypot.Server.ServeOne | main.c:265-300 | one pass of the loop body changes the receive buffer, the stored JSON and the trace exactly as `Step` says and returns its outcome; the scratch buffer holds that pass's formatted text |
| Honeypot.Server.ServeConnection | main.c:276-298 | the connection part of a pass follows `Connection` |
| Honeypot.Server.ServeNext | main.c:264-301 | pass i over the buffers the first i passes left extends the run to i + 1 passes |
| Honeypot.Server.BeginListen | main.c:260-302 | the loop over the script leaves the buffers, the trace and the outcome exactly as `Run` of the whole script |
| Honeypot.Program | main.c:305-316 | any command line other than a bare one exits before serving; otherwise the effects are those of `Run` from zeroed memory; it never reports a usage failure then; it is still listening iff no pass stopped, it returns iff the loop broke on a read of zero or less, and it exits iff rendering refused a payload |

## Left out

- Socket creation, `setsockopt`, `bind`, `listen`, `accept`, `getpeername` and `inet_ntoa` (main.c:13-25, main.c:67-110) are calls into the operating system. Their results are inputs to each pass: the descriptor, the peer's IP text (or its absence), and the counts `recv` and `send` return.
- `log_ip` (main.c:27-65) appends a timestamped line to a file, using the clock and `malloc`. Its only modelled effect is a `Logged(ip)` event. A failure to open the file is not modelled, because it changes nothing the program does next.
- `printf` and `perror` diagnostics are left out: they do not affect behaviour.
- `send` and `recv` are not modelled as a real socket layer (partial sends, errno). A send is a `Sent(fd, bytes)` event with a given return value. A recv is a given count and the bytes it stored.
- `close` is recorded as a `Closed(fd)` event. Closing an already closed descriptor has no further effect in the model.
- Honeypot.Server.BeginListen: does not state what the 200-byte scratch buffer holds after the loop. Each pass overwrites it (`ServeOne` states with what), and nothing reads it between passes.
- Listen.Run: the `while (1)` is a finite script of passes. `Listening` means the script ran out while the loop would go on.
- Honeypot.Program: `argc` is at least 1, since the process always has its name in `argv[0]`. The listening socket, the port's use and the final `close(server_sockfd)` are not modelled.
- Protocol.StatusFrame: requires at most 252 bytes of JSON. For more, the C lengths wrap and `memcpy` writes past the frame. Rendering never stores more than 127 bytes (`Listen.FrameLengthsDoNotWrap`), so this case cannot arise.
- Protocol.PacketEvents: needs a buffer of at least 2 bytes. The shared receive buffer always has 1024.
- Cli.StrToUL: only base 10 is modelled, with white space as `isspace` in the C locale. Its 64-bit `ULONG_MAX` clamp and unsigned negation are written out, but `errno` is not.

## Findings

| source | as written | input that shows it | evidently intended | confidence | as-written member | corrected member |
|---|---|---|---|---|---|---|
| main.c:249 | `strtoul(argv[1], &endptr, 10)` converts the option itself, which has no digits, so `endptr == argv[1]` and the process exits | `./honeypot -p 8080` exits with failure; only a bare `./honeypot` starts | convert `argv[2]`, the value after `-p`/`--port`, as the usage message `-p <port>` describes | high, not executed | Cli.GetPortOnlyDefault | Cli.GetPortIntendedParses |

`Honeypot.Program` models `main` as the code stands, so it uses the `get_port` as written. The port is not used further in the model, because socket creation is not part of it.
