# Smart socket protocol, server handler and client session in Dafny

This project models the controllable-device part of a small smart-home system.
A TCP server exposes a smart socket. A client sends it one-word text commands
(`ON`, `OFF`, `STATUS`, `INFO`) and gets back a rendered response
(`OK:<msg>`, `STATUS:<ON|OFF>:<power>`, `INFO:<text>`, `ERROR:<msg>`).

The model has five modules:

- `Wrappers` (`wrappers.dfy`): `Option`, and `Result` with constructors `Success`/`Failure`.
- `Text` (`text.dfy`): the parts of Rust's `str` and `u32` the protocol uses:
  - `trim`, following the Unicode White_Space property;
  - `splitn(2, ':')` and `split(':')`;
  - `u32` display and `u32::from_str`, with an optional `+`, ASCII digits only, and checked overflow.
- `Protocol` (`protocol.dfy`): the `Command`/`Response`/`ProtocolError` grammar of `smart_socket_server/src/lib.rs`.
- `Server` (`server.dfy`): `handle_client` of `smart_socket_server/src/main.rs`.
  - A pure reference (`Dispatch`, `HandleChunk`, `Serve`, `ReplayChunks`) and the lemmas about it.
  - An imperative version: classes `Connection` and `SharedDevice`, and methods down to `HandleClient`.
  - Each method's `ensures` ties it to the reference.
- `Client` (`client.dfy`): `smart_socket_client/src/main.rs`.
  - Classes `ClientStream` and `SmartSocketClient`, with `send_command`, the four convenience calls and `close` as methods.
  - Pure `Exchange`, `CloseStep`, `FormatResponse`, `CommandForInput` and `ShowOutcome` specify those methods, and `HandleCommand` uses them.

The device (`Socket` of the `smart_home` crate) is not part of this model. It is kept abstract:
- its state is a type parameter `S`;
- its five calls are function values in `DeviceOps<S>`;
- the only assumption is in their types: the three queries (`is_on`, `get_power`, `description`) return a value and leave the device unchanged; nothing is assumed about what any call computes.

A connection's reads are a sequence of outcomes: text, or a failed read; the end of the sequence or an empty text means the peer has closed. Each write's success is a function of how many writes came before. The client's stream works the same way. How the n-th `write_all`, `read_message` and `shutdown` end is given as a function of n.

Points where the code's behaviour is easy to misread:

- **Framing.** The server reads and writes raw, unframed text, one `read` per command (`smart_socket_server/src/main.rs:31`, `:78`). No length-prefixed framing is modelled.
  - The client imports `serialize_message` and `read_message`. Neither is defined in `smart_socket_server/src/lib.rs`, the crate they are imported from, so both are parameters with no assumed behaviour.
  - The client writes `serialize_message(...)` and reads with `read_message` (`smart_socket_client/src/main.rs:82`, `:88`), while the server handles raw text. `ServerClientAgree` relates the server's rendered reply to the client's parse of that text; server and client agree end to end only if those two functions pass the text through unchanged, which this model does not assume.
- **Invalid command text.** `InvalidCommand` carries the trimmed text, not the text as received (`lib.rs:43-48`).
- **Empty response.** `splitn` always yields at least one piece, so the empty text gives `InvalidResponse("")`. The `Empty response` and `Missing status state` errors can never be produced (`ResponseFromStr`'s contract, `InvalidResponseIff`).
- **Shutdown in `close`.** `close` calls `Stream::shutdown`, and `Stream` is the client's own trait (`smart_socket_client/src/main.rs:17-23`). Its default method returns `Ok(())` without doing anything, and the implementation for `TcpStream` does not override it. So for a real TCP stream, `close` never shuts the socket down and never fails. The model keeps the shutdown's outcome as a stream parameter, so the failure branch of `close` is still covered.

## Model

| member | source | states |
|---|---|---|
| Wrappers.Nth | smart_socket_server/src/lib.rs:78 | `get(i)` is Some exactly for an index inside the sequence, and then holds that element |
| Text.Trim | smart_socket_server/src/lib.rs:43 | the trimmed text starts and ends with a non-white-space character, and is empty exactly when the input is all white space |
| Text.TrimPadded | smart_socket_server/src/lib.rs:43 | white space around a trimmed core is removed and the core is kept whole |
| Text.SplitOnce | smart_socket_server/src/lib.rs:77 | `splitn(2, c)` gives one piece exactly when `c` does not occur; with two pieces, `before + c + after` is the input and `before` has no `c`, which by SplitUnique fixes the pieces |
| Text.Split | smart_socket_server/src/lib.rs:86-90 | `split(c)` is never empty, no piece holds `c`, and joining the pieces with `c` gives the input back |
| Text.SplitJoin | smart_socket_server/src/lib.rs:86-90 | splitting the join of separator-free pieces gives exactly those pieces |
| Text.SplitUnique | smart_socket_server/src/lib.rs:77 | a text splits in only one way around its first separator |
| Text.SplitAtFields | smart_socket_server/src/lib.rs:86-99 | the first piece of `split(':')` is the text up to the first colon; there is a second piece exactly when a colon occurs, and it is the field after that colon |
| Text.NatToDecimal | smart_socket_server/src/lib.rs:69 | the decimal text is non-empty, all digits, has no leading zero, and its value is the number |
| Text.ParseU32 | smart_socket_server/src/lib.rs:97-101 | `parse::<u32>` succeeds exactly on an optional `+` followed by one or more digits whose value is below 2^32, and returns that value |
| Text.ParseU32Decimal | smart_socket_server/src/lib.rs:69 | parsing the decimal text of a u32 gives it back |
| Protocol.ErrorToString | smart_socket_server/src/lib.rs:28-37 | the displayed error is the kind's label followed by the detail verbatim |
| Protocol.ErrorToStringInjective | smart_socket_server/src/lib.rs:28-37 | two errors with the same display are the same error |
| Protocol.CommandToString | smart_socket_server/src/lib.rs:53-62 | every command's wire word is non-empty, colon-free and has no surrounding white space |
| Protocol.CommandFromStr | smart_socket_server/src/lib.rs:42-50 | parsing succeeds exactly when the trimmed text is one of the four words, case-sensitively; the command parsed renders as the trimmed text; otherwise the error is InvalidCommand of the trimmed text |
| Protocol.CommandRoundTrip | smart_socket_server/src/lib.rs:42-62 | every command survives rendering and parsing, even with white space around it |
| Protocol.ResponseToString | smart_socket_server/src/lib.rs:64-74 | the exact wire text of each shape: "OK:", "INFO:" or "ERROR:" followed by the message verbatim, and "STATUS:" followed by ON or OFF, a colon and the power in canonical decimal (no sign, no leading zero) |
| Protocol.ResponseTagged | smart_socket_server/src/lib.rs:64-74 | every rendered response holds a colon and its first field is one of OK, STATUS, INFO, ERROR |
| Protocol.ResponseFromStr | smart_socket_server/src/lib.rs:76-120 | a success needs a colon; `Empty response` and `Missing status state` are never produced |
| Protocol.ResponseRoundTrip | smart_socket_server/src/lib.rs:64-120 | parsing a rendered response gives it back, for any message (colons included) and any u32 power |
| Protocol.FromTagged | smart_socket_server/src/lib.rs:78-118 | the parse of a tag and the text after the colon succeeds only when there was a colon, and never gives `Empty response` or `Missing status state`; MessageResponseIff, MissingMessageIff and InvalidResponseIff state each tag's case |
| Protocol.ParseStatus | smart_socket_server/src/lib.rs:85-104 | the STATUS data parses only to a Status, and otherwise fails with Missing power value or Invalid power value; ParseStatusFields states when each happens |
| Protocol.ParseStatusFields | smart_socket_server/src/lib.rs:86-103 | the STATUS data parses exactly when it has a colon and the field after it is a u32; is_on is whether the first field is exactly "ON"; otherwise the error is Missing or Invalid power value |
| Protocol.MessageResponseIff | smart_socket_server/src/lib.rs:79-116 | the parse is Ok(m), Info(m) or Error(m) exactly when the text is "OK:", "INFO:" or "ERROR:" followed by m |
| Protocol.MissingMessageIff | smart_socket_server/src/lib.rs:79-116 | each "Missing … message/data" error arises exactly for the bare tag with no colon |
| Protocol.InvalidResponseIff | smart_socket_server/src/lib.rs:117-118 | InvalidResponse(t) is returned exactly when t is the text before the first colon and is not a known tag (so "" gives InvalidResponse("")) |
| Protocol.StatusResponseIff | smart_socket_server/src/lib.rs:85-104 | the parse is Status(isOn, power) exactly when the text starts with "STATUS:", the rest has a colon, isOn is whether the first field is "ON", and the next field reads as power |
| Protocol.StatusErrorsIff | smart_socket_server/src/lib.rs:97-101 | after "STATUS:", Missing power value exactly when the data has no colon, Invalid power value exactly when the field after the colon is not a u32 |
| Protocol.StatusIgnoresTrailingFields | smart_socket_server/src/lib.rs:86-103 | fields after the power value do not change the parse |
| Server.Dispatch | smart_socket_server/src/main.rs:46-70 | every command makes at least one device call, and one that makes no on/off call leaves the device state unchanged |
| Server.HandleChunk | smart_socket_server/src/main.rs:43-76 | a chunk makes device calls exactly when it parses; at most one mutating call is made, and without one the state is unchanged |
| Server.ChunkEffects | smart_socket_server/src/main.rs:43-70 | for each trimmed command word: the exact new state, the device calls, and the response (`Socket turned on/off`, the status read from the device, its description) |
| Server.InvalidChunk | smart_socket_server/src/main.rs:72-78 | an unparsable chunk leaves the device untouched and is answered on the wire with "ERROR:Invalid command: " and its trimmed text |
| Server.ServerClientAgree | smart_socket_server/src/main.rs:43-78 | the client's parse of the server's reply to a rendered command is the response the dispatch produced |
| Server.PeerLabelAsWritten | smart_socket_server/src/main.rs:24-26 | the code as written: the peer's address, or a panic, which can only happen when `peer_addr()` failed |
| Server.PeerAddrFailurePanics | smart_socket_server/src/main.rs:24-26 | as written, the handler panics exactly when `peer_addr()` fails, because "unknown" is not a socket address |
| Server.PeerLabel | smart_socket_server/src/main.rs:24-26 | the intended start never panics, labels an unreadable peer "unknown", and agrees with the code as written whenever that does not panic |
| Server.Serve | smart_socket_server/src/main.rs:31-83 | one reply is delivered per handled chunk, except that a failed write delivers nothing for its chunk; the loop consumes at least one read per chunk handled and no more reads than there are |
| Server.ServeStops | smart_socket_server/src/main.rs:31-35 | the loop handles every chunk up to the first empty or failed read, and ends on a read failure exactly when one follows the chunks, unless a write fails first; it consumes one read per chunk handled, plus the read that stopped it when there was one |
| Server.ServeWrites | smart_socket_server/src/main.rs:78-81 | every write before the last succeeds; when the loop ends on a write failure, it is the write of the last chunk handled that failed |
| Server.ServeMatchesReplay | smart_socket_server/src/main.rs:31-83 | the final device state, the device calls and the replies delivered are those of handling the chunks one by one, in read order |
| Server.SharedDevice.constructor | smart_socket_server/src/main.rs:23 | the device's handler is the chunk handler of its own calls |
| Server.Connection.Read | smart_socket_server/src/main.rs:31 | a read yields the next outcome, or an empty text once the peer has closed |
| Server.Connection.Write | smart_socket_server/src/main.rs:78 | a write delivers its text exactly when it succeeds, and is counted either way |
| Server.Apply | smart_socket_server/src/main.rs:45-70 | the command match on the locked device makes exactly Dispatch's calls and returns its response |
| Server.RespondTo | smart_socket_server/src/main.rs:43-76 | answering one chunk on the device makes exactly HandleChunk's change and returns its response |
| Server.AnswerTo | smart_socket_server/src/main.rs:43-78 | the text written for a chunk and the device's change are the device handler's answer |
| Server.ServeNext | smart_socket_server/src/main.rs:31-83 | one pass of the loop: it stops on an empty or failed read with nothing changed; otherwise it handles the chunk, writes once, and stops exactly when the write fails; this pass followed by serving the rest of the input is Serve of the whole input |
| Server.HandleClient | smart_socket_server/src/main.rs:23-86 | starts with `PeerLabel`, which never panics by its own contract (the label is only logged), and always returns Ok; the device state, the calls, the text delivered, the write count and the reads left unconsumed are exactly those of Serve on what the peer sends |
| Client.Exchange | smart_socket_client/src/main.rs:81-92 | an exchange succeeds only when the write and the read succeed, and a failed write always gives a connection error; ExchangeSucceeds and ExchangeErrors give both directions |
| Client.ExchangeSucceeds | smart_socket_client/src/main.rs:83-92 | send_command succeeds exactly when the write and the read succeed and the text read parses, and it returns that parse |
| Client.ExchangeErrors | smart_socket_client/src/main.rs:83-89 | a failed write gives ConnectionError("Failed to send command: " + e); otherwise a read error or a parse error is passed on unchanged |
| Client.ExchangeReceivesRendered | smart_socket_client/src/main.rs:88-89 | reading back what the server rendered for a response yields that response |
| Client.ExchangeWriteFailureText | smart_socket_client/src/main.rs:83-86 | a failed write is reported, once displayed, as "Connection error: " followed by "Failed to send command: " and the write's error |
| Client.SmartSocketClient.SendCommand | smart_socket_client/src/main.rs:78-93 | writes the serialised command once; reads exactly one message if and only if the write went out; shutdown is never called; the result is Exchange of the two outcomes |
| Client.SmartSocketClient.TurnOn | smart_socket_client/src/main.rs:95-97 | the exchange of TurnOn |
| Client.SmartSocketClient.TurnOff | smart_socket_client/src/main.rs:99-101 | the exchange of TurnOff |
| Client.SmartSocketClient.GetStatus | smart_socket_client/src/main.rs:103-105 | the exchange of GetStatus |
| Client.SmartSocketClient.GetInfo | smart_socket_client/src/main.rs:107-109 | the exchange of GetInfo |
| Client.SmartSocketClient.constructor | smart_socket_client/src/main.rs:70-73 | a new client is connected |
| Client.SmartSocketClient.Close | smart_socket_client/src/main.rs:111-122 | shutdown is called exactly when the client is connected; the new flag and the result are CloseStep of the old flag and the shutdown outcome |
| Client.CloseStep | smart_socket_client/src/main.rs:111-122 | close never connects a client, and it succeeds exactly when the client ends disconnected |
| Client.CloseOutcome | smart_socket_client/src/main.rs:111-122 | close succeeds unless a shutdown was attempted and failed, and then fails with ConnectionError("Failed to close connection: " + e); whether it stays connected is CloseStep's contract |
| Client.CloseIsOneShot | smart_socket_client/src/main.rs:111-122 | after a successful close, every later close succeeds, stays disconnected and calls no shutdown |
| Client.CloseSeriesShutdowns | smart_socket_client/src/main.rs:111-122 | over repeated closes, shutdown is called up to and including its first success and never after, and the client ends disconnected exactly when some shutdown succeeded |
| Client.CommandForInput | smart_socket_client/src/main.rs:142-155 | exactly "on", "off", "status" and "info" make a request |
| Client.CommandForInputIff | smart_socket_client/src/main.rs:142-146 | "on" sends TurnOn, "off" TurnOff, "status" GetStatus and "info" GetInfo, and no other word sends any of them |
| Client.FormatResponse | smart_socket_client/src/main.rs:163-176 | a status line is exactly "Socket is ", ON or OFF, ", power consumption: ", the power in canonical decimal and "W"; FormatMessages states the message shapes |
| Client.FormatMessages | smart_socket_client/src/main.rs:163-176 | Ok and Info messages are shown verbatim, an Error message after "Error: " |
| Client.FormatStatusInjective | smart_socket_client/src/main.rs:166-172 | the status line "Socket is ON/OFF, power consumption: <power>W" shows the state and power unambiguously |
| Client.ShowOutcome | smart_socket_client/src/main.rs:157-160 | each request's outcome is shown as exactly one line, on standard output exactly when it succeeded |
| Client.HandleCommand | smart_socket_client/src/main.rs:141-161 | the four command words make one exchange, shown by ShowOutcome; "help" prints the help lines and anything else prints the hint, neither touching the stream |

## Left out

- The server supervisor (`smart_socket_server/src/main.rs:88-135`): the mutex, the shutdown flag, the Ctrl-C handler, the accept loop and the threads. It is about concurrency and process wiring. A poisoned lock, which would make `lock().unwrap()` panic, is not modelled.
- Server.HandleClient: starts with the corrected `PeerLabel` (see Findings). As written, a failed `peer_addr()` makes the handler panic at `smart_socket_server/src/main.rs:24-26` before its first read; nothing is served and `Ok(())` is never returned. The contract describes the intended handler, not that panic.
- Server.PeerLabelAsWritten: of `SocketAddr::from_str` only a necessary condition is modelled, the ':' before the port that every accepted text has; it is enough to rule out "unknown".
- Server.HandleClient / Server.ServeMatchesReplay: the model serves one connection on a device that no other handler touches between its chunks. In the source every handler thread shares one `Arc<Mutex<Socket>>` (`smart_socket_server/src/main.rs:110-115`) and the lock is taken per chunk (`:45`), so other connections' commands may interleave between two chunks of this one; that interleaving is not captured.
- The `Socket` device is not part of this model. Its calls are opaque functions, so nothing is said about how `turn_on` changes the power.
- `serialize_message` and `read_message` are not part of this model. The serialiser is an opaque function that the client is built with. `read_message`'s outcomes are the stream's `readReply`.
- `String::from_utf8_lossy` and the 1024-byte read buffer (`smart_socket_server/src/main.rs:29`, `:37`). A chunk is already-decoded text of any length.
- Server.Connection.Write: a partial write (`write` returning fewer bytes than given) is not modelled. A write either delivers the whole text or fails.
- Client.ClientStream.WriteAll: a failed `write_all` records nothing in `written`, though some bytes may have gone out.
- Logging and timestamps on both sides (`get_timestamp`, `log`). These are clock reads and console output.
- Connecting and timeouts (`with_config`, `smart_socket_client/src/main.rs:54-75`), apart from the connected flag it sets.
- `Drop` (`smart_socket_client/src/main.rs:125-129`), which only calls `close` and discards the result.
- The interactive loop in the client's `main` (`smart_socket_client/src/main.rs:178-225`). It reads stdin and uses the Ctrl-C flag.
- The thermometer programs. They use UDP, floating point and randomness.

## Findings

| source | as written | input that shows it | evidently intended | confidence | as-written member | corrected member |
|---|---|---|---|---|---|---|
| smart_socket_server/src/main.rs:24-26 | when `peer_addr()` fails, the fallback parses "unknown" as a `SocketAddr` and unwraps it, which always panics | `peer_addr()` returning an error, e.g. for a peer that connected and reset at once | log the peer as "unknown" and serve the connection | high; not executed | Server.PeerAddrFailurePanics | Server.PeerLabel |
