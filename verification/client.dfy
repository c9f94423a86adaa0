/** The smart-socket client: one request/response exchange per command over a
    stream, a one-shot close, and the console front end that maps the user's
    words to requests and formats what comes back. */
module Client {
  import opened Wrappers
  import opened Text
  import opened Protocol

  type Bytes = seq<bv8>

  // ---------------------------------------------------------------------------
  // One exchange, as a function of what the stream does

  /** `send_command` once the stream has answered: `writeError` is the failure of
      `write_all` (None when the data went out), `reply` what `read_message`
      returned. A failed write ends the exchange before anything is read. */
  function Exchange(writeError: Option<string>, reply: Outcome<string>): (r: Outcome<Response>)
    ensures r.Success? ==> writeError == None && reply.Success?
    ensures writeError.Some? ==> r.Failure? && r.error.ConnectionError?
  {
    match writeError
    case Some(e) => Failure(ConnectionError("Failed to send command: " + e))
    case None =>
      match reply
      case Failure(e) => Failure(e)
      case Success(text) => ResponseFromStr(text)
  }

  /** An exchange succeeds exactly when the write and the read succeed and the
      text read is a well-formed response; the response is then the one parsed. */
  lemma ExchangeSucceeds(writeError: Option<string>, reply: Outcome<string>, resp: Response)
    ensures Exchange(writeError, reply) == Success(resp) <==>
      writeError == None && reply.Success? && ResponseFromStr(reply.value) == Success(resp)
  {
  }

  /** Where an exchange's error comes from: a failed write is reported as a
      connection error naming the write's failure; otherwise the read's error,
      or else the parser's, is passed on unchanged. */
  lemma ExchangeErrors(writeError: Option<string>, reply: Outcome<string>, e: ProtocolError)
    ensures Exchange(writeError, reply) == Failure(e) <==>
      || (writeError.Some? && e == ConnectionError("Failed to send command: " + writeError.value))
      || (writeError == None && reply == Failure(e))
      || (writeError == None && reply.Success? && ResponseFromStr(reply.value) == Failure(e))
  {
  }

  /** A failed write shows on the console as a connection error whose text starts
      with "Connection error: Failed to send command: ". */
  lemma ExchangeWriteFailureText(e: string, reply: Outcome<string>)
    ensures var r := Exchange(Some(e), reply);
      && r.Failure?
      && ErrorToString(r.error) == "Connection error: " + ("Failed to send command: " + e)
  {
  }

  /** When the text read is what a server rendered for a response, the client
      obtains that very response. */
  lemma ExchangeReceivesRendered(resp: Response)
    ensures Exchange(None, Success(ResponseToString(resp))) == Success(resp)
  {
    ResponseRoundTrip(resp);
  }

  // ---------------------------------------------------------------------------
  // close

  /** `close` on a client whose flag is `connected`, where `shutdown` is what
      `shutdown` would report if it were called. The result pairs the new flag
      with the outcome. */
  function CloseStep(connected: bool, shutdown: Option<string>): (r: (bool, Outcome<()>))
    ensures r.0 ==> connected
    ensures r.1.Success? <==> !r.0
  {
    if !connected then (false, Success(()))
    else match shutdown
      case None => (false, Success(()))
      case Some(e) => (true, Failure(ConnectionError("Failed to close connection: " + e)))
  }

  /** Close succeeds unless a shutdown was attempted and failed, and the
      failure names the shutdown's error. */
  lemma CloseOutcome(connected: bool, shutdown: Option<string>)
    ensures var r := CloseStep(connected, shutdown).1;
      && (r.Success? <==> !connected || shutdown == None)
      && (r.Failure? ==> r == Failure(ConnectionError("Failed to close connection: " + shutdown.value)))
  {
  }

  /** Once a close has succeeded, every further close succeeds and leaves the
      client disconnected, whatever a shutdown would report. */
  lemma CloseIsOneShot(connected: bool, first: Option<string>, later: seq<Option<string>>)
    requires CloseStep(connected, first).1.Success?
    ensures CloseSeries(CloseStep(connected, first).0, later) == (false, |later|, 0)
  {
    ClosedSeries(later);
  }

  /** A run of closes starting from `connected`, the i-th finding `outcomes[i]`
      if it calls shutdown: the final flag, how many closes succeeded and how
      many shutdowns were called. */
  function CloseSeries(connected: bool, outcomes: seq<Option<string>>): (r: (bool, nat, nat))
    ensures r.1 <= |outcomes| && r.2 <= |outcomes|
    decreases |outcomes|
  {
    if outcomes == [] then (connected, 0, 0)
    else
      var (after, res) := CloseStep(connected, outcomes[0]);
      var (last, ok, calls) := CloseSeries(after, outcomes[1..]);
      (last, ok + (if res.Success? then 1 else 0), calls + (if connected then 1 else 0))
  }

  lemma {:induction false} ClosedSeries(outcomes: seq<Option<string>>)
    ensures CloseSeries(false, outcomes) == (false, |outcomes|, 0)
    decreases |outcomes|
  {
    if outcomes != [] {
      ClosedSeries(outcomes[1..]);
    }
  }

  /** Shutdown is attempted until the first one succeeds and never after: over
      a run of closes from a connected client, the shutdown calls are the
      failed attempts plus at most one success, and the client ends
      disconnected exactly when some shutdown succeeded. */
  lemma {:induction false} CloseSeriesShutdowns(outcomes: seq<Option<string>>)
    ensures var (last, ok, calls) := CloseSeries(true, outcomes);
      && (!last <==> None in outcomes)
      && calls == (if None in outcomes then FirstSuccess(outcomes) + 1 else |outcomes|)
    decreases |outcomes|
  {
    if outcomes != [] {
      if outcomes[0] == None {
        ClosedSeries(outcomes[1..]);
      } else {
        CloseSeriesShutdowns(outcomes[1..]);
        assert None in outcomes <==> None in outcomes[1..] by {
          assert outcomes == [outcomes[0]] + outcomes[1..];
        }
      }
    }
  }

  /** The position of the first successful shutdown. */
  function FirstSuccess(outcomes: seq<Option<string>>): (i: nat)
    requires None in outcomes
    ensures i < |outcomes| && outcomes[i] == None
    ensures forall j :: 0 <= j < i ==> outcomes[j].Some?
  {
    if outcomes[0] == None then 0 else 1 + FirstSuccess(outcomes[1..])
  }

  // ---------------------------------------------------------------------------
  // The stream and the client object

  /** The client's side of the connection. What each call reports is a function
      of how many such calls came before: `writeError(n)` for the n-th
      `write_all`, `readReply(n)` for the n-th `read_message`, `shutdownError(n)`
      for the n-th `shutdown`. `written` records the data of the writes that
      went out. */
  class ClientStream {
    const writeError: nat -> Option<string>
    const readReply: nat -> Outcome<string>
    const shutdownError: nat -> Option<string>
    var written: seq<Bytes>
    var writeCalls: nat
    var readCalls: nat
    var shutdownCalls: nat

    constructor (writeError: nat -> Option<string>, readReply: nat -> Outcome<string>,
                 shutdownError: nat -> Option<string>)
      ensures this.writeError == writeError && this.readReply == readReply
      ensures this.shutdownError == shutdownError
      ensures written == [] && writeCalls == 0 && readCalls == 0 && shutdownCalls == 0
    {
      this.writeError := writeError;
      this.readReply := readReply;
      this.shutdownError := shutdownError;
      written := [];
      writeCalls := 0;
      readCalls := 0;
      shutdownCalls := 0;
    }

    /** `write_all`: None when all of `data` went out, else the error's text. */
    method WriteAll(data: Bytes) returns (err: Option<string>)
      modifies this`written, this`writeCalls
      ensures err == writeError(old(writeCalls))
      ensures writeCalls == old(writeCalls) + 1
      ensures written == if err == None then old(written) + [data] else old(written)
    {
      err := writeError(writeCalls);
      writeCalls := writeCalls + 1;
      if err == None {
        written := written + [data];
      }
    }

    /** `read_message`: the next message, or the error reading it raised. */
    method ReadMessage() returns (r: Outcome<string>)
      modifies this`readCalls
      ensures r == readReply(old(readCalls))
      ensures readCalls == old(readCalls) + 1
    {
      r := readReply(readCalls);
      readCalls := readCalls + 1;
    }

    /** `shutdown(Shutdown::Both)`: None on success, else the error's text. */
    method Shutdown() returns (err: Option<string>)
      modifies this`shutdownCalls
      ensures err == shutdownError(old(shutdownCalls))
      ensures shutdownCalls == old(shutdownCalls) + 1
    {
      err := shutdownError(shutdownCalls);
      shutdownCalls := shutdownCalls + 1;
    }
  }

  /** `SmartSocketClient`: a stream, the connected flag, and the message
      serialiser the client uses (`serialize_message`, which is not part of
      this model and is taken as given). */
  class SmartSocketClient {
    const stream: ClientStream
    const serialize: string -> Bytes
    var connected: bool

    /** A client over a freshly opened stream is connected. */
    constructor (stream: ClientStream, serialize: string -> Bytes)
      ensures this.stream == stream && this.serialize == serialize && connected
    {
      this.stream := stream;
      this.serialize := serialize;
      connected := true;
    }

    /** What one exchange of `c` does to the stream and what it returns: the
        serialised command is written; only if that write goes out is one
        message read; the result is `Exchange` of the two outcomes. */
    twostate predicate Exchanged(c: Command, new r: Outcome<Response>)
      reads this, stream
    {
      var err := stream.writeError(old(stream.writeCalls));
      && stream.writeCalls == old(stream.writeCalls) + 1
      && stream.written == old(stream.written) + (if err == None then [serialize(CommandToString(c))] else [])
      && stream.readCalls == old(stream.readCalls) + (if err == None then 1 else 0)
      && stream.shutdownCalls == old(stream.shutdownCalls)
      && r == Exchange(err, stream.readReply(old(stream.readCalls)))
    }

    /** `send_command`: render, serialise, write, and if the write went out,
        read one message and parse it. */
    method SendCommand(c: Command) returns (r: Outcome<Response>)
      modifies stream
      ensures Exchanged(c, r)
    {
      var data := serialize(CommandToString(c));
      var err := stream.WriteAll(data);
      if err.Some? {
        return Failure(ConnectionError("Failed to send command: " + err.value));
      }
      var reply := stream.ReadMessage();
      match reply
      case Failure(e) => r := Failure(e);
      case Success(text) => r := ResponseFromStr(text);
    }

    method TurnOn() returns (r: Outcome<Response>)
      modifies stream
      ensures Exchanged(Command.TurnOn, r)
    {
      r := SendCommand(Command.TurnOn);
    }

    method TurnOff() returns (r: Outcome<Response>)
      modifies stream
      ensures Exchanged(Command.TurnOff, r)
    {
      r := SendCommand(Command.TurnOff);
    }

    method GetStatus() returns (r: Outcome<Response>)
      modifies stream
      ensures Exchanged(Command.GetStatus, r)
    {
      r := SendCommand(Command.GetStatus);
    }

    method GetInfo() returns (r: Outcome<Response>)
      modifies stream
      ensures Exchanged(Command.GetInfo, r)
    {
      r := SendCommand(Command.GetInfo);
    }

    /** `close`: shut the stream down if still connected. Shutdown is called
        exactly when the client was connected, and the new flag and the
        result are `CloseStep` of the old flag and what shutdown reported. */
    method Close() returns (r: Outcome<()>)
      modifies this`connected, stream`shutdownCalls
      ensures stream.shutdownCalls == old(stream.shutdownCalls) + (if old(connected) then 1 else 0)
      ensures (connected, r) == CloseStep(old(connected), stream.shutdownError(old(stream.shutdownCalls)))
    {
      if connected {
        var err := stream.Shutdown();
        if err.Some? {
          return Failure(ConnectionError("Failed to close connection: " + err.value));
        }
        connected := false;
      }
      r := Success(());
    }
  }

  // ---------------------------------------------------------------------------
  // The console front end

  /** The words the console turns into requests. */
  function CommandForInput(cmd: string): (r: Option<Command>)
    ensures r.Some? <==> cmd in {"on", "off", "status", "info"}
  {
    match cmd
    case "on" => Some(TurnOn)
    case "off" => Some(TurnOff)
    case "status" => Some(GetStatus)
    case "info" => Some(GetInfo)
    case _ => None
  }

  /** Each of the four words makes its own request: "on" turns the socket on,
      "off" turns it off, "status" asks for the status and "info" for the
      description. */
  lemma CommandForInputIff(cmd: string, c: Command)
    ensures CommandForInput(cmd) == Some(c) <==>
      cmd == (match c case TurnOn => "on" case TurnOff => "off"
                      case GetStatus => "status" case GetInfo => "info")
  {
  }

  /** The client's human-readable rendering of a response. */
  function FormatResponse(resp: Response): (s: string)
    ensures resp.Status? ==> |s| > 10 && s[..10] == "Socket is " && s[|s| - 1] == 'W'
    ensures resp.Status? ==>
      s == "Socket is " + OnOff(resp.isOn) + ", power consumption: " + NatToDecimal(resp.power as nat) + "W"
  {
    match resp
    case Ok(msg) => msg
    case Status(isOn, power) =>
      "Socket is " + OnOff(isOn) + ", power consumption: " + NatToDecimal(power as nat) + "W"
    case Info(info) => info
    case Error(err) => "Error: " + err
  }

  /** Messages are shown verbatim, an error with "Error: " in front. */
  lemma FormatMessages(m: string)
    ensures FormatResponse(Ok(m)) == m && FormatResponse(Info(m)) == m
    ensures var s := FormatResponse(Error(m)); |s| == 7 + |m| && s[..7] == "Error: " && s[7..] == m
  {
  }

  /** A status line can be read back: the state and the power it shows are the
      response's own. */
  lemma FormatStatusInjective(a: bool, p: u32, b: bool, q: u32)
    requires FormatResponse(Status(a, p)) == FormatResponse(Status(b, q))
    ensures a == b && p == q
  {
    var s := FormatResponse(Status(a, p));
    assert s[11] == (if a then 'N' else 'F');
    assert s[11] == (if b then 'N' else 'F');
    var head := |"Socket is " + OnOff(a) + ", power consumption: "|;
    assert s[head..|s| - 1] == NatToDecimal(p as nat);
    assert s[head..|s| - 1] == NatToDecimal(q as nat);
    ParseU32Decimal(p);
    ParseU32Decimal(q);
  }

  /** What the console shows: lines on standard output and on standard error. */
  datatype Console = Console(stdout: seq<string>, stderr: seq<string>)

  const HelpLines: seq<string> := [
    "\nAvailable commands:",
    "on     - Turn the socket on",
    "off    - Turn the socket off",
    "status - Get socket status",
    "info   - Get socket info",
    "help   - Show this help",
    "exit   - Close connection and exit"
  ]

  const UnknownLine: string := "Unknown command. Type 'help' for available commands."

  /** How the outcome of a request is shown: one line, on standard output for
      a response and on standard error for an error. */
  function ShowOutcome(r: Outcome<Response>): (out: Console)
    ensures |out.stdout| + |out.stderr| == 1
    ensures |out.stdout| == 1 <==> r.Success?
  {
    match r
    case Success(resp) => Console(["Response: " + FormatResponse(resp)], [])
    case Failure(e) => Console([], ["Error: " + ErrorToString(e)])
  }

  /** `handle_command`: a request for the four command words, the help text for
      "help", and a hint for anything else; only the four words touch the
      stream. */
  method HandleCommand(client: SmartSocketClient, cmd: string) returns (out: Console)
    modifies client.stream
    ensures CommandForInput(cmd).Some? ==>
      var r := Exchange(client.stream.writeError(old(client.stream.writeCalls)),
                        client.stream.readReply(old(client.stream.readCalls)));
      client.Exchanged(CommandForInput(cmd).value, r) && out == ShowOutcome(r)
    ensures CommandForInput(cmd) == None ==> unchanged(client.stream)
    ensures cmd == "help" ==> out == Console(HelpLines, [])
    ensures CommandForInput(cmd) == None && cmd != "help" ==> out == Console([UnknownLine], [])
  {
    var r;
    match cmd {
      case "on" => r := client.TurnOn();
      case "off" => r := client.TurnOff();
      case "status" => r := client.GetStatus();
      case "info" => r := client.GetInfo();
      case "help" => return Console(HelpLines, []);
      case _ => return Console([UnknownLine], []);
    }
    out := ShowOutcome(r);
  }
}
