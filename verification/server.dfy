/** The server's connection handler (`handle_client`): read a chunk of text,
    parse it as a command, apply the command to the shared device, write the
    rendered response, and repeat until the peer closes or an I/O call fails. */
module Server {
  import opened Wrappers
  import opened Text
  import opened Protocol

  // ---------------------------------------------------------------------------
  // The device, kept abstract

  /** The five device calls the handler makes. */
  datatype DeviceCall = TurnOnCall | TurnOffCall | IsOnCall | GetPowerCall | DescriptionCall

  /** What the device's calls do, over a device state of unknown shape `S`.
      The only assumption is in the types: the three queries return a value
      and leave the device as it was. Nothing is assumed about what the calls
      compute, in particular not how turning the device on or off affects its
      power. */
  datatype DeviceOps<!S> = DeviceOps(
    turnOn: S -> S,
    turnOff: S -> S,
    isOn: S -> bool,
    getPower: S -> u32,
    description: S -> string)

  /** The outcome of handling one chunk: the device's new state, the device
      calls made while holding the lock, and the response. */
  datatype Step<S> = Step(state: S, calls: seq<DeviceCall>, response: Response)

  /** The command dispatch done while holding the device lock. */
  function Dispatch<S>(ops: DeviceOps<S>, s: S, c: Command): (step: Step<S>)
    ensures |step.calls| >= 1
    ensures TurnOnCall !in step.calls && TurnOffCall !in step.calls ==> step.state == s
    ensures TurnOnCall in step.calls || TurnOffCall in step.calls ==> |step.calls| == 1
  {
    match c
    case TurnOn => Step(ops.turnOn(s), [TurnOnCall], Ok("Socket turned on"))
    case TurnOff => Step(ops.turnOff(s), [TurnOffCall], Ok("Socket turned off"))
    case GetStatus => Step(s, [IsOnCall, GetPowerCall], Status(ops.isOn(s), ops.getPower(s)))
    case GetInfo => Step(s, [DescriptionCall], Info(ops.description(s)))
  }

  /** One chunk: a command that parses is dispatched; one that does not is
      answered with an Error carrying the displayed parse error, and the device
      is not touched. At most one mutating call is made per chunk, and a chunk
      that makes none leaves the device state as it was. */
  function HandleChunk<S>(ops: DeviceOps<S>, s: S, chunk: string): (step: Step<S>)
    ensures step.calls == [] <==> CommandFromStr(chunk).Failure?
    ensures TurnOnCall !in step.calls && TurnOffCall !in step.calls ==> step.state == s
    ensures TurnOnCall in step.calls || TurnOffCall in step.calls ==> |step.calls| == 1
  {
    match CommandFromStr(chunk)
    case Success(command) => Dispatch(ops, s, command)
    case Failure(e) => Step(s, [], Error(ErrorToString(e)))
  }

  /** What each command does, given the trimmed text of the chunk it arrived in. */
  lemma ChunkEffects<S>(ops: DeviceOps<S>, s: S, chunk: string)
    ensures Trim(chunk) == "ON" ==>
      HandleChunk(ops, s, chunk) == Step(ops.turnOn(s), [TurnOnCall], Ok("Socket turned on"))
    ensures Trim(chunk) == "OFF" ==>
      HandleChunk(ops, s, chunk) == Step(ops.turnOff(s), [TurnOffCall], Ok("Socket turned off"))
    ensures Trim(chunk) == "STATUS" ==>
      HandleChunk(ops, s, chunk) == Step(s, [IsOnCall, GetPowerCall], Status(ops.isOn(s), ops.getPower(s)))
    ensures Trim(chunk) == "INFO" ==>
      HandleChunk(ops, s, chunk) == Step(s, [DescriptionCall], Info(ops.description(s)))
  {
    var r := CommandFromStr(chunk);
    if r.Success? {
      assert CommandToString(r.value) == Trim(chunk);
    }
  }

  /** A chunk that is not a command leaves the device untouched and gets, on
      the wire, exactly "ERROR:Invalid command: " followed by its trimmed text. */
  lemma InvalidChunk<S>(ops: DeviceOps<S>, s: S, chunk: string)
    requires CommandFromStr(chunk).Failure?
    ensures HandleChunk(ops, s, chunk).state == s && HandleChunk(ops, s, chunk).calls == []
    ensures ResponseToString(HandleChunk(ops, s, chunk).response) == "ERROR:Invalid command: " + Trim(chunk)
  {
    var t := Trim(chunk);
    assert CommandFromStr(chunk).error == InvalidCommand(t);
    InvalidCommandWire(t);
  }

  /** The wire text of the Error response that reports an unparsable command. */
  lemma InvalidCommandWire(t: string)
    ensures ResponseToString(Error(ErrorToString(InvalidCommand(t)))) == "ERROR:Invalid command: " + t
  {
    var shown := ErrorToString(InvalidCommand(t));
    assert shown == "Invalid command: " + t;
    ErrorWire(shown);
    assert "ERROR:" + "Invalid command: " == "ERROR:Invalid command: ";
    assert "ERROR:" + ("Invalid command: " + t) == ("ERROR:" + "Invalid command: ") + t;
  }

  /** Server and client agree: the client's parse of the server's reply to a
      rendered command is the response the dispatch produced. */
  lemma ServerClientAgree<S>(ops: DeviceOps<S>, s: S, c: Command)
    ensures ResponseFromStr(ResponseToString(HandleChunk(ops, s, CommandToString(c)).response))
         == Success(Dispatch(ops, s, c).response)
  {
    CommandRoundTrip([], c, []);
    assert [] + CommandToString(c) + [] == CommandToString(c);
    ResponseRoundTrip(Dispatch(ops, s, c).response);
  }

  // ---------------------------------------------------------------------------
  // A whole connection, as a function of what the peer sends

  /** One `stream.read`: text (empty when the peer has closed, i.e. a read of
      zero bytes) or an I/O error. */
  datatype ReadOutcome = Received(text: string) | ReadFailed

  datatype EndReason = PeerClosed | ReadFailure | WriteFailure

  /** The effect of serving a connection: final device state, device calls,
      texts delivered to the peer, chunks handled, read outcomes consumed, and
      why the loop ended. */
  datatype Trace<S> = Trace(state: S, calls: seq<DeviceCall>, sent: seq<string>, handled: nat, consumed: nat, end: EndReason)

  /** What handling one chunk amounts to for the connection: the device's new
      state, the device calls, and the text written back. */
  datatype Answer<S> = Answer(state: S, calls: seq<DeviceCall>, reply: string)

  /** The answer to a chunk: its step on the device, with the response rendered. */
  function AnswerChunk<S>(ops: DeviceOps<S>, s: S, chunk: string): Answer<S>
  {
    var step := HandleChunk(ops, s, chunk);
    Answer(step.state, step.calls, ResponseToString(step.response))
  }

  /** The per-chunk handler of a device. */
  function ChunkHandler<S>(ops: DeviceOps<S>): (S, string) -> Answer<S>
  {
    (s, chunk) => AnswerChunk(ops, s, chunk)
  }

  /** The loop of `handle_client` over the reads `incoming` (a peer that has
      sent all of them then closes), where `handle` handles one chunk and write
      number `k` succeeds exactly when `writeOk(k)`. */
  function Serve<S>(handle: (S, string) -> Answer<S>, s: S, incoming: seq<ReadOutcome>, writeOk: nat -> bool, k: nat): (t: Trace<S>)
    ensures t.handled <= t.consumed <= |incoming|
    ensures t.end == WriteFailure ==> t.handled >= 1 && |t.sent| == t.handled - 1
    ensures t.end != WriteFailure ==> |t.sent| == t.handled
    decreases |incoming|
  {
    if incoming == [] then
      Trace(s, [], [], 0, 0, PeerClosed)
    else
      match incoming[0]
      case ReadFailed => Trace(s, [], [], 0, 1, ReadFailure)
      case Received(text) =>
        if text == [] then
          Trace(s, [], [], 0, 1, PeerClosed)
        else
          var step := handle(s, text);
          if !writeOk(k) then
            Trace(step.state, step.calls, [], 1, 1, WriteFailure)
          else
            var rest := Serve(handle, step.state, incoming[1..], writeOk, k + 1);
            Trace(rest.state, step.calls + rest.calls, [step.reply] + rest.sent,
                  rest.handled + 1, rest.consumed + 1, rest.end)
  }

  /** The chunks the handler gets to see: the texts read before the first
      empty read, failed read, or end of input. */
  function Chunks(incoming: seq<ReadOutcome>): (chunks: seq<string>)
    ensures |chunks| <= |incoming|
    ensures forall i :: 0 <= i < |chunks| ==> incoming[i] == Received(chunks[i]) && chunks[i] != []
    ensures |chunks| < |incoming| ==> incoming[|chunks|] == ReadFailed || incoming[|chunks|] == Received([])
  {
    if incoming == [] || incoming[0] == ReadFailed || incoming[0] == Received([]) then []
    else [incoming[0].text] + Chunks(incoming[1..])
  }

  datatype Replay<S> = Replay(state: S, calls: seq<DeviceCall>, replies: seq<string>)

  /** Reference semantics: handle the chunks one after another on the device,
      collecting each rendered response. */
  function ReplayChunks<S>(handle: (S, string) -> Answer<S>, s: S, chunks: seq<string>): (r: Replay<S>)
    ensures |r.replies| == |chunks|
  {
    if chunks == [] then Replay(s, [], [])
    else
      var step := handle(s, chunks[0]);
      var rest := ReplayChunks(handle, step.state, chunks[1..]);
      Replay(rest.state, step.calls + rest.calls, [step.reply] + rest.replies)
  }

  /** One pass of the loop, from the point of view of a caller that has
      already produced `calls` and `sent`: what serving the whole input adds to
      them is what this pass adds followed by what serving the rest adds. */
  lemma ServePass<S>(handle: (S, string) -> Answer<S>, s: S, incoming: seq<ReadOutcome>, writeOk: nat -> bool, k: nat,
                     calls: seq<DeviceCall>, sent: seq<string>)
    ensures var whole := Serve(handle, s, incoming, writeOk, k);
      incoming == [] || incoming[0] == ReadFailed || incoming[0] == Received([]) ==>
        && whole.state == s && calls + whole.calls == calls && sent + whole.sent == sent && whole.handled == 0
        && whole.consumed == (if incoming == [] then 0 else 1)
    ensures var whole := Serve(handle, s, incoming, writeOk, k);
      !(incoming == [] || incoming[0] == ReadFailed || incoming[0] == Received([])) ==>
        var step := handle(s, incoming[0].text);
        var rest := Serve(handle, step.state, incoming[1..], writeOk, k + 1);
        if writeOk(k) then
          && whole.state == rest.state
          && calls + whole.calls == (calls + step.calls) + rest.calls
          && sent + whole.sent == (sent + [step.reply]) + rest.sent
          && whole.handled == rest.handled + 1
          && whole.consumed == rest.consumed + 1
        else
          && whole.state == step.state
          && calls + whole.calls == calls + step.calls
          && sent + whole.sent == sent
          && whole.handled == 1
          && whole.consumed == 1
  {
    var whole := Serve(handle, s, incoming, writeOk, k);
    if incoming == [] || incoming[0] == ReadFailed || incoming[0] == Received([]) {
      assert calls + [] == calls && sent + [] == sent;
    } else {
      var step := handle(s, incoming[0].text);
      if writeOk(k) {
        var rest := Serve(handle, step.state, incoming[1..], writeOk, k + 1);
        assert calls + (step.calls + rest.calls) == (calls + step.calls) + rest.calls;
        assert sent + ([step.reply] + rest.sent) == (sent + [step.reply]) + rest.sent;
      } else {
        assert sent + [] == sent;
      }
    }
  }

  /** Writes number `from` to `from + count - 1` all succeed. */
  ghost predicate WritesSucceed(writeOk: nat -> bool, from: nat, count: nat) {
    forall j :: from <= j < from + count ==> writeOk(j)
  }

  /** How far the handler gets: it handles every chunk and stops at the first
      empty or failed read (ending with a read failure exactly when that is what
      follows the chunks), unless a write fails first. */
  lemma {:induction false} ServeStops<S>(
    handle: (S, string) -> Answer<S>, s: S, incoming: seq<ReadOutcome>, writeOk: nat -> bool, k: nat)
    ensures var t := Serve(handle, s, incoming, writeOk, k);
      var chunks := Chunks(incoming);
      && t.handled <= |chunks|
      && (t.end != WriteFailure ==> t.handled == |chunks|)
      && (t.end != WriteFailure ==> (t.end == ReadFailure <==> |chunks| < |incoming| && incoming[|chunks|] == ReadFailed))
      && t.consumed == (if t.end == WriteFailure || |chunks| == |incoming| then t.handled else t.handled + 1)
    decreases |incoming|
  {
    if incoming == [] || incoming[0] == ReadFailed || incoming[0] == Received([]) {
      assert Chunks(incoming) == [];
    } else {
      var text := incoming[0].text;
      var tail := Chunks(incoming[1..]);
      assert Chunks(incoming) == [text] + tail;
      if writeOk(k) {
        ServeStops(handle, handle(s, text).state, incoming[1..], writeOk, k + 1);
        assert |tail| < |incoming[1..]| ==> incoming[1..][|tail|] == incoming[|tail| + 1];
      }
    }
  }

  /** Every write before the last one succeeds; the handler stops on a write
      failure right after the chunk whose response could not be written. */
  lemma {:induction false} ServeWrites<S>(
    handle: (S, string) -> Answer<S>, s: S, incoming: seq<ReadOutcome>, writeOk: nat -> bool, k: nat)
    ensures var t := Serve(handle, s, incoming, writeOk, k);
      && (t.end == WriteFailure ==> !writeOk(k + t.handled - 1) && WritesSucceed(writeOk, k, t.handled - 1))
      && (t.end != WriteFailure ==> WritesSucceed(writeOk, k, t.handled))
    decreases |incoming|
  {
    var t := Serve(handle, s, incoming, writeOk, k);
    if !(incoming == [] || incoming[0] == ReadFailed || incoming[0] == Received([])) && writeOk(k) {
      var next := handle(s, incoming[0].text).state;
      ServeWrites(handle, next, incoming[1..], writeOk, k + 1);
      var rest := Serve(handle, next, incoming[1..], writeOk, k + 1);
      assert t.handled == rest.handled + 1 && t.end == rest.end;
      var n := if t.end == WriteFailure then t.handled - 1 else t.handled;
      assert WritesSucceed(writeOk, k, n) by {
        forall j | k <= j < k + n ensures writeOk(j) {
          if j > k {
            assert k + 1 <= j < (k + 1) + (n - 1);
          }
        }
      }
    }
  }

  /** The handler answers the chunks it handles exactly once each, in read
      order, each in the device state the chunks before it left: what it
      delivers, the device calls and the final device state are those of the
      reference replay of those chunks (all but the last reply when a write
      failed, though that chunk's device effect has already happened). */
  lemma {:induction false} ServeMatchesReplay<S>(
    handle: (S, string) -> Answer<S>, s: S, incoming: seq<ReadOutcome>, writeOk: nat -> bool, k: nat)
    ensures var t := Serve(handle, s, incoming, writeOk, k);
      var chunks := Chunks(incoming);
      && t.handled <= |chunks|
      && var r := ReplayChunks(handle, s, chunks[..t.handled]);
      && t.state == r.state
      && t.calls == r.calls
      && t.sent == (if t.end == WriteFailure then r.replies[..t.handled - 1] else r.replies)
    decreases |incoming|
  {
    var t := Serve(handle, s, incoming, writeOk, k);
    var chunks := Chunks(incoming);
    if incoming == [] || incoming[0] == ReadFailed || incoming[0] == Received([]) {
      assert chunks == [];
    } else {
      var text := incoming[0].text;
      var step := handle(s, text);
      var tail := Chunks(incoming[1..]);
      assert chunks == [text] + tail;
      if !writeOk(k) {
        ReplayCons(handle, s, text, tail, 1);
        assert step.calls + [] == step.calls;
      } else {
        var rest := Serve(handle, step.state, incoming[1..], writeOk, k + 1);
        ServeMatchesReplay(handle, step.state, incoming[1..], writeOk, k + 1);
        ReplayCons(handle, s, text, tail, t.handled);
        var rr := ReplayChunks(handle, step.state, tail[..rest.handled]);
        if t.end == WriteFailure {
          assert ([step.reply] + rr.replies)[..t.handled - 1] == [step.reply] + rr.replies[..rest.handled - 1];
        }
      }
    }
  }

  /** Replaying the first `n` chunks of `text` followed by `tail`: handle
      `text`, then replay the first `n - 1` chunks of `tail`. */
  lemma ReplayCons<S>(handle: (S, string) -> Answer<S>, s: S, text: string, tail: seq<string>, n: nat)
    requires 1 <= n <= |tail| + 1
    ensures var step := handle(s, text);
      var rr := ReplayChunks(handle, step.state, tail[..n - 1]);
      ReplayChunks(handle, s, ([text] + tail)[..n]) == Replay(rr.state, step.calls + rr.calls, [step.reply] + rr.replies)
  {
    assert ([text] + tail)[..n][1..] == tail[..n - 1];
  }

  // ---------------------------------------------------------------------------
  // The peer's address, logged when the handler starts

  /** The text `handle_client` falls back to when `peer_addr()` fails. */
  const UnknownPeer: string := "unknown"

  /** Whether `s` has the ':' that separates the port in every text
      `SocketAddr::from_str` accepts (`ip:port` and `[ip]:port` alike). Only
      this necessary condition of the parse is modelled. */
  predicate HasPortSeparator(s: string)
  {
    ':' in s
  }

  /** How the handler starts: with the label it logs the peer under, or with a
      panic before anything is read. */
  datatype PeerStart = Labelled(name: string) | Panicked

  /** The start of `handle_client` as written: the peer's address when
      `peer_addr()` succeeds; otherwise the fallback text is parsed as a socket
      address and unwrapped, which panics when that parse fails. */
  function PeerLabelAsWritten(peerAddr: Option<string>): (r: PeerStart)
    ensures r.Panicked? ==> peerAddr == None
  {
    match peerAddr
    case Some(addr) => Labelled(addr)
    case None => if HasPortSeparator(UnknownPeer) then Labelled(UnknownPeer) else Panicked
  }

  /** As written, the handler panics exactly when `peer_addr()` fails: the
      fallback "unknown" is not a socket address. */
  lemma PeerAddrFailurePanics(peerAddr: Option<string>)
    ensures PeerLabelAsWritten(peerAddr) == Panicked <==> peerAddr == None
  {
  }

  /** The intended start: the peer is labelled "unknown" when its address
      cannot be read, and the handler goes on to serve the connection. It never
      panics, and agrees with the code as written whenever that does not panic. */
  function PeerLabel(peerAddr: Option<string>): (r: PeerStart)
    ensures r.Labelled?
    ensures peerAddr == None ==> r.name == UnknownPeer
    ensures PeerLabelAsWritten(peerAddr).Labelled? ==> r == PeerLabelAsWritten(peerAddr)
  {
    match peerAddr
    case Some(addr) => Labelled(addr)
    case None => Labelled(UnknownPeer)
  }

  // ---------------------------------------------------------------------------
  // The imperative handler

  /** The accepted TCP stream as the handler sees it: the reads still to come,
      which writes succeed, and the texts delivered so far. Unframed: each read
      yields whatever text arrived, each write sends a rendered response as is. */
  class Connection {
    /** What `stream.peer_addr()` reports: the address's text, or None when it fails. */
    const peerAddr: Option<string>
    var incoming: seq<ReadOutcome>
    const writeOk: nat -> bool
    var writes: nat
    var sent: seq<string>

    constructor (peerAddr: Option<string>, incoming: seq<ReadOutcome>, writeOk: nat -> bool)
      ensures this.peerAddr == peerAddr && this.incoming == incoming && this.writeOk == writeOk
      ensures writes == 0 && sent == []
    {
      this.peerAddr := peerAddr;
      this.incoming := incoming;
      this.writeOk := writeOk;
      writes := 0;
      sent := [];
    }

    /** `stream.read`: the next read outcome; once everything is read the peer
        has closed and the read returns nothing. */
    method Read() returns (r: ReadOutcome)
      modifies this`incoming
      ensures r == if old(incoming) == [] then Received([]) else old(incoming)[0]
      ensures incoming == if old(incoming) == [] then [] else old(incoming)[1..]
    {
      if incoming == [] {
        r := Received([]);
      } else {
        r := incoming[0];
        incoming := incoming[1..];
      }
    }

    /** `stream.write`: delivers `text` when the write succeeds. */
    method Write(text: string) returns (ok: bool)
      modifies this`writes, this`sent
      ensures ok == writeOk(old(writes))
      ensures writes == old(writes) + 1
      ensures sent == if ok then old(sent) + [text] else old(sent)
    {
      ok := writeOk(writes);
      writes := writes + 1;
      if ok {
        sent := sent + [text];
      }
    }
  }

  /** The device behind its lock, with a record of the calls made on it. */
  class SharedDevice<S(!new)> {
    const ops: DeviceOps<S>
    /** How a chunk is answered on this device, as a value the connection
        loop can be specified with. */
    ghost const handler: (S, string) -> Answer<S>
    var state: S
    var calls: seq<DeviceCall>

    /** The handler is the chunk handler of the device's calls. */
    ghost predicate Linked() {
      forall s: S, chunk: string {:trigger HandleChunk(ops, s, chunk)} :: handler(s, chunk) == AnswerChunk(ops, s, chunk)
    }

    constructor (ops: DeviceOps<S>, initial: S)
      ensures this.ops == ops && handler == ChunkHandler(ops) && state == initial && calls == []
      ensures Linked()
    {
      this.ops := ops;
      handler := ChunkHandler(ops);
      state := initial;
      calls := [];
    }

    method TurnOn()
      modifies this
      ensures state == ops.turnOn(old(state)) && calls == old(calls) + [TurnOnCall]
    {
      state := ops.turnOn(state);
      calls := calls + [TurnOnCall];
    }

    method TurnOff()
      modifies this
      ensures state == ops.turnOff(old(state)) && calls == old(calls) + [TurnOffCall]
    {
      state := ops.turnOff(state);
      calls := calls + [TurnOffCall];
    }

    method IsOn() returns (on: bool)
      modifies this`calls
      ensures on == ops.isOn(state) && calls == old(calls) + [IsOnCall]
    {
      on := ops.isOn(state);
      calls := calls + [IsOnCall];
    }

    method GetPower() returns (power: u32)
      modifies this`calls
      ensures power == ops.getPower(state) && calls == old(calls) + [GetPowerCall]
    {
      power := ops.getPower(state);
      calls := calls + [GetPowerCall];
    }

    method Description() returns (text: string)
      modifies this`calls
      ensures text == ops.description(state) && calls == old(calls) + [DescriptionCall]
    {
      text := ops.description(state);
      calls := calls + [DescriptionCall];
    }
  }

  /** The command match run while the lock is held. */
  method Apply<S(!new)>(device: SharedDevice<S>, command: Command) returns (response: Response)
    modifies device
    ensures var step := Dispatch(device.ops, old(device.state), command);
      device.state == step.state && device.calls == old(device.calls) + step.calls && response == step.response
  {
    match command
    case TurnOn =>
      device.TurnOn();
      response := Ok("Socket turned on");
    case TurnOff =>
      device.TurnOff();
      response := Ok("Socket turned off");
    case GetStatus =>
      var on := device.IsOn();
      var power := device.GetPower();
      response := Status(on, power);
    case GetInfo =>
      var info := device.Description();
      response := Info(info);
  }

  /** The body of the loop for one chunk: parse it, and either dispatch the
      command on the locked device or turn the parse error into an Error. */
  method RespondTo<S(!new)>(device: SharedDevice<S>, text: string) returns (response: Response)
    modifies device
    ensures var step := HandleChunk(device.ops, old(device.state), text);
      device.state == step.state && device.calls == old(device.calls) + step.calls && response == step.response
  {
    var parsed := CommandFromStr(text);
    assert HandleChunk(device.ops, device.state, text) == match parsed
      case Success(command) => Dispatch(device.ops, device.state, command)
      case Failure(e) => Step(device.state, [], Error(ErrorToString(e)));
    match parsed
    case Success(command) =>
      response := Apply(device, command);
    case Failure(e) =>
      response := Error(ErrorToString(e));
  }

  /** The loop body's answer to one chunk: respond to it on the device and
      render the response for the wire, as the device's handler says. */
  method AnswerTo<S(!new)>(device: SharedDevice<S>, text: string) returns (reply: string)
    requires device.Linked()
    modifies device
    ensures var a := device.handler(old(device.state), text);
      device.state == a.state && device.calls == old(device.calls) + a.calls && reply == a.reply
  {
    // The step the device's handler takes on this chunk.
    ghost var step := HandleChunk(device.ops, device.state, text);
    assert device.handler(device.state, text) == Answer(step.state, step.calls, ResponseToString(step.response));
    var response := RespondTo(device, text);
    reply := ResponseToString(response);
  }

  /** One pass of the loop of `handle_client`: read; stop on a failed or
      empty read; otherwise respond to the chunk on the device and write the
      response, stopping if the write fails. `done` says whether the loop ends
      here. Measured against the whole connection, this pass followed by
      serving what remains (nothing, once done) is serving the connection
      from here. */
  method ServeNext<S(!new)>(conn: Connection, device: SharedDevice<S>) returns (done: bool)
    requires device.Linked()
    modifies conn, device
    ensures var incoming := old(conn.incoming);
      incoming == [] || incoming[0] == ReadFailed || incoming[0] == Received([]) ==>
        && done
        && conn.incoming == (if incoming == [] then [] else incoming[1..])
        && device.state == old(device.state) && device.calls == old(device.calls)
        && conn.sent == old(conn.sent) && conn.writes == old(conn.writes)
    ensures var incoming := old(conn.incoming);
      !(incoming == [] || incoming[0] == ReadFailed || incoming[0] == Received([])) ==>
        var step := device.handler(old(device.state), incoming[0].text);
        && done == !conn.writeOk(old(conn.writes))
        && conn.incoming == incoming[1..]
        && device.state == step.state && device.calls == old(device.calls) + step.calls
        && conn.writes == old(conn.writes) + 1
        && conn.sent == old(conn.sent) + (if done then [] else [step.reply])
    ensures var whole := Serve(device.handler, old(device.state), old(conn.incoming), conn.writeOk, old(conn.writes));
      var rest := Serve(device.handler, device.state, conn.incoming, conn.writeOk, conn.writes);
      && old(device.calls) + whole.calls == device.calls + (if done then [] else rest.calls)
      && old(conn.sent) + whole.sent == conn.sent + (if done then [] else rest.sent)
      && old(conn.writes) + whole.handled == conn.writes + (if done then 0 else rest.handled)
      && whole.consumed == |old(conn.incoming)| - |conn.incoming| + (if done then 0 else rest.consumed)
      && whole.state == (if done then device.state else rest.state)
  {
    ServePass(device.handler, device.state, conn.incoming, conn.writeOk, conn.writes, device.calls, conn.sent);
    var read := conn.Read();
    if read.ReadFailed? || read.text == [] {
      return true;
    }
    var reply := AnswerTo(device, read.text);
    var ok := conn.Write(reply);
    done := !ok;
  }

  /** `handle_client`: labels the peer, then serves one connection until the
      peer closes, a read fails or a write fails, and always returns Ok. The
      label is the intended one of `PeerLabel`, which never panics. */
  method HandleClient<S(!new)>(conn: Connection, device: SharedDevice<S>) returns (r: Outcome<()>)
    requires device.Linked()
    modifies conn, device
    ensures r == Success(())
    ensures var t := Serve(device.handler, old(device.state), old(conn.incoming), conn.writeOk, old(conn.writes));
      && device.state == t.state
      && device.calls == old(device.calls) + t.calls
      && conn.sent == old(conn.sent) + t.sent
      && conn.writes == old(conn.writes) + t.handled
      && conn.incoming == old(conn.incoming)[t.consumed..]
  {
    // The label appears only in log lines, which are not modelled.
    var peer := PeerLabel(conn.peerAddr);
    ghost var handle := device.handler;
    ghost var total := Serve(handle, device.state, conn.incoming, conn.writeOk, conn.writes);
    ghost var calls0, sent0, writes0 := device.calls, conn.sent, conn.writes;
    ghost var incoming0, used := conn.incoming, 0;
    while true
      invariant var t := Serve(handle, device.state, conn.incoming, conn.writeOk, conn.writes);
        && total.state == t.state
        && calls0 + total.calls == device.calls + t.calls
        && sent0 + total.sent == conn.sent + t.sent
        && writes0 + total.handled == conn.writes + t.handled
        && used + t.consumed == total.consumed
        && used <= |incoming0| && conn.incoming == incoming0[used..]
      decreases |conn.incoming|
    {
      if conn.incoming != [] {
        assert conn.incoming[1..] == incoming0[used + 1..];
        used := used + 1;
      }
      var done := ServeNext(conn, device);
      if done {
        assert used == total.consumed;
        break;
      }
    }
    r := Success(());
  }
}
