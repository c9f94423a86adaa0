/** The smart-socket text protocol: commands sent by the client, responses sent
    back by the server, and the error kinds both sides report. */
module Protocol {
  import opened Wrappers
  import opened Text

  datatype Command = TurnOn | TurnOff | GetStatus | GetInfo

  datatype Response =
    | Ok(message: string)
    | Status(isOn: bool, power: u32)
    | Info(text: string)
    | Error(message: string)

  datatype ProtocolError =
    | InvalidCommand(detail: string)
    | InvalidResponse(detail: string)
    | ConnectionError(detail: string)
    | ParseError(detail: string)

  type Outcome<T> = Result<T, ProtocolError>

  // ---------------------------------------------------------------------------
  // ProtocolError

  /** The label `Display` puts in front of each error kind's detail. */
  function ErrorLabel(e: ProtocolError): (prefix: string)
    ensures |prefix| >= 2 && prefix[|prefix| - 2..] == ": "
  {
    match e
    case InvalidCommand(_) => "Invalid command: "
    case InvalidResponse(_) => "Invalid response: "
    case ConnectionError(_) => "Connection error: "
    case ParseError(_) => "Parse error: "
  }

  /** `Display for ProtocolError`: the kind's label followed by the detail, verbatim. */
  function ErrorToString(e: ProtocolError): (r: string)
    ensures |r| == |ErrorLabel(e)| + |e.detail|
    ensures r[|ErrorLabel(e)|..] == e.detail
    ensures r[..|ErrorLabel(e)|] == ErrorLabel(e)
  {
    ErrorLabel(e) + e.detail
  }

  /** The displayed text determines the error: kind and detail can be read back. */
  lemma ErrorToStringInjective(e1: ProtocolError, e2: ProtocolError)
    requires ErrorToString(e1) == ErrorToString(e2)
    ensures e1 == e2
  {
    var s := ErrorToString(e1);
    var l1, l2 := ErrorLabel(e1), ErrorLabel(e2);
    // The first and ninth characters of the labels tell the four kinds apart.
    assert l1[0] == s[0] == l2[0];
    assert l1[8] == s[8] == l2[8];
    assert e1.InvalidCommand? == e2.InvalidCommand? && e1.InvalidResponse? == e2.InvalidResponse?;
    assert e1.ConnectionError? == e2.ConnectionError?;
    assert l1 == l2;
    assert e1.detail == s[|l1|..] == e2.detail;
  }

  // ---------------------------------------------------------------------------
  // Command

  /** `Display for Command`: the wire word of each command. */
  function CommandToString(c: Command): (r: string)
    ensures Trimmed(r) && r != []
    ensures ':' !in r
  {
    match c
    case TurnOn => "ON"
    case TurnOff => "OFF"
    case GetStatus => "STATUS"
    case GetInfo => "INFO"
  }

  /** `Command::from_str`: trims white space, then accepts exactly (and
      case-sensitively) one of the four wire words; any other text fails with
      InvalidCommand carrying the TRIMMED text. */
  function CommandFromStr(s: string): (r: Outcome<Command>)
    ensures r.Success? <==> Trim(s) in {"ON", "OFF", "STATUS", "INFO"}
    ensures r.Success? ==> CommandToString(r.value) == Trim(s)
    ensures r.Failure? ==> r.error == InvalidCommand(Trim(s))
  {
    match Trim(s)
    case "ON" => Success(TurnOn)
    case "OFF" => Success(TurnOff)
    case "STATUS" => Success(GetStatus)
    case "INFO" => Success(GetInfo)
    case cmd => Failure(InvalidCommand(cmd))
  }

  /** Every command survives rendering and parsing, even with white space around it. */
  lemma {:induction false} CommandRoundTrip(pre: string, c: Command, post: string)
    requires AllWhitespace(pre) && AllWhitespace(post)
    ensures CommandFromStr(pre + CommandToString(c) + post) == Success(c)
  {
    TrimPadded(pre, CommandToString(c), post);
    CommandOfWord(pre + CommandToString(c) + post, c);
  }

  /** Text that trims to a command's word parses as that command. */
  lemma CommandOfWord(s: string, c: Command)
    requires Trim(s) == CommandToString(c)
    ensures CommandFromStr(s) == Success(c)
  {
  }

  // ---------------------------------------------------------------------------
  // Response

  const ResponseTags: set<string> := {"OK", "STATUS", "INFO", "ERROR"}

  function OnOff(isOn: bool): string {
    if isOn then "ON" else "OFF"
  }

  /** `Response::to_string`: the tag, a colon and the payload, where a status
      shows ON or OFF and then the power in canonical decimal. */
  function ResponseToString(r: Response): (s: string)
    ensures ':' in s
    ensures r.Ok? ==> s == "OK:" + r.message
    ensures r.Status? ==> s == "STATUS:" + OnOff(r.isOn) + ":" + NatToDecimal(r.power as nat)
    ensures r.Info? ==> s == "INFO:" + r.text
    ensures r.Error? ==> s == "ERROR:" + r.message
  {
    var (tag, payload) := WireParts(r);
    tag + ":" + payload
  }

  /** The tag and the payload of a response's wire text. */
  function WireParts(r: Response): (parts: (string, string))
    ensures parts.0 in ResponseTags
  {
    match r
    case Ok(msg) => ("OK", msg)
    case Status(isOn, power) => ("STATUS", OnOff(isOn) + ":" + NatToDecimal(power as nat))
    case Info(info) => ("INFO", info)
    case Error(err) => ("ERROR", err)
  }

  /** Every rendered response carries a colon, and the text before the first
      colon is one of the four tags. */
  lemma ResponseTagged(r: Response)
    ensures ':' in ResponseToString(r)
    ensures Field(ResponseToString(r)) in ResponseTags
  {
    var (tag, payload) := WireParts(r);
    FieldOf(tag, payload);
  }

  /** The wire text of an Error response. */
  lemma ErrorWire(m: string)
    ensures ResponseToString(Error(m)) == "ERROR:" + m
  {
    assert "ERROR" + ":" + m == "ERROR:" + m;
  }

  /** `Response::from_str`. Splits once at the first colon and dispatches on
      the tag. The `None` arm (no first piece) can never be taken, because
      `splitn` always yields at least one piece. */
  function ResponseFromStr(s: string): (r: Outcome<Response>)
    ensures r.Success? ==> ':' in s
    ensures r != Failure(ParseError("Empty response"))
    ensures r != Failure(ParseError("Missing status state"))
  {
    var parts := SplitOnce(s, ':');
    match Nth(parts, 0)
    case None => Failure(ParseError("Empty response"))
    case Some(tag) => FromTagged(tag, Nth(parts, 1))
  }

  /** The tag dispatch of `Response::from_str`: `rest` is the text after the first
      colon, None when there was no colon. */
  function FromTagged(tag: string, rest: Option<string>): (r: Outcome<Response>)
    ensures r.Success? ==> rest.Some?
    ensures r != Failure(ParseError("Empty response"))
    ensures r != Failure(ParseError("Missing status state"))
  {
    if tag == "OK" then
      match rest
      case None => Failure(ParseError("Missing OK message"))
      case Some(msg) => Success(Ok(msg))
    else if tag == "STATUS" then
      match rest
      case None => Failure(ParseError("Missing status data"))
      case Some(data) => ParseStatus(data)
    else if tag == "INFO" then
      match rest
      case None => Failure(ParseError("Missing info message"))
      case Some(info) => Success(Info(info))
    else if tag == "ERROR" then
      match rest
      case None => Failure(ParseError("Missing error message"))
      case Some(err) => Success(Error(err))
    else
      Failure(InvalidResponse(tag))
  }

  /** The STATUS arm of `Response::from_str`, on the text after "STATUS:". The
      text is split at every colon; the first piece decides `is_on` (exactly
      "ON" is on, anything else, "on" and "" included, is off), the second is
      the power, and the pieces after it are ignored. As `split` always yields
      a first piece, "Missing status state" is never produced. */
  function ParseStatus(data: string): (r: Outcome<Response>)
    ensures r.Success? ==> r.value.Status?
    ensures r.Failure? ==> r.error == ParseError("Missing power value") || r.error == ParseError("Invalid power value")
  {
    var statusParts := Split(data, ':');
    match Nth(statusParts, 0)
    case None => Failure(ParseError("Missing status state"))
    case Some(state) =>
      var isOn := state == "ON";
      match Nth(statusParts, 1)
      case None => Failure(ParseError("Missing power value"))
      case Some(powerText) =>
        match ParseU32(powerText)
        case None => Failure(ParseError("Invalid power value"))
        case Some(power) => Success(Status(isOn, power))
  }

  /** The STATUS arm seen through fields: the state is the first field, the
      power the second, and a text without a colon has no power. */
  lemma ParseStatusFields(data: string)
    ensures ParseStatus(data).Success? <==> ':' in data && ParseU32(Field(data[|Field(data)| + 1..])).Some?
    ensures ParseStatus(data).Success? ==>
      ParseStatus(data).value == Status(Field(data) == "ON", ParseU32(Field(data[|Field(data)| + 1..])).value)
    ensures ParseStatus(data).Failure? ==>
      ParseStatus(data).error == ParseError(if ':' in data then "Invalid power value" else "Missing power value")
  {
    SplitAtFields(data);
  }

  /** Which tag and which rest give each message response. */
  lemma FromTaggedMessage(tag: string, rest: Option<string>, m: string)
    ensures FromTagged(tag, rest) == Success(Ok(m)) <==> tag == "OK" && rest == Some(m)
    ensures FromTagged(tag, rest) == Success(Info(m)) <==> tag == "INFO" && rest == Some(m)
    ensures FromTagged(tag, rest) == Success(Error(m)) <==> tag == "ERROR" && rest == Some(m)
  {
  }

  /** Which tag and which rest give each missing-message error. */
  lemma FromTaggedMissing(tag: string, rest: Option<string>)
    ensures FromTagged(tag, rest) == Failure(ParseError("Missing OK message")) <==> tag == "OK" && rest == None
    ensures FromTagged(tag, rest) == Failure(ParseError("Missing info message")) <==> tag == "INFO" && rest == None
    ensures FromTagged(tag, rest) == Failure(ParseError("Missing error message")) <==> tag == "ERROR" && rest == None
    ensures FromTagged(tag, rest) == Failure(ParseError("Missing status data")) <==> tag == "STATUS" && rest == None
  {
  }

  /** Only the STATUS arm yields a Status, and only the STATUS arm's own errors
      come from it. */
  lemma FromTaggedStatus(tag: string, rest: Option<string>, r: Outcome<Response>)
    requires (r.Success? && r.value.Status?) || r == Failure(ParseError("Missing power value"))
          || r == Failure(ParseError("Invalid power value"))
    ensures FromTagged(tag, rest) == r <==> tag == "STATUS" && rest.Some? && ParseStatus(rest.value) == r
  {
  }

  /** Only an unknown tag is reported as an invalid response, and it is the tag
      that is reported. */
  lemma FromTaggedInvalid(tag: string, rest: Option<string>, t: string)
    ensures FromTagged(tag, rest) == Failure(InvalidResponse(t)) <==> t == tag && tag !in ResponseTags
  {
    if tag == "STATUS" && rest.Some? {
      ParseStatusFields(rest.value);
    }
  }

  /** `from_str` seen through fields: the tag is the first field and the rest is
      everything after the first colon. */
  lemma ResponseFromStrFields(s: string)
    ensures ResponseFromStr(s) ==
      FromTagged(Field(s), if ':' in s then Some(s[|Field(s)| + 1..]) else None)
  {
    SplitOnceAtField(s);
  }

  /** A tagged text: the tag, a colon, then the payload verbatim. */
  lemma SplitTagged(tag: string, payload: string)
    requires ':' !in tag
    ensures SplitOnce(tag + ":" + payload, ':') == [tag, payload]
  {
    var s := tag + ":" + payload;
    FieldOf(tag, payload);
    SplitOnceAtField(s);
    assert s[|tag| + 1..] == payload;
  }

  /** Having `tag` before the first colon is having the prefix `tag + ":"`. */
  lemma TagPrefix(s: string, tag: string)
    requires ':' !in tag
    ensures (':' in s && Field(s) == tag) <==> (|s| > |tag| && s[..|tag| + 1] == tag + ":")
    ensures (':' in s && Field(s) == tag) ==> s == tag + ":" + s[|tag| + 1..]
  {
    if |s| > |tag| && s[..|tag| + 1] == tag + ":" {
      assert s == tag + ":" + s[|tag| + 1..];
      FieldOf(tag, s[|tag| + 1..]);
      assert s[|tag|] in s;
    }
    if ':' in s && Field(s) == tag {
      assert s[..|tag| + 1] == tag + ":";
      assert s == s[..|tag| + 1] + s[|tag| + 1..];
    }
  }

  /** `from_str` undoes `to_string` for every response: any Ok, Info or Error
      message (colons included) and every u32 power. */
  lemma ResponseRoundTrip(r: Response)
    ensures ResponseFromStr(ResponseToString(r)) == Success(r)
  {
    if r.Status? {
      StatusRoundTrip(r.isOn, r.power);
    } else {
      var (tag, payload) := WireParts(r);
      SplitTagged(tag, payload);
    }
  }

  lemma StatusRoundTrip(isOn: bool, power: u32)
    ensures ResponseFromStr(ResponseToString(Status(isOn, power))) == Success(Status(isOn, power))
  {
    var data := OnOff(isOn) + ":" + NatToDecimal(power as nat);
    assert ResponseToString(Status(isOn, power)) == "STATUS" + ":" + data;
    StatusWire(data);
    StatusDataRoundTrip(isOn, power);
  }

  /** The STATUS arm reads back the state word and the decimal power. */
  lemma StatusDataRoundTrip(isOn: bool, power: u32)
    ensures ParseStatus(OnOff(isOn) + ":" + NatToDecimal(power as nat)) == Success(Status(isOn, power))
  {
    var digits := NatToDecimal(power as nat);
    var data := OnOff(isOn) + ":" + digits;
    assert ':' !in digits;
    assert Join([OnOff(isOn), digits], ':') == data;
    SplitJoin([OnOff(isOn), digits], ':');
    ParseU32Decimal(power);
  }

  lemma TaggedIff(s: string, tag: string, m: string)
    requires ':' !in tag
    ensures (':' in s && Field(s) == tag && s[|tag| + 1..] == m) <==> s == tag + ":" + m
  {
    TagPrefix(s, tag);
    if s == tag + ":" + m {
      assert s[..|tag| + 1] == tag + ":";
      assert s[|tag| + 1..] == m;
    }
  }

  /** An Ok, Info or Error response is parsed from exactly one text: its tag,
      a colon and the message, which may itself contain colons. */
  lemma MessageResponseIff(s: string, m: string)
    ensures ResponseFromStr(s) == Success(Ok(m)) <==> s == "OK:" + m
    ensures ResponseFromStr(s) == Success(Info(m)) <==> s == "INFO:" + m
    ensures ResponseFromStr(s) == Success(Error(m)) <==> s == "ERROR:" + m
  {
    TaggedMessageIff(s, "OK", m, Ok(m));
    assert "OK" + ":" + m == "OK:" + m;
    TaggedMessageIff(s, "INFO", m, Info(m));
    assert "INFO" + ":" + m == "INFO:" + m;
    TaggedMessageIff(s, "ERROR", m, Error(m));
    assert "ERROR" + ":" + m == "ERROR:" + m;
  }

  lemma TaggedMessageIff(s: string, tag: string, m: string, r: Response)
    requires (tag == "OK" && r == Ok(m)) || (tag == "INFO" && r == Info(m)) || (tag == "ERROR" && r == Error(m))
    ensures ResponseFromStr(s) == Success(r) <==> s == tag + ":" + m
  {
    ResponseFromStrFields(s);
    FromTaggedMessage(Field(s), if ':' in s then Some(s[|Field(s)| + 1..]) else None, m);
    TaggedIff(s, tag, m);
  }

  /** A bare tag without a colon is reported as a missing message. */
  lemma MissingMessageIff(s: string)
    ensures ResponseFromStr(s) == Failure(ParseError("Missing OK message")) <==> s == "OK"
    ensures ResponseFromStr(s) == Failure(ParseError("Missing info message")) <==> s == "INFO"
    ensures ResponseFromStr(s) == Failure(ParseError("Missing error message")) <==> s == "ERROR"
    ensures ResponseFromStr(s) == Failure(ParseError("Missing status data")) <==> s == "STATUS"
  {
    ResponseFromStrFields(s);
    FromTaggedMissing(Field(s), if ':' in s then Some(s[|Field(s)| + 1..]) else None);
    if ':' !in s {
      FieldOf(s, "");
    }
  }

  /** The tag is the text before the first colon, or the whole text when there is
      none; any tag other than the four, the empty one included (so the empty
      input), is an InvalidResponse carrying that tag. */
  lemma InvalidResponseIff(s: string, t: string)
    ensures ResponseFromStr(s) == Failure(InvalidResponse(t)) <==> t == Field(s) && t !in ResponseTags
  {
    var rest := if ':' in s then Some(s[|Field(s)| + 1..]) else None;
    ResponseFromStrFields(s);
    FromTaggedInvalid(Field(s), rest, t);
  }

  /** What a STATUS reply is accepted as: the text after "STATUS:" must hold a
      colon, `is_on` holds exactly when the piece before that colon is "ON" (so
      "on", "" and anything else mean off), and the power is the piece after
      it, up to the next colon if there is one, read as a u32. */
  lemma StatusResponseIff(s: string, isOn: bool, power: u32)
    ensures ResponseFromStr(s) == Success(Status(isOn, power)) <==>
      && |s| >= 7 && s[..7] == "STATUS:"
      && ':' in s[7..]
      && (isOn <==> Field(s[7..]) == "ON")
      && ParseU32(Field(s[7..][|Field(s[7..])| + 1..])) == Some(power)
  {
    var rest := if ':' in s then Some(s[|Field(s)| + 1..]) else None;
    ResponseFromStrFields(s);
    FromTaggedStatus(Field(s), rest, Success(Status(isOn, power)));
    StatusTag(s);
    if |s| >= 7 && s[..7] == "STATUS:" {
      StatusDataIff(s[7..], isOn, power);
    }
  }

  /** "STATUS" is the tag exactly when the text starts with "STATUS:", and the
      rest is then what follows that prefix. */
  lemma StatusTag(s: string)
    ensures (':' in s && Field(s) == "STATUS") <==> |s| >= 7 && s[..7] == "STATUS:"
    ensures ':' in s && Field(s) == "STATUS" ==> s[|Field(s)| + 1..] == s[7..]
  {
    TagPrefix(s, "STATUS");
    assert |"STATUS"| + 1 == 7;
  }

  /** The STATUS data that parse to a given status. */
  lemma StatusDataIff(data: string, isOn: bool, power: u32)
    ensures ParseStatus(data) == Success(Status(isOn, power)) <==>
      && ':' in data
      && (isOn <==> Field(data) == "ON")
      && ParseU32(Field(data[|Field(data)| + 1..])) == Some(power)
  {
    ParseStatusFields(data);
  }

  /** The STATUS errors: no colon after the state gives "Missing power value",
      and a power piece that is not a u32 (not a number, signed, or too large)
      gives "Invalid power value". */
  lemma StatusErrorsIff(s: string)
    ensures ResponseFromStr(s) == Failure(ParseError("Missing power value")) <==>
      |s| >= 7 && s[..7] == "STATUS:" && ':' !in s[7..]
    ensures ResponseFromStr(s) == Failure(ParseError("Invalid power value")) <==>
      && |s| >= 7 && s[..7] == "STATUS:"
      && ':' in s[7..]
      && ParseU32(Field(s[7..][|Field(s[7..])| + 1..])) == None
  {
    var rest := if ':' in s then Some(s[|Field(s)| + 1..]) else None;
    ResponseFromStrFields(s);
    FromTaggedStatus(Field(s), rest, Failure(ParseError("Missing power value")));
    FromTaggedStatus(Field(s), rest, Failure(ParseError("Invalid power value")));
    StatusTag(s);
    if |s| >= 7 && s[..7] == "STATUS:" {
      ParseStatusFields(s[7..]);
    }
  }

  /** A STATUS reply is parsed by the STATUS arm on the text after "STATUS:". */
  lemma StatusWire(data: string)
    ensures ResponseFromStr("STATUS:" + data) == ParseStatus(data)
    ensures ResponseFromStr("STATUS" + ":" + data) == ParseStatus(data)
  {
    assert "STATUS:" + data == "STATUS" + ":" + data;
    SplitTagged("STATUS", data);
  }

  /** Whatever follows the power piece is ignored. */
  lemma StatusIgnoresTrailingFields(state: string, power: string, tail: string)
    requires ':' !in state && ':' !in power
    ensures ResponseFromStr("STATUS:" + state + ":" + power + ":" + tail)
         == ResponseFromStr("STATUS:" + state + ":" + power)
  {
    var long := state + ":" + (power + ":" + tail);
    var short := state + ":" + power;
    assert "STATUS:" + state + ":" + power + ":" + tail == "STATUS:" + long;
    assert "STATUS:" + state + ":" + power == "STATUS:" + short;
    StatusWire(long);
    StatusWire(short);
    ParseStatusFields(long);
    ParseStatusFields(short);
    FieldOf(state, power + ":" + tail);
    FieldOf(state, power);
    FieldOf(power, tail);
    assert long[|state| + 1..] == power + ":" + tail;
    assert short[|state| + 1..] == power;
    assert long[|state|] == ':' && short[|state|] == ':';
  }
}
