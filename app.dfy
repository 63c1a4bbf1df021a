/**
 * The web application's own logic: the JSON provider's fallback for values
 * the standard encoder cannot handle, and the three API routes, which trim
 * and check their fields before calling the loader, the introspector or the
 * executor. Flask itself (routing, request parsing, `jsonify`) is not
 * modelled: a route receives the request body's fields and returns a
 * status with the body it would send.
 */
module App {

  import opened Wrappers
  import opened Text
  import opened PyValues
  import opened Wsdl
  import opened Serializer
  import opened Catalog
  import opened Introspector
  import opened Executor

  // ---- durations ----------------------------------------------------------

  /** `int(td.total_seconds())`: the duration's seconds, truncated toward zero. */
  function WholeSeconds(d: Duration): (total: int)
    ensures var micros := (d.days * 86400 + d.seconds) * 1000000 + d.microseconds;
      && (micros >= 0 ==> 0 <= total * 1000000 <= micros < (total + 1) * 1000000)
      && (micros < 0 ==> (total - 1) * 1000000 < micros <= total * 1000000 <= 0)
  {
    var micros := (d.days * 86400 + d.seconds) * 1000000 + d.microseconds;
    if micros >= 0 then micros / 1000000 else -((-micros) / 1000000)
  }

  /** `divmod(total, 3600)` and then `divmod(rem, 60)`: hours, minutes, seconds, with Python's flooring. */
  function DurationParts(total: int): (hms: (int, int, int))
    ensures hms.0 * 3600 + hms.1 * 60 + hms.2 == total
    ensures 0 <= hms.1 < 60 && 0 <= hms.2 < 60
  {
    var h := total / 3600;
    var rem := total % 3600;
    (h, rem / 60, rem % 60)
  }

  /** The text between `PT` and `S`: `{h}H{m}M{s}`, leaving out the hours when zero, and the minutes too when both are zero. */
  function DurationBody(h: int, m: int, s: int): string {
    if h != 0 then IntText(h) + "H" + IntText(m) + "M" + IntText(s)
    else if m != 0 then IntText(m) + "M" + IntText(s)
    else IntText(s)
  }

  /** `PT{body}S`. */
  function Frame(body: string): (r: string)
    ensures |r| == |body| + 3 && r[..2] == "PT" && r[|r| - 1] == 'S' && r[2..|r| - 1] == body
  {
    "PT" + body + "S"
  }

  /** The provider's duration text: `PT{h}H{m}M{s}S` with the hours and minutes written only when needed. */
  function DurationText(total: int): (r: string)
    ensures |r| >= 3 && r[..2] == "PT" && r[|r| - 1] == 'S'
  {
    var (h, m, s) := DurationParts(total);
    Frame(DurationBody(h, m, s))
  }

  /** Reads a duration text of that form back as seconds. */
  function ReadDuration(x: string): Option<int> {
    if |x| < 3 || x[..2] != "PT" || x[|x| - 1] != 'S' then None
    else ReadHours(x[2..|x| - 1])
  }

  /** The part between `PT` and `S`: optional hours before an `H`, then the minutes and seconds. */
  function ReadHours(body: string): Option<int> {
    var hs := Split(body, 'H');
    if |hs| > 2 then None
    else Combine(if |hs| == 2 then ReadIntText(hs[0]) else Some(0), 3600, ReadMinutes(hs[|hs| - 1]))
  }

  /** Optional minutes before an `M`, then the seconds. */
  function ReadMinutes(rest: string): Option<int> {
    var ms := Split(rest, 'M');
    if |ms| > 2 then None
    else Combine(if |ms| == 2 then ReadIntText(ms[0]) else Some(0), 60, ReadIntText(ms[|ms| - 1]))
  }

  function Combine(high: Option<int>, unit: int, low: Option<int>): Option<int> {
    if high.Some? && low.Some? then Some(high.value * unit + low.value) else None
  }

  /** Number texts hold no unit letter. */
  lemma IntTextLetters(i: int)
    ensures 'H' !in IntText(i) && 'M' !in IntText(i) && 'S' !in IntText(i)
  {
    var n: nat := if i < 0 then -i else i;
    var d := NatText(n);
    assert forall k :: 0 <= k < |d| ==> IsDigit(d[k]);
    if i < 0 {
      assert IntText(i) == "-" + d;
      assert forall k :: 0 < k < |IntText(i)| ==> IntText(i)[k] == d[k - 1];
    }
  }

  /** `a + [sep] + b` splits into `[a, b]` when neither side holds the separator. */
  lemma SplitTwo(a: string, b: string, sep: char)
    requires sep !in a && sep !in b
    ensures Split(a + [sep] + b, sep) == [a, b]
  {
    SplitAppend(a, b, sep);
    SplitNoSep(a, sep);
    SplitNoSep(b, sep);
  }

  /** Seconds alone: no `H`, no `M`. */
  lemma ReadSecondsBody(c: string, s: int)
    requires 'H' !in c && 'M' !in c && ReadIntText(c) == Some(s)
    ensures ReadHours(c) == Some(s)
  {
    SplitNoSep(c, 'H');
    SplitNoSep(c, 'M');
  }

  /** Minutes and seconds: one `M` between them, no `H`. */
  lemma ReadMinutesBody(b: string, c: string, m: int, s: int)
    requires 'H' !in b && 'M' !in b && 'H' !in c && 'M' !in c
    requires ReadIntText(b) == Some(m) && ReadIntText(c) == Some(s)
    ensures ReadHours(b + "M" + c) == Some(m * 60 + s)
  {
    var rest := b + "M" + c;
    SplitTwo(b, c, 'M');
    assert ReadMinutes(rest) == Some(m * 60 + s);
    assert 'H' !in rest;
    SplitNoSep(rest, 'H');
  }

  /** Hours, minutes and seconds: one `H`, then one `M`. */
  lemma ReadHoursBody(a: string, b: string, c: string, h: int, m: int, s: int)
    requires 'H' !in a && 'H' !in b && 'M' !in b && 'H' !in c && 'M' !in c
    requires ReadIntText(a) == Some(h) && ReadIntText(b) == Some(m) && ReadIntText(c) == Some(s)
    ensures ReadHours(a + "H" + b + "M" + c) == Some(h * 3600 + m * 60 + s)
  {
    var rest := b + "M" + c;
    SplitTwo(b, c, 'M');
    assert ReadMinutes(rest) == Some(m * 60 + s);
    assert 'H' !in rest;
    SplitTwo(a, rest, 'H');
    assert a + "H" + b + "M" + c == a + ['H'] + rest;
  }

  /** The body of the text reads back as the seconds it stands for. */
  lemma ReadBody(h: int, m: int, s: int)
    ensures ReadHours(DurationBody(h, m, s)) == Some(h * 3600 + m * 60 + s)
  {
    IntTextLetters(h);
    IntTextLetters(m);
    IntTextLetters(s);
    IntTextReads(h);
    IntTextReads(m);
    IntTextReads(s);
    if h != 0 {
      ReadHoursBody(IntText(h), IntText(m), IntText(s), h, m, s);
    } else if m != 0 {
      ReadMinutesBody(IntText(m), IntText(s), m, s);
    } else {
      ReadSecondsBody(IntText(s), s);
    }
  }

  /** The duration text names the duration: reading it back gives the same whole seconds. */
  lemma DurationTextRoundTrip(total: int)
    ensures ReadDuration(DurationText(total)) == Some(total)
  {
    var (h, m, s) := DurationParts(total);
    ReadBody(h, m, s);
    ReadFrame(DurationBody(h, m, s));
  }

  /** Reading a framed text reads its body. */
  lemma ReadFrame(body: string)
    ensures ReadDuration(Frame(body)) == ReadHours(body)
  {
  }

  /** Outside the body, the text holds only `P`, `T` and `S`. */
  lemma FrameLetter(body: string, c: char)
    requires c != 'P' && c != 'T' && c != 'S'
    ensures c in Frame(body) <==> c in body
  {
    var r := Frame(body);
    if c in r {
      var k :| 0 <= k < |r| && r[k] == c;
      assert 2 <= k < |r| - 1;
      assert body[k - 2] == r[k];
    }
    if c in body {
      var k :| 0 <= k < |body| && body[k] == c;
      assert r[k + 2] == c;
    }
  }

  /** The hours are written exactly when there are some, and the minutes exactly when there are hours or minutes. */
  lemma DurationTextFields(total: int)
    ensures 'H' in DurationText(total) <==> DurationParts(total).0 != 0
    ensures 'M' in DurationText(total) <==> DurationParts(total).0 != 0 || DurationParts(total).1 != 0
  {
    var (h, m, s) := DurationParts(total);
    FramedFields(h, m, s);
  }

  lemma FramedFields(h: int, m: int, s: int)
    ensures 'H' in Frame(DurationBody(h, m, s)) <==> h != 0
    ensures 'M' in Frame(DurationBody(h, m, s)) <==> h != 0 || m != 0
  {
    var body := DurationBody(h, m, s);
    FrameLetter(body, 'H');
    FrameLetter(body, 'M');
    IntTextLetters(h);
    IntTextLetters(m);
    IntTextLetters(s);
    BodyLetters(IntText(h), IntText(m), IntText(s), h, m);
  }

  lemma BodyLetters(a: string, b: string, c: string, h: int, m: int)
    requires a == IntText(h) && b == IntText(m)
    requires 'H' !in a && 'M' !in a && 'H' !in b && 'M' !in b && 'H' !in c && 'M' !in c
    ensures var body := if h != 0 then a + "H" + b + "M" + c else if m != 0 then b + "M" + c else c;
      && ('H' in body <==> h != 0)
      && ('M' in body <==> h != 0 || m != 0)
  {
    if h != 0 {
      assert (a + "H" + b + "M" + c)[|a|] == 'H';
      assert (a + "H" + b + "M" + c)[|a| + 1 + |b|] == 'M';
    } else if m != 0 {
      assert (b + "M" + c)[|b|] == 'M';
    }
  }

  /** The decimal text of a single digit. */
  lemma DigitText(d: int)
    requires 0 <= d < 10
    ensures IntText(d) == [DigitChar(d)]
  {
  }

  /** The text of a duration whose hours, minutes and seconds are single digits, the hours not zero. */
  lemma HoursText(total: int, h: int, m: int, s: int)
    requires DurationParts(total) == (h, m, s) && 0 < h < 10 && 0 <= m < 10 && 0 <= s < 10
    ensures DurationText(total) == ['P', 'T', DigitChar(h), 'H', DigitChar(m), 'M', DigitChar(s), 'S']
  {
    DigitText(h);
    DigitText(m);
    DigitText(s);
    assert DurationBody(h, m, s) == [DigitChar(h)] + "H" + [DigitChar(m)] + "M" + [DigitChar(s)];
  }

  /** The text of a duration of fewer than ten seconds. */
  lemma SecondsText(total: int, s: int)
    requires DurationParts(total) == (0, 0, s) && 0 <= s < 10
    ensures DurationText(total) == ['P', 'T', DigitChar(s), 'S']
  {
    DigitText(s);
    assert DurationBody(0, 0, s) == [DigitChar(s)];
  }

  /** 45 seconds are written `PT45S`. */
  lemma SecondsExample()
    ensures DurationText(45) == "PT45S"
  {
    var (h, m, s) := DurationParts(45);
    assert h == 0 && m == 0 && s == 45;
    assert IntText(45) == "45";
  }

  /** 90 seconds are written `PT1M30S`. */
  lemma MinutesExample()
    ensures DurationText(90) == "PT1M30S"
  {
    var (h, m, s) := DurationParts(90);
    assert h == 0 && m == 1 && s == 30;
    DigitText(1);
    assert IntText(30) == "30";
  }

  /** 3725 seconds are written `PT1H2M5S`. */
  lemma HoursExample()
    ensures DurationText(3725) == "PT1H2M5S"
  {
    var (h, m, s) := DurationParts(3725);
    assert h == 1 && m == 2 && s == 5;
    HoursText(3725, 1, 2, 5);
    assert DigitChar(1) == '1' && DigitChar(2) == '2' && DigitChar(5) == '5';
  }

  /** A whole hour keeps its zero minutes and seconds: `PT1H0M0S`. */
  lemma WholeHourExample()
    ensures DurationText(3600) == "PT1H0M0S"
  {
    var (h, m, s) := DurationParts(3600);
    assert h == 1 && m == 0 && s == 0;
    HoursText(3600, 1, 0, 0);
    assert DigitChar(1) == '1' && DigitChar(0) == '0';
  }

  /** A zero duration is written `PT0S`. */
  lemma ZeroExample()
    ensures DurationText(0) == "PT0S"
  {
    var (h, m, s) := DurationParts(0);
    assert h == 0 && m == 0 && s == 0;
    SecondsText(0, 0);
    assert DigitChar(0) == '0';
  }

  /** The texts the provider gives for 45, 90, 3725, 3600 and 0 seconds. */
  lemma DurationTextExamples()
    ensures DurationText(45) == "PT45S"
    ensures DurationText(90) == "PT1M30S"
    ensures DurationText(3725) == "PT1H2M5S"
    ensures DurationText(3600) == "PT1H0M0S"
    ensures DurationText(0) == "PT0S"
  {
    SecondsExample();
    MinutesExample();
    HoursExample();
    WholeHourExample();
    ZeroExample();
  }

  // ---- the JSON provider's fallback -----------------------------------------

  /**
   * `ONVIFJSONProvider.default`: elements by the element rule, dates and
   * times by `isoformat()`, durations as `PT…S` text, decimals as floats,
   * bytes decoded, sets as lists, and anything else as its `str()` text.
   */
  function ProviderDefault(lib: PyLib, o: PyValue): (r: PyValue)
    ensures o.PSet? ==> r == PList(o.members)
    ensures o.PElement? ==> r == ElementDict(o.e)
    ensures o.PTemporal? ==> r == PStr(lib.isoformat(o.t))
    ensures o.PDuration? ==> r.PStr? && ReadDuration(r.s) == Some(WholeSeconds(o.dur))
    ensures o.PDuration? ==> r == PStr(DurationText(WholeSeconds(o.dur)))
    ensures o.PDecimal? ==> r == PFloat(lib.decimalToFloat(o.d))
    ensures o.PBytes? ==> r == PStr(lib.decodeUtf8(o.bytes))
    ensures !(o.PElement? || o.PTemporal? || o.PDuration? || o.PDecimal? || o.PBytes? || o.PSet?) ==> r == PStr(lib.str(o))
  {
    match o
    case PElement(e) => ElementDict(e)
    case PTemporal(t) => PStr(lib.isoformat(t))
    case PDuration(d) =>
      DurationTextRoundTrip(WholeSeconds(d));
      PStr(DurationText(WholeSeconds(d)))
    case PDecimal(x) => PFloat(lib.decimalToFloat(x))
    case PBytes(b) => PStr(lib.decodeUtf8(b))
    case PSet(members) => PList(members)
    case _ => PStr(lib.str(o))
  }

  // ---- routes -------------------------------------------------------------

  /** A request field: `data.get(key, "").strip()`. */
  function Field(data: map<string, string>, key: string): string {
    PyStrip(if key in data then data[key] else "")
  }

  /** A field counts as given when something other than whitespace is left after trimming. */
  lemma FieldGiven(data: map<string, string>, key: string)
    ensures Field(data, key) != "" <==> key in data && !AllSpace(Python, data[key])
  {
    if key !in data {
      assert AllSpace(Python, "");
    }
  }

  /** A reply: its HTTP status and body. */
  datatype Reply<T> = Reply(status: nat, body: T)

  /** `/api/load-wsdl`: the bindings listing, or the error text. */
  method ApiLoadWsdl(loader: WsdlLoader, data: map<string, string>, parse: string -> Result<ParsedWsdl, string>)
    returns (reply: Reply<Result<map<string, BindingEntry>, string>>)
    requires loader.Valid()
    requires forall u :: parse(u).Ok? ==> WellFormed(parse(u).value)
    modifies loader
    ensures loader.Valid()
    ensures Field(data, "wsdl_url") == "" ==> reply == Reply(400, Err("WSDL URL is required")) && loader.clients == old(loader.clients)
    ensures Field(data, "wsdl_url") != "" ==>
      var url := Field(data, "wsdl_url");
      && (parse(url).Err? ==> reply == Reply(500, Err(parse(url).error)) && loader.clients == old(loader.clients))
      && (parse(url).Ok? ==> reply.status == 200 && reply.body.Ok? && Lists(reply.body.value, parse(url).value)
                               && loader.clients == old(loader.clients)[url := parse(url).value])
  {
    var wsdlUrl := Field(data, "wsdl_url");
    if wsdlUrl == "" {
      return Reply(400, Err("WSDL URL is required"));
    }
    var result := loader.LoadWsdl(wsdlUrl, parse(wsdlUrl));
    match result {
      case Ok(bindings) => reply := Reply(200, Ok(bindings));
      case Err(e) => reply := Reply(500, Err(e));
    }
  }

  /** `/api/operation-params`: the operation's parameter descriptors, or the error text. */
  method ApiOperationParams(loader: WsdlLoader, data: map<string, string>, parse: string -> Result<ParsedWsdl, string>)
    returns (reply: Reply<Result<seq<Param>, string>>)
    requires loader.Valid()
    requires forall u :: parse(u).Ok? ==> WellFormed(parse(u).value)
    modifies loader
    ensures loader.Valid()
    ensures var url, b, o := Field(data, "wsdl_url"), Field(data, "binding_name"), Field(data, "operation_name");
      && (url == "" || b == "" || o == "" ==> reply == Reply(400, Err("Missing required fields")) && loader.clients == old(loader.clients))
      && (url != "" && b != "" && o != "" ==>
            && (url in old(loader.clients) ==>
                  reply == Reply(200, Ok(Introspect(old(loader.clients)[url], b, o))) && loader.clients == old(loader.clients))
            && (url !in old(loader.clients) && parse(url).Err? ==>
                  reply == Reply(500, Err(parse(url).error)) && loader.clients == old(loader.clients))
            && (url !in old(loader.clients) && parse(url).Ok? ==>
                  reply == Reply(200, Ok(Introspect(parse(url).value, b, o))) && loader.clients == old(loader.clients)[url := parse(url).value]))
  {
    var wsdlUrl := Field(data, "wsdl_url");
    var bindingName := Field(data, "binding_name");
    var operationName := Field(data, "operation_name");
    if wsdlUrl == "" || bindingName == "" || operationName == "" {
      return Reply(400, Err("Missing required fields"));
    }
    var client := loader.GetClient(wsdlUrl, parse(wsdlUrl));
    if client.Err? {
      return Reply(500, Err(client.error));
    }
    var params := IntrospectOperation(client.value, bindingName, operationName);
    reply := Reply(200, Ok(params));
  }

  /** The `camera_port` field: absent (80 is used), JSON `null`, a JSON boolean, an integer, or text for `int()` to read. */
  datatype PortField = PortAbsent | PortNull | PortBool(b: bool) | PortNumber(n: int) | PortText(text: string)

  /**
   * `int(data.get("camera_port", 80))`. `None` is what `int()` raises: the
   * TypeError of `int(None)` for an explicit `null`, the ValueError of
   * unreadable text. A boolean is an integer to Python: `true` reads as 1.
   */
  function CameraPort(p: PortField): (r: Option<int>)
    ensures p.PortAbsent? ==> r == Some(80)
    ensures p.PortNull? ==> r.None?
    ensures p.PortBool? ==> r == Some(if p.b then 1 else 0)
    ensures p.PortText? && AllSpace(Python, p.text) ==> r.None?
  {
    match p
    case PortAbsent => Some(80)
    case PortNull => None
    case PortBool(b) => Some(if b then 1 else 0)
    case PortNumber(n) => Some(n)
    case PortText(t) => ParseInt(t)
  }

  /** A port sent as the text Python writes for a number reads back as that number. */
  lemma PortTextReads(n: int)
    ensures CameraPort(PortText(IntText(n))) == Some(n)
  {
    IntTextRoundTrip(n);
  }

  /** The body of an `/api/execute` request. */
  datatype ExecuteRequest = ExecuteRequest(
    fields: map<string, string>, port: PortField, params: Option<map<string, PyValue>>, useHttps: bool)

  /** What `/api/execute` answers: the missing-fields rejection, an execution envelope, or an exception Flask turns into its own error page. */
  datatype ExecuteBody = MissingFields | Envelope(result: ExecutionResult) | Unhandled

  /** The five fields `/api/execute` requires; the password may be empty and is not trimmed. */
  predicate ExecuteFieldsGiven(fields: map<string, string>) {
    && Field(fields, "wsdl_url") != "" && Field(fields, "binding_name") != "" && Field(fields, "operation_name") != ""
    && Field(fields, "camera_ip") != "" && Field(fields, "username") != ""
  }

  function Password(fields: map<string, string>): string {
    if "password" in fields then fields["password"] else ""
  }

  /** The text of the TypeError raised by passing `use_https` to `execute`, which has no such parameter. */
  const UseHttpsError := "Server error: TypeError: CommandExecutor.execute() got an unexpected keyword argument 'use_https'"

  /**
   * `/api/execute` as written: the port is read before the fields are
   * checked, and the call to `execute` passes `use_https`, which `execute`
   * does not accept, so the call raises before `execute` runs and the
   * route's handler reports a server error.
   */
  function ApiExecuteAsWritten(req: ExecuteRequest): (reply: Reply<ExecuteBody>)
    ensures CameraPort(req.port).None? ==> reply == Reply(500, Unhandled)
    ensures CameraPort(req.port).Some? && !ExecuteFieldsGiven(req.fields) ==> reply == Reply(400, MissingFields)
  {
    var port := CameraPort(req.port);
    if port.None? then Reply(500, Unhandled)
    else if !ExecuteFieldsGiven(req.fields) then Reply(400, MissingFields)
    else Reply(500, Envelope(ExecutionResult(false, None, "", "", Some(UseHttpsError), 0.0)))
  }

  /** As written, no request ever gets an operation executed: every well-formed request ends in the TypeError envelope. */
  lemma AsWrittenNeverExecutes(req: ExecuteRequest)
    ensures var reply := ApiExecuteAsWritten(req);
      !(reply.body.Envelope? && reply.body.result.success)
    ensures CameraPort(req.port).Some? && ExecuteFieldsGiven(req.fields) ==>
      ApiExecuteAsWritten(req) == Reply(500, Envelope(ExecutionResult(false, None, "", "", Some(UseHttpsError), 0.0)))
  {
  }

  /** `/api/execute` with the call made as `execute` declares it (without `use_https`): the executor's envelope, with status 200. */
  method ApiExecute(env: Environment, req: ExecuteRequest) returns (reply: Reply<ExecuteBody>)
    ensures CameraPort(req.port).None? ==> reply == Reply(500, Unhandled)
    ensures CameraPort(req.port).Some? && !ExecuteFieldsGiven(req.fields) ==> reply == Reply(400, MissingFields)
    ensures CameraPort(req.port).Some? && ExecuteFieldsGiven(req.fields) ==>
      && reply.status == 200 && reply.body.Envelope?
      && Executed(env, Field(req.fields, "wsdl_url"), Field(req.fields, "binding_name"), Field(req.fields, "operation_name"),
                  Field(req.fields, "camera_ip"), CameraPort(req.port).value, Field(req.fields, "username"),
                  Password(req.fields), req.params, reply.body.result)
      && (reply.body.result.success <==>
            Succeeds(env, Field(req.fields, "wsdl_url"), Field(req.fields, "binding_name"), Field(req.fields, "operation_name"),
                     Field(req.fields, "camera_ip"), CameraPort(req.port).value, Field(req.fields, "username"),
                     Password(req.fields), req.params))
      && (reply.body.result.success <==> reply.body.result.error.None?)
      && (reply.body.result.success ==> reply.body.result.resultJson.Some? && Normal(reply.body.result.resultJson.value))
      && (!reply.body.result.success ==> reply.body.result.resultJson.None? && reply.body.result.elapsedMs == 0.0)
  {
    // `camera_port` is read first, outside the route's exception handler.
    var cameraPort := CameraPort(req.port);
    if cameraPort.None? {
      return Reply(500, Unhandled);
    }
    if !ExecuteFieldsGiven(req.fields) {
      return Reply(400, MissingFields);
    }
    reply := Dispatch(env, Field(req.fields, "wsdl_url"), Field(req.fields, "binding_name"), Field(req.fields, "operation_name"),
                      Field(req.fields, "camera_ip"), cameraPort.value, Field(req.fields, "username"), Password(req.fields), req.params);
  }

  /** The call to the executor and the status-200 reply around its envelope. */
  method Dispatch(env: Environment, wsdlUrl: string, bindingName: string, operationName: string, ip: string, port: int,
                  username: string, password: string, params: Option<map<string, PyValue>>) returns (reply: Reply<ExecuteBody>)
    ensures reply.status == 200 && reply.body.Envelope?
    ensures Executed(env, wsdlUrl, bindingName, operationName, ip, port, username, password, params, reply.body.result)
    ensures reply.body.result.success <==> Succeeds(env, wsdlUrl, bindingName, operationName, ip, port, username, password, params)
    ensures reply.body.result.success <==> reply.body.result.error.None?
    ensures reply.body.result.success ==> reply.body.result.resultJson.Some? && Normal(reply.body.result.resultJson.value)
    ensures !reply.body.result.success ==> reply.body.result.resultJson.None? && reply.body.result.elapsedMs == 0.0
  {
    var result := Execute(env, wsdlUrl, bindingName, operationName, ip, port, username, password, params);
    reply := Reply(200, Envelope(result));
  }
}
