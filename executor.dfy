/**
 * The command executor: it resolves a binding's endpoint on the camera,
 * invokes one operation through a freshly built client, and reports the
 * outcome together with the SOAP request and response it captured. Client
 * construction, the SOAP exchange, `serialize_object` and XML rendering
 * belong to zeep and lxml; here they are the fields of an Environment.
 */
module Executor {

  import opened Wrappers
  import opened Text
  import opened PyValues
  import opened Wsdl
  import opened Serializer
  import opened Config
  import opened Catalog

  /** The path used for a binding the endpoint table does not list. */
  const DefaultPath := "/onvif/device_service"

  /** The endpoint path of a binding given by qualified or local name. */
  function EndpointPath(bindingName: string): (path: string)
    ensures LocalName(bindingName) in EndpointMap ==> path == EndpointMap[LocalName(bindingName)]
    ensures LocalName(bindingName) !in EndpointMap ==> path == DefaultPath
  {
    var localName := LocalPart(bindingName);
    LocalPartIsLocalName(bindingName);
    if localName in EndpointMap then EndpointMap[localName] else DefaultPath
  }

  /** `_resolve_xaddr`: `http://<ip>:<port><path>`. */
  function ResolveXaddr(bindingName: string, ip: string, port: int): (r: string)
    ensures |r| > 7 && r[..7] == "http://"
  {
    var path := EndpointPath(bindingName);
    AddressParts(ip, IntText(port), path);
    "http://" + ip + ":" + IntText(port) + path
  }

  /**
   * The address always uses plain http, and reads back as the camera's ip,
   * its port (as decimal text) and the binding's path.
   */
  lemma XaddrParts(bindingName: string, ip: string, port: int)
    ensures var x := ResolveXaddr(bindingName, ip, port);
      var portText := IntText(port);
      var path := EndpointPath(bindingName);
      && x[..7] == "http://"
      && x[7..7 + |ip|] == ip
      && x[7 + |ip|] == ':'
      && x[8 + |ip|..8 + |ip| + |portText|] == portText && ParseInt(portText) == Some(port)
      && x[8 + |ip| + |portText|..] == path
  {
    IntTextRoundTrip(port);
    AddressParts(ip, IntText(port), EndpointPath(bindingName));
  }

  lemma AddressParts(ip: string, portText: string, path: string)
    ensures var x := "http://" + ip + ":" + portText + path;
      && x[..7] == "http://"
      && x[7..7 + |ip|] == ip
      && x[7 + |ip|] == ':'
      && x[8 + |ip|..8 + |ip| + |portText|] == portText
      && x[8 + |ip| + |portText|..] == path
  {
    ConcatParts("http://" + ip + ":", portText, path);
    ConcatParts("http://", ip, ":");
  }

  /** The three parts of `a + b + c` are where they were put. */
  lemma ConcatParts(a: string, b: string, c: string)
    ensures (a + b + c)[..|a|] == a
    ensures (a + b + c)[|a|..|a| + |b|] == b
    ensures (a + b + c)[|a| + |b|..] == c
  {
  }

  /** DeviceBinding resolves to the default path, the one any binding missing from the table gets. */
  lemma DeviceIsDefault()
    ensures EndpointPath("DeviceBinding") == DefaultPath
  {
    var name := "DeviceBinding";
    assert '}' !in name;
    DeviceEntry();
  }

  /** A qualified name `{namespace}Local` resolves like its local name. */
  lemma QualifiedLikeLocal(bindingName: string)
    ensures EndpointPath(bindingName) == EndpointPath(LocalName(bindingName))
  {
    LocalNameUnique(LocalName(bindingName), 0);
  }

  // ---- capture -------------------------------------------------------------

  /** One SOAP exchange as the history plugin holds it: the envelope sent and, once it arrives, the one received. */
  datatype Exchange = Exchange(sent: Element, received: Option<Element>)

  /** The history plugin with `maxlen=1`: at most the latest exchange. */
  datatype Capture = Capture(last: Option<Exchange>)

  const NoCapture := Capture(None)

  /** A request going out starts a new exchange and drops any earlier one. */
  function Egress(c: Capture, envelope: Element): (r: Capture)
    ensures r.last.Some? && r.last.value.sent == envelope && r.last.value.received.None?
  {
    Capture(Some(Exchange(envelope, None)))
  }

  /** A response coming in completes the latest exchange. */
  function Ingress(c: Capture, envelope: Element): (r: Capture)
    ensures c.last.Some? ==> r.last.Some? && r.last.value.sent == c.last.value.sent && r.last.value.received == Some(envelope)
    ensures c.last.None? ==> r == c
  {
    if c.last.None? then c else Capture(Some(c.last.value.(received := Some(envelope))))
  }

  /** Only the most recent exchange is kept: what came before a request is forgotten. */
  lemma CaptureKeepsLatest(c1: Capture, c2: Capture, request: Element, response: Element)
    ensures Ingress(Egress(c1, request), response) == Ingress(Egress(c2, request), response)
    ensures Ingress(Egress(c1, request), response).last == Some(Exchange(request, Some(response)))
  {
  }

  /** `_extract_xml`: the rendered envelope of one direction, or "" when there is none, the direction is unknown, or rendering fails. */
  function ExtractXml(c: Capture, direction: string, render: Element -> Option<string>): (r: string)
    ensures r != "" ==> c.last.Some? && (direction == "sent" || direction == "received")
    ensures r != "" && direction == "sent" ==> render(c.last.value.sent) == Some(r)
    ensures r != "" && direction == "received" ==> c.last.value.received.Some? && render(c.last.value.received.value) == Some(r)
  {
    var envelope :=
      if direction == "sent" && c.last.Some? then Some(c.last.value.sent)
      else if direction == "received" && c.last.Some? && c.last.value.received.Some? then c.last.value.received
      else None;
    match envelope
    case None => ""
    case Some(e) =>
      match render(e)
      case None => ""
      case Some(xml) => xml
  }

  lemma ExtractXmlCases(c: Capture, direction: string, render: Element -> Option<string>)
    ensures direction != "sent" && direction != "received" ==> ExtractXml(c, direction, render) == ""
    ensures c.last.None? ==> ExtractXml(c, direction, render) == ""
    ensures c.last.Some? && c.last.value.received.None? ==> ExtractXml(c, "received", render) == ""
    ensures c.last.Some? ==>
      ExtractXml(c, "sent", render) == (if render(c.last.value.sent).Some? then render(c.last.value.sent).value else "")
    ensures c.last.Some? && c.last.value.received.Some? ==>
      var e := c.last.value.received.value;
      ExtractXml(c, "received", render) == (if render(e).Some? then render(e).value else "")
  {
  }

  // ---- execute ------------------------------------------------------------

  /**
   * One call of an operation: where it goes and with what. `kwargs` is
   * `None` for a call without arguments.
   */
  datatype Invocation = Invocation(
    wsdlUrl: string, bindingName: string, operationName: string, xaddr: string,
    username: string, password: string, kwargs: Option<map<string, PyValue>>)

  /**
   * What a call leaves behind: the envelope it sent and the one it received
   * (each absent when the call raised before reaching that point), its
   * result or the text of what it raised, and the rounded time it took in
   * milliseconds.
   */
  datatype CallOutcome = CallOutcome(sent: Option<Element>, received: Option<Element>, result: Result<PyValue, string>, elapsedMs: real)

  /** The history a call leaves in a fresh plugin: the request's egress, then the response's ingress. */
  function Captured(o: CallOutcome): (c: Capture)
    ensures c.last.Some? <==> o.sent.Some?
    ensures c.last.Some? ==> c.last.value == Exchange(o.sent.value, o.received)
  {
    if o.sent.None? then NoCapture
    else
      var c := Egress(NoCapture, o.sent.value);
      if o.received.Some? then Ingress(c, o.received.value) else c
  }

  /**
   * The library behaviour execute relies on. `construct` builds a client
   * for a WSDL URL and credentials (or raises), `noBinding` is the text
   * `create_service` raises for a missing binding (it lists the document's
   * bindings, so it depends on the parsed document), `noOperation` the text
   * of what looking up a missing operation raises, `call` performs the SOAP exchange, `serializeObject`
   * is zeep's `serialize_object`, and `render` is `etree.tostring`.
   */
  datatype Environment = Environment(
    construct: (string, string, string) -> Result<ParsedWsdl, string>,
    noBinding: (ParsedWsdl, string) -> string,
    noOperation: string -> string,
    call: Invocation -> CallOutcome,
    serializeObject: PyValue -> Result<PyValue, string>,
    render: Element -> Option<string>,
    lib: PyLib)

  /** The envelope `execute` returns. */
  datatype ExecutionResult = ExecutionResult(
    success: bool,
    resultJson: Option<PyValue>,
    requestXml: string,
    responseXml: string,
    error: Option<string>,
    elapsedMs: real)

  /** Keyword arguments are passed only when there are some: absent or empty params mean a call with no arguments. */
  function KwArgs(params: Option<map<string, PyValue>>): (r: Option<map<string, PyValue>>)
    ensures r.Some? <==> params.Some? && params.value != map[]
    ensures r.Some? ==> r == params
  {
    if params.Some? && params.value != map[] then params else None
  }

  /** The invocation `execute` makes for a request. */
  function InvocationFor(wsdlUrl: string, bindingName: string, operationName: string, ip: string, port: int,
                         username: string, password: string, params: Option<map<string, PyValue>>): Invocation
  {
    Invocation(wsdlUrl, bindingName, operationName, ResolveXaddr(bindingName, ip, port), username, password, KwArgs(params))
  }

  /** The failure envelope: no result, no time, the error text, and whatever was captured. */
  function Failure(message: string, c: Capture, render: Element -> Option<string>): ExecutionResult {
    ExecutionResult(false, None, ExtractXml(c, "sent", render), ExtractXml(c, "received", render), Some(message), 0.0)
  }

  /** Whether the document has the binding and the binding the operation: the lookups `create_service` and `getattr` make. */
  predicate HasOperation(w: ParsedWsdl, bindingName: string, operationName: string) {
    bindingName in w.bindings && operationName in w.bindings[bindingName].operations
  }

  /** Whether every step of `execute` gets through: construction, both lookups, the call and `serialize_object`. */
  predicate Succeeds(env: Environment, wsdlUrl: string, bindingName: string, operationName: string, ip: string, port: int,
                     username: string, password: string, params: Option<map<string, PyValue>>)
  {
    var client := env.construct(wsdlUrl, username, password);
    && client.Ok?
    && HasOperation(client.value, bindingName, operationName)
    && var outcome := env.call(InvocationFor(wsdlUrl, bindingName, operationName, ip, port, username, password, params));
       outcome.result.Ok? && env.serializeObject(outcome.result.value).Ok?
  }

  /**
   * The envelope `execute` returns for a request, exit by exit: a failed
   * construction or lookup gives the failure envelope with nothing
   * captured; a call that raises, or whose result `serialize_object`
   * cannot handle, gives it with what the call captured; otherwise the
   * normalised result with the captured XML and the call's time.
   */
  predicate Executed(env: Environment, wsdlUrl: string, bindingName: string, operationName: string, ip: string, port: int,
                     username: string, password: string, params: Option<map<string, PyValue>>, r: ExecutionResult)
  {
    var client := env.construct(wsdlUrl, username, password);
    var inv := InvocationFor(wsdlUrl, bindingName, operationName, ip, port, username, password, params);
    && (client.Err? ==> r == Failure(client.error, NoCapture, env.render))
    && (client.Ok? && bindingName !in client.value.bindings ==> r == Failure(env.noBinding(client.value, bindingName), NoCapture, env.render))
    && (client.Ok? && bindingName in client.value.bindings && !HasOperation(client.value, bindingName, operationName) ==>
          r == Failure(env.noOperation(operationName), NoCapture, env.render))
    && (client.Ok? && HasOperation(client.value, bindingName, operationName) ==> Completed(env, env.call(inv), r))
  }

  /**
   * The envelope for a call that was made: the captured XML in either case;
   * the failure envelope when the call raised or `serialize_object` failed;
   * otherwise the normalised result and the call's time.
   */
  predicate Completed(env: Environment, outcome: CallOutcome, r: ExecutionResult) {
    var history := Captured(outcome);
    && r.requestXml == ExtractXml(history, "sent", env.render)
    && r.responseXml == ExtractXml(history, "received", env.render)
    && (outcome.result.Err? ==> r == Failure(outcome.result.error, history, env.render))
    && (outcome.result.Ok? ==>
          var raw := env.serializeObject(outcome.result.value);
          && (raw.Err? ==> r == Failure(raw.error, history, env.render))
          && (raw.Ok? ==> r.success && r.error.None? && r.resultJson == Some(Serialize(env.lib, raw.value)) && r.elapsedMs == outcome.elapsedMs))
  }

  /** The history plugin during a call: the request goes out, then the response (if any) comes in. */
  method Record(history: Capture, outcome: CallOutcome) returns (h: Capture)
    requires history == NoCapture
    ensures h == Captured(outcome)
  {
    h := history;
    if outcome.sent.Some? {
      h := Egress(h, outcome.sent.value);
      if outcome.received.Some? {
        h := Ingress(h, outcome.received.value);
      }
    }
  }

  /** `Executed` fixes every field of the envelope: a request has exactly one. */
  lemma ExecutedUnique(env: Environment, wsdlUrl: string, bindingName: string, operationName: string, ip: string, port: int,
                       username: string, password: string, params: Option<map<string, PyValue>>, r1: ExecutionResult, r2: ExecutionResult)
    requires Executed(env, wsdlUrl, bindingName, operationName, ip, port, username, password, params, r1)
    requires Executed(env, wsdlUrl, bindingName, operationName, ip, port, username, password, params, r2)
    ensures r1 == r2
  {
    var client := env.construct(wsdlUrl, username, password);
    if client.Ok? && HasOperation(client.value, bindingName, operationName) {
      CompletedUnique(env, env.call(InvocationFor(wsdlUrl, bindingName, operationName, ip, port, username, password, params)), r1, r2);
    }
  }

  /** `Completed` fixes every field of the envelope for a call that was made. */
  lemma CompletedUnique(env: Environment, outcome: CallOutcome, r1: ExecutionResult, r2: ExecutionResult)
    requires Completed(env, outcome, r1) && Completed(env, outcome, r2)
    ensures r1 == r2
  {
    if outcome.result.Ok? && env.serializeObject(outcome.result.value).Ok? {
      assert r1.success == r2.success && r1.resultJson == r2.resultJson && r1.error == r2.error;
    }
  }

  /** `execute`: construct, look up, invoke, normalise; any exception on the way becomes the failure envelope. */
  method Execute(env: Environment, wsdlUrl: string, bindingName: string, operationName: string, ip: string, port: int,
                 username: string, password: string, params: Option<map<string, PyValue>>) returns (r: ExecutionResult)
    ensures Executed(env, wsdlUrl, bindingName, operationName, ip, port, username, password, params, r)
    ensures r.success <==> Succeeds(env, wsdlUrl, bindingName, operationName, ip, port, username, password, params)
    ensures r.success <==> r.error.None?
    ensures r.success ==> r.resultJson.Some? && Normal(r.resultJson.value)
    ensures !r.success ==> r.resultJson.None? && r.elapsedMs == 0.0
  {
    var history := NoCapture;
    var xaddr := ResolveXaddr(bindingName, ip, port);
    var client := env.construct(wsdlUrl, username, password);
    if client.Err? {
      return Failure(client.error, history, env.render);
    }
    var w := client.value;
    if bindingName !in w.bindings {
      return Failure(env.noBinding(w, bindingName), history, env.render);
    }
    var service := w.bindings[bindingName];
    if operationName !in service.operations {
      return Failure(env.noOperation(operationName), history, env.render);
    }
    var outcome: CallOutcome;
    if params.Some? && params.value != map[] {
      outcome := env.call(Invocation(wsdlUrl, bindingName, operationName, xaddr, username, password, Some(params.value)));
    } else {
      outcome := env.call(Invocation(wsdlUrl, bindingName, operationName, xaddr, username, password, None));
    }
    r := Complete(env, outcome);
  }

  /** The part of `execute` after the call: record the exchange, normalise the result, extract the XML. */
  method Complete(env: Environment, outcome: CallOutcome) returns (r: ExecutionResult)
    ensures Completed(env, outcome, r)
    ensures r.success <==> outcome.result.Ok? && env.serializeObject(outcome.result.value).Ok?
    ensures r.success <==> r.error.None?
    ensures r.success ==> r.resultJson.Some? && Normal(r.resultJson.value)
    ensures !r.success ==> r.resultJson.None? && r.elapsedMs == 0.0
  {
    var history := Record(NoCapture, outcome);
    if outcome.result.Err? {
      return Failure(outcome.result.error, history, env.render);
    }
    var raw := env.serializeObject(outcome.result.value);
    if raw.Err? {
      return Failure(raw.error, history, env.render);
    }
    var resultJson := Serialize(env.lib, raw.value);
    var requestXml := ExtractXml(history, "sent", env.render);
    var responseXml := ExtractXml(history, "received", env.render);
    r := ExecutionResult(true, Some(resultJson), requestXml, responseXml, None, outcome.elapsedMs);
  }
}
