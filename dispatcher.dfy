/** The JSON-RPC 2.0 request handler of the test server, on parsed values:
    which requests get a reply, the reply's `id`, `result` or `error`, the
    fixed results of the MCP methods it knows, the `tools/call` sub-dispatch,
    and the catch-all that turns every exception into a parse error. */
module Dispatcher {
  import opened JsonValue

  /** Error codes of section 5.1 of the JSON-RPC 2.0 Specification. */
  const ParseErrorCode: int := -32700
  const MethodNotFoundCode: int := -32601

  const ProtocolVersion: string := "2024-11-05"

  /** The methods the handler recognises; every other name is "not found". */
  const KnownMethods: set<string> :=
    {"initialize", "initialized", "ping", "tools/list", "tools/call", "resources/list"}

  /** The payload of a response: its `result` member or its `error` member. */
  datatype Answer = ResultMember(result: Json) | ErrorMember(error: Json)

  /** A request is only answered when it has `"jsonrpc": "2.0"`; this is
      false for every value that is not an object. */
  predicate Accepted(request: Json) {
    Contains(request, "jsonrpc") && request.members["jsonrpc"] == Str("2.0")
  }

  /** The request's `id`, null when it has none. */
  function IdOf(request: Json): Json {
    Member(request, "id", Null)
  }

  /** The request's `params`, an empty object when it has none. */
  function ParamsOf(request: Json): Json {
    Member(request, "params", Obj(map[]))
  }

  /** The response envelope: `jsonrpc`, the echoed `id` and one payload member. */
  function Envelope(id: Json, answer: Answer): Json {
    match answer
    case ResultMember(result) => Obj(map["jsonrpc" := Str("2.0"), "id" := id, "result" := result])
    case ErrorMember(error) => Obj(map["jsonrpc" := Str("2.0"), "id" := id, "error" := error])
  }

  function ErrorObject(code: int, message: string): Json {
    Obj(map["code" := Int(code), "message" := Str(message)])
  }

  function MethodNotFound(name: string): Answer {
    ErrorMember(ErrorObject(MethodNotFoundCode, "Method not found: " + name))
  }

  /** What the catch block answers, whatever threw. */
  function ParseErrorResponse(what: string): Json {
    Envelope(Null, ErrorMember(ErrorObject(ParseErrorCode, "Parse error: " + what)))
  }

  function InitializeResult(): Json {
    Obj(map[
      "protocolVersion" := Str(ProtocolVersion),
      "capabilities" := Obj(map["tools" := Obj(map[]), "resources" := Obj(map[])]),
      "serverInfo" := Obj(map["name" := Str("SimpleTcpServer"), "version" := Str("1.0.0")])
    ])
  }

  function EchoDescriptor(): Json {
    Obj(map[
      "name" := Str("echo"),
      "description" := Str("Echo the input text"),
      "inputSchema" := Obj(map[
        "type" := Str("object"),
        "properties" := Obj(map[
          "text" := Obj(map["type" := Str("string"), "description" := Str("Text to echo")])
        ]),
        "required" := Arr([Str("text")])
      ])
    ])
  }

  function TimeDescriptor(): Json {
    Obj(map[
      "name" := Str("time"),
      "description" := Str("Get current time"),
      "inputSchema" := Obj(map["type" := Str("object"), "properties" := Obj(map[])])
    ])
  }

  function ToolsListResult(): Json {
    Obj(map["tools" := Arr([EchoDescriptor(), TimeDescriptor()])])
  }

  function ResourcesListResult(): Json {
    Obj(map["resources" := Arr([])])
  }

  /** The result of a tool: one text content item. */
  function TextContent(text: string): Json {
    Obj(map["content" := Arr([Obj(map["type" := Str("text"), "text" := Str(text)])])])
  }

  /** The reference description of the accesses that throw inside the try
      block: a `method` that is not a string, or, for `tools/call`, `params`
      that is not an object, a `name` that is not a string, or, for `echo`,
      `arguments` that is not an object or a `text` that is not a string. */
  predicate ToolCallTypeError(params: Json) {
    !params.Obj?
    || (Contains(params, "name") && !params.members["name"].Str?)
    || (Member(params, "name", Str("")) == Str("echo") &&
        var arguments := Member(params, "arguments", Obj(map[]));
        !arguments.Obj? || (Contains(arguments, "text") && !arguments.members["text"].Str?))
  }

  predicate FieldTypeError(request: Json) {
    Accepted(request) &&
    ((Contains(request, "method") && !request.members["method"].Str?)
     || (Member(request, "method", Str("")) == Str("tools/call") && ToolCallTypeError(ParamsOf(request))))
  }

  /** The requests that are answered with nothing at all. */
  predicate Silent(request: Json) {
    !Accepted(request) || Member(request, "method", Null) == Str("initialized")
  }

  /** A well-formed response: version "2.0", an id, and exactly one of
      `result` and `error`. */
  predicate IsResponse(r: Json) {
    r.Obj? && r.members.Keys <= {"jsonrpc", "id", "result", "error"}
    && "jsonrpc" in r.members && r.members["jsonrpc"] == Str("2.0")
    && "id" in r.members
    && (("result" in r.members) != ("error" in r.members))
  }

  /** `r` carries an error object with this code and a message that starts with `prefix`. */
  predicate HasError(r: Json, code: int, prefix: string) {
    r.Obj? && "error" in r.members
    && var e := r.members["error"];
    e.Obj? && e.members.Keys == {"code", "message"}
    && e.members["code"] == Int(code)
    && e.members["message"].Str? && prefix <= e.members["message"].s
  }

  /** `tools/call`: look the tool up by `params.name` (default ""); `echo`
      echoes `arguments.text` (default ""), `time` answers the clock text. */
  function CallTool(params: Json, now: string): (r: Result<Answer>)
    ensures r.Err? <==> ToolCallTypeError(params)
  {
    var name :- StringValue(params, "name", "");
    var arguments := Member(params, "arguments", Obj(map[]));
    if name == "echo" then
      var text :- StringValue(arguments, "text", "");
      Ok(ResultMember(TextContent("Echo: " + text)))
    else if name == "time" then
      Ok(ResultMember(TextContent(now)))
    else
      Ok(MethodNotFound(name))
  }

  /** The body of the try block once the line has been parsed: `Ok(None)`
      returns the empty string, `Ok(Some(response))` a response, `Err` is an
      exception. `now` is the clock text the `time` tool reports. */
  function Respond(request: Json, now: string): (r: Result<Option<Json>>)
    ensures r.Err? <==> FieldTypeError(request)
    ensures r == Ok(None) <==> Silent(request)
    ensures r.Ok? && r.value.Some? ==>
              IsResponse(r.value.value) && r.value.value.members["id"] == IdOf(request)
  {
    if !Accepted(request) then Ok(None)
    else
      var methodName :- StringValue(request, "method", "");
      var params := ParamsOf(request);
      var id := IdOf(request);
      if methodName == "initialize" then
        Ok(Some(Envelope(id, ResultMember(InitializeResult()))))
      else if methodName == "initialized" then
        Ok(None)
      else if methodName == "ping" then
        Ok(Some(Envelope(id, ResultMember(Obj(map[])))))
      else if methodName == "tools/list" then
        Ok(Some(Envelope(id, ResultMember(ToolsListResult()))))
      else if methodName == "tools/call" then
        var answer :- CallTool(params, now);
        Ok(Some(Envelope(id, answer)))
      else if methodName == "resources/list" then
        Ok(Some(Envelope(id, ResultMember(ResourcesListResult()))))
      else
        Ok(Some(Envelope(id, MethodNotFound(methodName))))
  }

  /** The whole request handler on the parser's outcome: `None` is the empty
      string (nothing is sent), `Some(response)` the response to serialise.
      `what` gives the text of an exception. */
  function Handle(parsed: Result<Json>, now: string, what: Failure -> string): (r: Option<Json>)
    ensures r.Some? ==> IsResponse(r.value)
    ensures r.None? <==> parsed.Ok? && Silent(parsed.value)
    ensures parsed.Err? ==> r == Some(ParseErrorResponse(what(parsed.failure)))
    ensures parsed.Err? || FieldTypeError(parsed.value) ==>
              r.Some? && r.value.members["id"] == Null && HasError(r.value, ParseErrorCode, "Parse error: ")
    ensures parsed.Ok? && !FieldTypeError(parsed.value) && r.Some? ==>
              r.value.members["id"] == IdOf(parsed.value)
  {
    match parsed
    case Err(failure) => Some(ParseErrorResponse(what(failure)))
    case Ok(request) =>
      match Respond(request, now)
      case Ok(response) => response
      case Err(failure) => Some(ParseErrorResponse(what(failure)))
  }
}

/** What the handler promises for each method it knows, and for the names it
    does not know. */
module DispatcherLemmas {
  import opened JsonValue
  import opened Dispatcher

  /** A request with `"jsonrpc": "2.0"` and the given method name. */
  predicate Calls(request: Json, name: string) {
    Accepted(request) && Member(request, "method", Str("")) == Str(name)
  }

  /** `initialize` answers the fixed protocol version, capabilities and server info. */
  lemma InitializeAnswers(request: Json, now: string)
    requires Calls(request, "initialize")
    ensures Respond(request, now) == Ok(Some(Envelope(IdOf(request), ResultMember(InitializeResult()))))
    ensures InitializeResult().members["protocolVersion"] == Str("2024-11-05")
    ensures InitializeResult().members["serverInfo"] ==
              Obj(map["name" := Str("SimpleTcpServer"), "version" := Str("1.0.0")])
  {
  }

  /** `initialized` is a notification: nothing is sent, even with an id. */
  lemma InitializedIsSilent(request: Json, now: string, what: Failure -> string)
    requires Calls(request, "initialized")
    ensures Handle(Ok(request), now, what) == None
  {
  }

  /** A request without `id` is still answered, with a null `id`: only
      `initialized` and a missing or wrong `jsonrpc` get no reply. */
  lemma IdlessRequestIsAnswered(request: Json, now: string, what: Failure -> string)
    requires Accepted(request) && !Contains(request, "id") && !Silent(request)
    ensures Handle(Ok(request), now, what).Some?
    ensures Handle(Ok(request), now, what).value.members["id"] == Null
  {
  }

  /** `ping` answers an empty object to whatever request and at whatever time;
      calling it again gives the same reply. */
  lemma PingAnswersEmpty(request: Json, now1: string, now2: string)
    requires Calls(request, "ping")
    ensures Respond(request, now1) == Ok(Some(Envelope(IdOf(request), ResultMember(Obj(map[])))))
    ensures Respond(request, now1) == Respond(request, now2)
  {
  }

  /** `tools/list` answers exactly two descriptors, `echo` then `time`. */
  lemma ToolsListAnswers(request: Json, now: string)
    requires Calls(request, "tools/list")
    ensures Respond(request, now) == Ok(Some(Envelope(IdOf(request), ResultMember(ToolsListResult()))))
    ensures ToolsListResult().members.Keys == {"tools"}
    ensures ToolsListResult().members["tools"].Arr?
    ensures |ToolsListResult().members["tools"].items| == 2
    ensures ToolsListResult().members["tools"].items[0].members["name"] == Str("echo")
    ensures ToolsListResult().members["tools"].items[1].members["name"] == Str("time")
  {
  }

  /** `resources/list` answers an empty list of resources. */
  lemma ResourcesListAnswers(request: Json, now: string)
    requires Calls(request, "resources/list")
    ensures Respond(request, now) ==
              Ok(Some(Envelope(IdOf(request), ResultMember(Obj(map["resources" := Arr([])])))))
  {
  }

  /** A method name the handler does not know, a missing one included (it
      reads as ""), is answered with -32601 naming it. */
  lemma UnknownMethodNotFound(request: Json, now: string, name: string)
    requires Accepted(request)
    requires Member(request, "method", Str("")) == Str(name)
    requires name !in KnownMethods
    ensures Respond(request, now) == Ok(Some(Envelope(IdOf(request),
              ErrorMember(ErrorObject(-32601, "Method not found: " + name)))))
  {
    assert StringValue(request, "method", "") == Ok(name);
    assert name != "initialize" && name != "initialized" && name != "ping";
    assert name != "tools/list" && name != "tools/call" && name != "resources/list";
  }

  lemma MissingMethodNotFound(request: Json, now: string)
    requires Accepted(request) && !Contains(request, "method")
    ensures Respond(request, now) == Ok(Some(Envelope(IdOf(request),
              ErrorMember(ErrorObject(-32601, "Method not found: ")))))
  {
    assert "" !in KnownMethods;
    UnknownMethodNotFound(request, now, "");
    assert "Method not found: " + "" == "Method not found: ";
  }

  /** `tools/call` of `echo` answers "Echo: " and the text argument, "" when absent. */
  lemma EchoAnswers(request: Json, now: string, text: string)
    requires Calls(request, "tools/call")
    requires Contains(ParamsOf(request), "name") && ParamsOf(request).members["name"] == Str("echo")
    requires Member(ParamsOf(request), "arguments", Obj(map[])).Obj?
    requires Member(Member(ParamsOf(request), "arguments", Obj(map[])), "text", Str("")) == Str(text)
    ensures Respond(request, now) ==
              Ok(Some(Envelope(IdOf(request), ResultMember(TextContent("Echo: " + text)))))
  {
  }

  /** `tools/call` of `time` answers the clock text. */
  lemma TimeAnswers(request: Json, now: string)
    requires Calls(request, "tools/call")
    requires Contains(ParamsOf(request), "name") && ParamsOf(request).members["name"] == Str("time")
    ensures Respond(request, now) == Ok(Some(Envelope(IdOf(request), ResultMember(TextContent(now)))))
  {
  }

  /** `tools/call` of any other tool, a missing name included (it reads as
      ""), is answered with -32601 naming the tool. */
  lemma UnknownToolNotFound(request: Json, now: string, name: string)
    requires Calls(request, "tools/call")
    requires ParamsOf(request).Obj?
    requires Member(ParamsOf(request), "name", Str("")) == Str(name)
    requires name != "echo" && name != "time"
    ensures Respond(request, now) == Ok(Some(Envelope(IdOf(request),
              ErrorMember(ErrorObject(-32601, "Method not found: " + name)))))
  {
  }

  /** The clock is read by the `time` tool only: every other request is
      answered the same whenever it arrives. */
  lemma OnlyTimeReadsClock(request: Json, now1: string, now2: string)
    requires !(Calls(request, "tools/call") && Contains(ParamsOf(request), "name")
               && ParamsOf(request).members["name"] == Str("time"))
    ensures Respond(request, now1) == Respond(request, now2)
  {
  }

  /** Every tool that `tools/list` advertises can be called with arguments
      that follow its input schema without being "not found": `time` with any
      arguments or none, `echo` with an `arguments` object whose `text` is a
      string; other members of `params` and `arguments` do not matter. */
  lemma ListedToolsAreCallable(request: Json, now: string, k: nat)
    requires k < |ToolsListResult().members["tools"].items|
    requires Calls(request, "tools/call")
    requires ParamsOf(request).Obj?
    requires Contains(ParamsOf(request), "name")
    requires ParamsOf(request).members["name"] == ToolsListResult().members["tools"].items[k].members["name"]
    requires k == 0 ==>
               var arguments := Member(ParamsOf(request), "arguments", Obj(map[]));
               Contains(arguments, "text") && arguments.members["text"].Str?
    ensures Respond(request, now).Ok?
    ensures Respond(request, now).value.Some?
    ensures "result" in Respond(request, now).value.value.members
  {
  }

  /** The examples of the wire protocol, on parsed values. */
  lemma PingScenario(now: string, what: Failure -> string)
    ensures Handle(Ok(Obj(map["jsonrpc" := Str("2.0"), "id" := Int(1), "method" := Str("ping")])), now, what)
         == Some(Obj(map["jsonrpc" := Str("2.0"), "id" := Int(1), "result" := Obj(map[])]))
  {
  }

  lemma EchoScenario(now: string, what: Failure -> string)
    ensures Handle(Ok(Obj(map["jsonrpc" := Str("2.0"), "id" := Int(2), "method" := Str("tools/call"),
                              "params" := Obj(map["name" := Str("echo"),
                                                  "arguments" := Obj(map["text" := Str("hi")])])])), now, what)
         == Some(Envelope(Int(2), ResultMember(TextContent("Echo: hi"))))
  {
    var request := Obj(map["jsonrpc" := Str("2.0"), "id" := Int(2), "method" := Str("tools/call"),
                           "params" := Obj(map["name" := Str("echo"),
                                               "arguments" := Obj(map["text" := Str("hi")])])]);
    EchoAnswers(request, now, "hi");
    assert "Echo: " + "hi" == "Echo: hi";
  }

  lemma NotFoundScenario(now: string, what: Failure -> string)
    ensures Handle(Ok(Obj(map["jsonrpc" := Str("2.0"), "id" := Int(3), "method" := Str("nope")])), now, what)
         == Some(Envelope(Int(3), ErrorMember(ErrorObject(-32601, "Method not found: nope"))))
  {
    var request := Obj(map["jsonrpc" := Str("2.0"), "id" := Int(3), "method" := Str("nope")]);
    assert "nope" !in KnownMethods;
    UnknownMethodNotFound(request, now, "nope");
    assert "Method not found: " + "nope" == "Method not found: nope";
  }

  lemma NotificationScenario(now: string, what: Failure -> string)
    ensures Handle(Ok(Obj(map["jsonrpc" := Str("2.0"), "method" := Str("initialized")])), now, what) == None
  {
  }

  lemma MalformedScenario(now: string, what: Failure -> string, reason: string)
    ensures Handle(Err(Malformed(reason)), now, what) == Some(ParseErrorResponse(what(Malformed(reason))))
    ensures Handle(Err(Malformed(reason)), now, what).value.members["id"] == Null
  {
  }
}
