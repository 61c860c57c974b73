# Simple TCP MCP test server: framing and request handling

This project models the core of `SimpleTcpServer`, the small MCP (Model
Context Protocol) test server that answers JSON-RPC 2.0 requests over TCP. It
models two pieces:

- **Connection loop** (`handle_client`). Every chunk received is appended to
  a per-connection buffer. Each complete line is then cut off the front of
  the buffer and its newline dropped. Empty lines are skipped. Every other
  line goes to `process_request`, and a non-empty reply is sent back with one
  `'\n'` appended. This is the class `Framing.LineBuffer`: a `string` field,
  plus a `Feed` method holding the cutting loop. `Framing.HandleClient` runs a
  whole connection, from the first receive to the disconnect, over a fresh
  buffer.
- **Request handler** (`process_request`). It is a decision table over the
  parsed request:
  - A request whose `jsonrpc` is not `"2.0"` is dropped silently, and so is
    `initialized`.
  - Every other request is answered with its `id` echoed, or `null` when it
    has none.
  - The reply holds the fixed result of `initialize`, `ping`, `tools/list` or
    `resources/list`, the output of the `echo` or `time` tool for
    `tools/call`, or error -32601 for an unknown method or tool.
  - Every exception thrown by the parser or by a field access becomes error
    -32700 with a null `id`.

  The error codes are those of section 5.1 of the JSON-RPC 2.0
  Specification.

Files:

- `json_value.dfy` (module `JsonValue`): JSON values, the library's
  exceptions, and `contains` / `value(key, default)`.
- `framing.dfy` (module `Framing`): the framing functions and their lemmas,
  `LineBuffer`, and `HandleClient`.
- `dispatcher.dfy`: module `Dispatcher` holds the handler. Module
  `DispatcherLemmas` holds what it promises per method.
- `server.dfy` (module `Server`): `process_request` on text, and what it
  means for the bytes a connection sends.

Parsing (`json::parse`), serialising (`dump`) and exception texts
(`e.what()`) belong to the JSON library, which is not part of this model.
They are the three fields of a `Server.JsonLibrary` value, so every property
holds for any parser and serialiser. The socket calls become values:
`recv` becomes the sequence of chunks received, and `send` becomes the
sequence of byte strings returned. The wall clock read by the `time` tool
becomes the text `std::ctime` would give: the parameter `now` of one call
of the handler, and on a connection `clock(n)` for the `n`-th line
dispatched, so two `time` calls on one connection may report different
times.

Section 4.1 of the JSON-RPC 2.0 Specification makes a request without `id`
a Notification that gets no reply. This server answers it with
`"id": null`. Only `initialized` and a wrong or missing `jsonrpc` get no
reply (`DispatcherLemmas.IdlessRequestIsAnswered`). The model follows the
code.

## Model

| member | source | states |
|---|---|---|
| `JsonValue.StringValueSpec` | examples/network/simple_tcp_server.cpp:206 | `value(key, "")` throws exactly on a non-object or on a member that is not a string; otherwise it yields the member or the default |
| `Framing.IndexOf` | examples/network/simple_tcp_server.cpp:176 | `find('\n')` gives a position within the buffer, where the buffer's length plays `npos` |
| `Framing.IndexOfFirst` | examples/network/simple_tcp_server.cpp:176 | the position found holds the delimiter, and no earlier position does |
| `Framing.RestHasNoNewline` | examples/network/simple_tcp_server.cpp:176-178 | what stays in the buffer after the loop holds no `'\n'` |
| `Framing.FramesHaveNoNewline` | examples/network/simple_tcp_server.cpp:177-178 | no extracted line holds a `'\n'` |
| `Framing.JoinFramesRest` | examples/network/simple_tcp_server.cpp:172-179 | the extracted lines, each followed by `'\n'`, then the remainder, give back the buffer: nothing is lost or reordered |
| `Framing.Decompose` | examples/network/simple_tcp_server.cpp:172-179 | the three facts above together |
| `Framing.Unique` | examples/network/simple_tcp_server.cpp:176-178 | any split of the input into delimiter-free lines plus a delimiter-free tail is the one the loop computes |
| `Framing.FramesAppend` | examples/network/simple_tcp_server.cpp:164-188 | the lines cut from `a + b` are those of `a`, then those of `a`'s remainder extended by `b`: chunk boundaries do not matter |
| `Framing.FramesAroundNewline` | examples/network/simple_tcp_server.cpp:176-178 | a delimiter ends the partial line received so far and starts afresh |
| `Framing.NonEmptyAppend` | examples/network/simple_tcp_server.cpp:180 | skipping empty lines commutes with concatenation |
| `Framing.NonEmptyHasNoEmpty` | examples/network/simple_tcp_server.cpp:180 | no empty line is dispatched, and when no line is empty all are dispatched |
| `Framing.LeadingNewlineSkipped` | examples/network/simple_tcp_server.cpp:176-180 | a leading `'\n'` dispatches nothing and does not disturb the lines after it |
| `Framing.ConsecutiveNewlinesSkipped` | examples/network/simple_tcp_server.cpp:176-180 | two consecutive delimiters dispatch the same lines as one |
| `Framing.RepliesAppend` | examples/network/simple_tcp_server.cpp:181-185 | replies are sent line by line, in order |
| `Framing.RepliesFramed` | examples/network/simple_tcp_server.cpp:181-185 | every send is a non-empty reply to a dispatched line plus exactly one `'\n'`; empty replies send nothing; at most one send per line; when every reply is non-empty, the sends are exactly the replies of the lines in order |
| `Framing.RepliesAllSent` | examples/network/simple_tcp_server.cpp:181-185 | a handler that answers every line makes the connection send one reply per line, in order, each with one `'\n'` |
| `Framing.LineBuffer.constructor` | examples/network/simple_tcp_server.cpp:162 | the buffer starts empty |
| `Framing.LineBuffer.Feed` | examples/network/simple_tcp_server.cpp:172-187 | after a chunk, the buffer is the remainder of old buffer + chunk and holds no `'\n'`; the dispatched lines are the non-empty complete lines of old buffer + chunk, in order; the sends are their replies, the handler told each line's ordinal on the connection |
| `Framing.HandleClient` | examples/network/simple_tcp_server.cpp:160-196 | over a whole connection, the lines dispatched and the bytes sent depend only on the concatenation of the chunks, not on their boundaries; the unterminated tail is dropped |
| `Dispatcher.CallTool` | examples/network/simple_tcp_server.cpp:258-288 | `tools/call` throws exactly when `params` is not an object, `name` is not a string, or, for `echo`, `arguments` is not an object or `text` is not a string |
| `Dispatcher.Respond` | examples/network/simple_tcp_server.cpp:200-300 | the try block throws exactly on those field-type errors; it returns nothing exactly for a non-"2.0" `jsonrpc` or `initialized`; every response it builds has version "2.0", the request's `id` (or null), and exactly one of `result`/`error` |
| `Dispatcher.Handle` | examples/network/simple_tcp_server.cpp:198-312 | every reply is a well-formed response; there is no reply exactly for a parsed value that is dropped or `initialized`; a parse or field-access failure gives null `id`, code -32700 and a message starting "Parse error: "; otherwise the `id` is echoed |
| `DispatcherLemmas.InitializeAnswers` | examples/network/simple_tcp_server.cpp:214-225 | `initialize` answers protocolVersion "2024-11-05", empty tool and resource capabilities, and serverInfo SimpleTcpServer / 1.0.0 |
| `DispatcherLemmas.InitializedIsSilent` | examples/network/simple_tcp_server.cpp:226-228 | `initialized` gets no reply, even with an `id` |
| `DispatcherLemmas.IdlessRequestIsAnswered` | examples/network/simple_tcp_server.cpp:202-212 | every accepted request without `id`, other than `initialized`, is answered, with `"id": null` |
| `DispatcherLemmas.PingAnswersEmpty` | examples/network/simple_tcp_server.cpp:229-230 | `ping` answers `{}`, the same on every call |
| `DispatcherLemmas.ToolsListAnswers` | examples/network/simple_tcp_server.cpp:231-257 | `tools/list` answers exactly two descriptors, `echo` then `time` |
| `DispatcherLemmas.ResourcesListAnswers` | examples/network/simple_tcp_server.cpp:289-292 | `resources/list` answers `{"resources": []}` |
| `DispatcherLemmas.UnknownMethodNotFound` | examples/network/simple_tcp_server.cpp:293-297 | any other method name gives error -32601 "Method not found: " + name |
| `DispatcherLemmas.MissingMethodNotFound` | examples/network/simple_tcp_server.cpp:206 | a missing method reads as "" and gives "Method not found: " |
| `DispatcherLemmas.EchoAnswers` | examples/network/simple_tcp_server.cpp:262-271 | `echo` answers one text item "Echo: " + text, where text defaults to "" |
| `DispatcherLemmas.TimeAnswers` | examples/network/simple_tcp_server.cpp:272-282 | `time` answers one text item holding the clock text |
| `DispatcherLemmas.UnknownToolNotFound` | examples/network/simple_tcp_server.cpp:283-288 | any other tool name (default "") gives error -32601 "Method not found: " + name |
| `DispatcherLemmas.OnlyTimeReadsClock` | examples/network/simple_tcp_server.cpp:214-298 | every request except a `time` call gets the same answer whatever the clock says |
| `DispatcherLemmas.ListedToolsAreCallable` | examples/network/simple_tcp_server.cpp:231-288 | calling a listed tool by its listed name yields a `result`, never "not found": `time` with any arguments, `echo` with a string `text`, whatever other members `params` and `arguments` hold |
| `DispatcherLemmas.PingScenario` | examples/network/simple_tcp_server.cpp:229-230 | `{"jsonrpc":"2.0","id":1,"method":"ping"}` is answered `{"jsonrpc":"2.0","id":1,"result":{}}` |
| `DispatcherLemmas.EchoScenario` | examples/network/simple_tcp_server.cpp:262-271 | an `echo` call with text "hi" is answered "Echo: hi" |
| `DispatcherLemmas.NotFoundScenario` | examples/network/simple_tcp_server.cpp:293-297 | method "nope" is answered -32601 "Method not found: nope" |
| `DispatcherLemmas.NotificationScenario` | examples/network/simple_tcp_server.cpp:226-228 | `{"jsonrpc":"2.0","method":"initialized"}` gets no reply |
| `DispatcherLemmas.MalformedScenario` | examples/network/simple_tcp_server.cpp:302-311 | text that does not parse is answered with the parse-error response and a null `id` |
| `Server.NothingSentIff` | examples/network/simple_tcp_server.cpp:181-185 | with a serialiser that never returns "", nothing is sent for a line exactly when it parses to a dropped value or to `initialized` |
| `Server.SendsAreResponses` | examples/network/simple_tcp_server.cpp:181-185 | every send on a connection is one well-formed response, serialised, plus one `'\n'` |
| `Server.AnsweredLinesAreSent` | examples/network/simple_tcp_server.cpp:181-185 | with a serialiser that never returns "", a connection whose lines are all answered sends one reply per line, in order, each handled at its own clock reading |
| `Server.SilentLinesSendNothing` | examples/network/simple_tcp_server.cpp:202-204 | a connection whose lines are all dropped or notifications sends nothing |

## Left out

- Socket set-up and tear-down (`start`, `stop`, `run`, WSAStartup, bind, listen, accept, close): OS calls with nothing to state beyond their success.
- The thread per client and the shared `running_` flag, which is read without synchronisation: concurrency. `HandleClient` runs until the chunks run out, which is where `recv` returns 0 or less. A `stop` in the middle of a connection is not modelled.
- `recv`'s 4096-byte buffer and its NUL terminator: chunks of any length are accepted.
- `json::parse`, `dump` and the text of `e.what()`: the JSON library is not part of this model, so they stay abstract fields of `JsonLibrary`. Integers are unbounded, and the library's signed/unsigned split is not modelled. Floating-point numbers are `real`.
- The value of `std::chrono::system_clock::now()` and `std::ctime`: the clock readings are the parameter `clock`, one text per dispatched line of a connection.
- `Server.NothingSentIff`: `dump` is taken never to throw. With the library's strict UTF-8 handling it can: the catch block's `dump` at line 310 is outside the `try`, and a parse error's `what()` can echo an invalid byte of the line, so such an exception escapes `process_request` and `handle_client` and ends the process. The model does not capture that.
- The return value of `send` is ignored at line 184, so a short or failed send loses reply bytes unnoticed; `sent` is what is handed to `send`.
- `main`'s port parsing with `atoi`, and the console output.
- `examples/network/network_client_example.cpp`: a command-line demo whose protocol work lives in the external `stdio_client` library, which is not part of this model.
