/** `process_request` on text: the JSON library's parser and serialiser are
    supplied from outside, the handler decides, and the framing loop sends
    what it returns. */
module Server {
  import opened JsonValue
  import opened Dispatcher
  import opened Framing

  /** The operations of the JSON library the server calls: `parse`, which
      yields a value or the exception it throws; `dump`, the compact
      serialisation; and `what`, the text of an exception. */
  datatype JsonLibrary = JsonLibrary(
    parse: string -> Result<Json>,
    dump: Json -> string,
    what: Failure -> string)

  /** Serialising a value never gives the empty string (the shortest JSON
      text has one character). */
  ghost predicate DumpsNonEmpty(lib: JsonLibrary) {
    forall j :: lib.dump(j) != []
  }

  /** `process_request(line)`: the empty string when nothing is to be sent,
      otherwise the serialised response. */
  function ProcessRequest(lib: JsonLibrary, now: string, line: string): string {
    match Handle(lib.parse(line), now, lib.what)
    case None => ""
    case Some(response) => lib.dump(response)
  }

  /** The handler the framing loop calls for each line: the `n`-th line
      dispatched on a connection is handled when the wall clock reads
      `clock(n)`. */
  function Processor(lib: JsonLibrary, clock: nat -> string): (nat, string) -> string {
    (n: nat, line: string) => ProcessRequest(lib, clock(n), line)
  }

  /** Nothing is sent for a line exactly when it parses to a value without
      `"jsonrpc": "2.0"` or to an `initialized` notification; every other
      line, ids absent or not, gets a reply, a line that fails to parse
      included (for a serialiser that never fails). */
  lemma NothingSentIff(lib: JsonLibrary, now: string, line: string)
    requires DumpsNonEmpty(lib)
    ensures ProcessRequest(lib, now, line) == [] <==>
              lib.parse(line).Ok? && Silent(lib.parse(line).value)
  {
    var h := Handle(lib.parse(line), now, lib.what);
    if h.Some? {
      assert lib.dump(h.value) != [];
    }
  }

  /** `b` is one serialised well-formed response followed by one newline. */
  ghost predicate SentResponse(b: string, lib: JsonLibrary) {
    exists r :: IsResponse(r) && b == lib.dump(r) + [Newline]
  }

  /** Whatever arrives on a connection, every send is one well-formed
      response, serialised, with one newline appended. */
  lemma SendsAreResponses(lib: JsonLibrary, clock: nat -> string, lines: seq<string>, n: nat)
    ensures forall k :: 0 <= k < |Replies(lines, Processor(lib, clock), n)| ==>
              SentResponse(Replies(lines, Processor(lib, clock), n)[k], lib)
  {
    var process := Processor(lib, clock);
    var sent := Replies(lines, process, n);
    RepliesFramed(lines, process, n);
    forall k | 0 <= k < |sent| ensures SentResponse(sent[k], lib) {
      assert ReplyTo(sent[k], lines, process, n);
      var i :| 0 <= i < |lines| && process(n + i, lines[i]) != [] && sent[k] == process(n + i, lines[i]) + [Newline];
      var h := Handle(lib.parse(lines[i]), clock(n + i), lib.what);
      assert process(n + i, lines[i]) == ProcessRequest(lib, clock(n + i), lines[i]);
      assert h.Some?;
      assert IsResponse(h.value) && sent[k] == lib.dump(h.value) + [Newline];
    }
  }

  /** A connection on which no line is dropped or a notification sends one
      reply per line, in order, each handled at its own clock reading. */
  lemma AnsweredLinesAreSent(lib: JsonLibrary, clock: nat -> string, lines: seq<string>, n: nat)
    requires DumpsNonEmpty(lib)
    requires forall i :: 0 <= i < |lines| ==>
               !(lib.parse(lines[i]).Ok? && Silent(lib.parse(lines[i]).value))
    ensures |Replies(lines, Processor(lib, clock), n)| == |lines|
    ensures forall i :: 0 <= i < |lines| ==>
              Replies(lines, Processor(lib, clock), n)[i] == ProcessRequest(lib, clock(n + i), lines[i]) + [Newline]
  {
    var process := Processor(lib, clock);
    forall i | 0 <= i < |lines| ensures process(n + i, lines[i]) != [] {
      assert process(n + i, lines[i]) == ProcessRequest(lib, clock(n + i), lines[i]);
      NothingSentIff(lib, clock(n + i), lines[i]);
    }
    RepliesFramed(lines, process, n);
  }

  /** A connection on which every line is dropped or a notification sends nothing. */
  lemma SilentLinesSendNothing(lib: JsonLibrary, clock: nat -> string, lines: seq<string>, n: nat)
    requires forall i :: 0 <= i < |lines| ==>
               lib.parse(lines[i]).Ok? && Silent(lib.parse(lines[i]).value)
    ensures Replies(lines, Processor(lib, clock), n) == []
  {
    var process := Processor(lib, clock);
    forall i | 0 <= i < |lines| ensures process(n + i, lines[i]) == [] {
      assert process(n + i, lines[i]) == ProcessRequest(lib, clock(n + i), lines[i]);
    }
    RepliesFramed(lines, process, n);
  }
}
