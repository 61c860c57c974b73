/** Newline framing of one client connection: received chunks are appended to
    a buffer, every complete line is cut off the front of it, empty lines are
    skipped, and each non-empty line is handed to the request handler, whose
    non-empty reply is sent back followed by one newline. */
module Framing {

  const Newline: char := '\n'

  /** Position of the first `c` in `s`, or `|s|` when there is none (the
      role `std::string::npos` plays for `find`). */
  function IndexOf(s: string, c: char): (r: nat)
    ensures r <= |s|
  {
    if |s| == 0 then 0
    else if s[0] == c then 0
    else 1 + IndexOf(s[1..], c)
  }

  /** `IndexOf` finds the first occurrence: `c` is at the position found and
      nowhere before it. */
  lemma {:induction false} IndexOfFirst(s: string, c: char)
    ensures IndexOf(s, c) < |s| ==> s[IndexOf(s, c)] == c
    ensures forall k :: 0 <= k < IndexOf(s, c) ==> s[k] != c
  {
    if |s| > 0 && s[0] != c {
      IndexOfFirst(s[1..], c);
      assert forall k :: 1 <= k < |s| ==> s[k] == s[1..][k - 1];
    }
  }

  predicate NoNewline(s: string) {
    Newline !in s
  }

  predicate AllNoNewline(lines: seq<string>) {
    forall i :: 0 <= i < |lines| ==> NoNewline(lines[i])
  }

  /** The complete lines of `s`, in order, without their delimiters; empty
      lines included. */
  function Frames(s: string): seq<string>
    decreases |s|
  {
    var p := IndexOf(s, Newline);
    if p == |s| then [] else [s[..p]] + Frames(s[p + 1..])
  }

  /** What follows the last delimiter of `s`: the part of a line received so far. */
  function Rest(s: string): string
    decreases |s|
  {
    var p := IndexOf(s, Newline);
    if p == |s| then s else Rest(s[p + 1..])
  }

  /** Every line followed by one delimiter, concatenated in order. */
  function Join(lines: seq<string>): string {
    if lines == [] then [] else lines[0] + [Newline] + Join(lines[1..])
  }

  /** The lines that are handed to the handler: the non-empty ones, in order. */
  function NonEmpty(lines: seq<string>): seq<string> {
    if lines == [] then []
    else (if lines[0] == [] then [] else [lines[0]]) + NonEmpty(lines[1..])
  }

  /** What is sent for the dispatched lines: each non-empty reply with one
      delimiter appended; an empty reply sends nothing. The handler is told
      the ordinal of the line on its connection, `n` for `lines[0]`, so that
      what it reads from outside (the wall clock) may differ from call to
      call. */
  function Replies(lines: seq<string>, process: (nat, string) -> string, n: nat): seq<string> {
    if lines == [] then []
    else
      var reply := process(n, lines[0]);
      (if reply == [] then [] else [reply + [Newline]]) + Replies(lines[1..], process, n + 1)
  }

  /** The chunks received so far, in arrival order. */
  function Concat(chunks: seq<string>): string {
    if chunks == [] then [] else Concat(chunks[..|chunks| - 1]) + chunks[|chunks| - 1]
  }

  lemma {:induction false} JoinAppend(a: seq<string>, b: seq<string>)
    ensures Join(a + b) == Join(a) + Join(b)
  {
    if a == [] {
      assert a + b == b;
    } else {
      assert (a + b)[0] == a[0];
      assert (a + b)[1..] == a[1..] + b;
      JoinAppend(a[1..], b);
    }
  }

  lemma AllNoNewlineAppend(a: seq<string>, b: seq<string>)
    requires AllNoNewline(a) && AllNoNewline(b)
    ensures AllNoNewline(a + b)
  {
    forall i | 0 <= i < |a + b| ensures NoNewline((a + b)[i]) {
      if i < |a| { assert (a + b)[i] == a[i]; } else { assert (a + b)[i] == b[i - |a|]; }
    }
  }

  /** The first delimiter of `x + "\n" + y` is the one after `x`. */
  lemma IndexOfAfter(x: string, y: string)
    requires NoNewline(x)
    ensures IndexOf(x + [Newline] + y, Newline) == |x|
  {
    var s := x + [Newline] + y;
    IndexOfFirst(s, Newline);
    assert s[|x|] == Newline;
    assert forall k :: 0 <= k < |x| ==> s[k] == x[k];
  }

  /** A buffer without delimiter has no complete line and is all remainder. */
  lemma FramesNone(s: string)
    requires NoNewline(s)
    ensures IndexOf(s, Newline) == |s|
    ensures Frames(s) == [] && Rest(s) == s
  {
    IndexOfFirst(s, Newline);
  }

  /** A buffer with a delimiter: its first line, that line's delimiter, and the rest. */
  lemma FramesStep(s: string) returns (p: nat)
    requires !NoNewline(s)
    ensures p == IndexOf(s, Newline) && p < |s|
    ensures Frames(s) == [s[..p]] + Frames(s[p + 1..])
    ensures Rest(s) == Rest(s[p + 1..])
    ensures NoNewline(s[..p])
    ensures s == s[..p] + [Newline] + s[p + 1..]
  {
    p := IndexOf(s, Newline);
    IndexOfFirst(s, Newline);
    assert forall k :: 0 <= k < p ==> s[..p][k] == s[k];
  }

  lemma Reassemble(line: string, tail: string, js: string, r: string, s: string)
    requires s == line + [Newline] + tail
    requires js + r == tail
    ensures line + [Newline] + js + r == s
  {
  }

  /** The remainder left in a buffer holds no delimiter. */
  lemma {:induction false} RestHasNoNewline(s: string)
    ensures NoNewline(Rest(s))
    decreases |s|
  {
    if NoNewline(s) {
      FramesNone(s);
    } else {
      var p := FramesStep(s);
      RestHasNoNewline(s[p + 1..]);
    }
  }

  /** No frame holds a delimiter. */
  lemma {:induction false} FramesHaveNoNewline(s: string)
    ensures AllNoNewline(Frames(s))
    decreases |s|
  {
    if NoNewline(s) {
      FramesNone(s);
    } else {
      var p := FramesStep(s);
      FramesHaveNoNewline(s[p + 1..]);
      AllNoNewlineAppend([s[..p]], Frames(s[p + 1..]));
    }
  }

  /** Nothing is lost or reordered: the frames, each with its delimiter,
      followed by the remainder, give back the buffer. */
  lemma {:induction false} JoinFramesRest(s: string)
    ensures Join(Frames(s)) + Rest(s) == s
    decreases |s|
  {
    if NoNewline(s) {
      FramesNone(s);
    } else {
      var p := FramesStep(s);
      var line, tail := s[..p], s[p + 1..];
      JoinFramesRest(tail);
      JoinCons(line, Frames(tail));
      Reassemble(line, tail, Join(Frames(tail)), Rest(tail), s);
    }
  }

  /** A buffer is its complete lines, each with its delimiter, followed by a
      remainder that holds no delimiter; no line holds one either. */
  lemma Decompose(s: string)
    ensures Join(Frames(s)) + Rest(s) == s
    ensures NoNewline(Rest(s))
    ensures AllNoNewline(Frames(s))
  {
    JoinFramesRest(s);
    RestHasNoNewline(s);
    FramesHaveNoNewline(s);
  }

  /** The decomposition of `Decompose` is the only one: any lines without
      delimiters, joined and followed by a remainder without delimiter, are
      the frames and the remainder of their concatenation. */
  lemma {:induction false} Unique(lines: seq<string>, r: string, s: string)
    requires AllNoNewline(lines) && NoNewline(r)
    requires Join(lines) + r == s
    ensures Frames(s) == lines && Rest(s) == r
    decreases |lines|
  {
    if lines == [] {
      FramesNone(s);
    } else {
      var x := lines[0];
      var more := Join(lines[1..]) + r;
      assert NoNewline(x);
      assert s == x + [Newline] + more;
      IndexOfAfter(x, more);
      assert s[..|x|] == x;
      assert s[|x| + 1..] == more;
      assert AllNoNewline(lines[1..]) by {
        forall i | 0 <= i < |lines[1..]| ensures NoNewline(lines[1..][i]) {
          assert lines[1..][i] == lines[i + 1];
        }
      }
      Unique(lines[1..], r, more);
      assert lines == [x] + lines[1..];
    }
  }

  /** Two decompositions in a row make one. */
  lemma JoinChain(fa: seq<string>, ra: string, fb: seq<string>, rb: string, a: string, b: string)
    requires Join(fa) + ra == a
    requires Join(fb) + rb == ra + b
    ensures Join(fa + fb) + rb == a + b
  {
    JoinAppend(fa, fb);
    assert Join(fa) + ra + b == Join(fa) + (ra + b);
    assert Join(fa) + (Join(fb) + rb) == Join(fa) + Join(fb) + rb;
  }

  /** Cutting frames is insensitive to chunk boundaries: the frames of
      `a + b` are those of `a` followed by those of what `a` left over
      extended by `b`. */
  lemma FramesAppend(a: string, b: string)
    ensures Frames(a + b) == Frames(a) + Frames(Rest(a) + b)
    ensures Rest(a + b) == Rest(Rest(a) + b)
  {
    var fa, ra := Frames(a), Rest(a);
    Decompose(a);
    var fb, rb := Frames(ra + b), Rest(ra + b);
    Decompose(ra + b);
    JoinChain(fa, ra, fb, rb, a, b);
    AllNoNewlineAppend(fa, fb);
    Unique(fa + fb, rb, a + b);
  }

  lemma JoinCons(line: string, lines: seq<string>)
    ensures Join([line] + lines) == line + [Newline] + Join(lines)
  {
    assert ([line] + lines)[1..] == lines;
  }

  /** A line without delimiter, then a delimiter: one frame, then whatever follows. */
  lemma FramesAfterLine(line: string, y: string)
    requires NoNewline(line)
    ensures Frames(line + [Newline] + y) == [line] + Frames(y)
    ensures Rest(line + [Newline] + y) == Rest(y)
  {
    var s := line + [Newline] + y;
    IndexOfAfter(line, y);
    assert s[..|line|] == line;
    assert s[|line| + 1..] == y;
  }

  lemma AroundNewlineCongruence(x: string, y: string, t: string, rx: string)
    requires t == [Newline] + y
    requires Frames(x + t) == Frames(x) + Frames(rx + t) && Rest(x + t) == Rest(rx + t)
    requires Frames(rx + [Newline] + y) == [rx] + Frames(y) && Rest(rx + [Newline] + y) == Rest(y)
    ensures Frames(x + [Newline] + y) == Frames(x) + [rx] + Frames(y)
    ensures Rest(x + [Newline] + y) == Rest(y)
  {
    NewlineAssoc(rx, y);
    NewlineAssoc(x, y);
  }

  lemma NewlineAssoc(a: string, y: string)
    ensures a + ([Newline] + y) == a + [Newline] + y
  {
  }

  /** A delimiter in the middle closes the line received so far and starts afresh. */
  lemma FramesAroundNewline(x: string, y: string)
    ensures Frames(x + [Newline] + y) == Frames(x) + [Rest(x)] + Frames(y)
    ensures Rest(x + [Newline] + y) == Rest(y)
  {
    var t, rx := [Newline] + y, Rest(x);
    FramesAppend(x, t);
    RestHasNoNewline(x);
    FramesAfterLine(rx, y);
    AroundNewlineCongruence(x, y, t, rx);
  }

  lemma {:induction false} NonEmptyAppend(a: seq<string>, b: seq<string>)
    ensures NonEmpty(a + b) == NonEmpty(a) + NonEmpty(b)
  {
    if a == [] {
      assert a + b == b;
    } else {
      assert (a + b)[0] == a[0];
      assert (a + b)[1..] == a[1..] + b;
      NonEmptyAppend(a[1..], b);
    }
  }

  /** No empty line is ever dispatched, and the dispatched lines are the
      complete lines of the input in their order. */
  lemma {:induction false} NonEmptyHasNoEmpty(lines: seq<string>)
    ensures forall i :: 0 <= i < |NonEmpty(lines)| ==> NonEmpty(lines)[i] != []
    ensures |NonEmpty(lines)| <= |lines|
    ensures (forall i :: 0 <= i < |lines| ==> lines[i] != []) ==> NonEmpty(lines) == lines
  {
    if lines != [] {
      NonEmptyHasNoEmpty(lines[1..]);
      var tail := NonEmpty(lines[1..]);
      var nl := NonEmpty(lines);
      if lines[0] == [] {
        assert nl == tail;
      } else {
        assert nl == [lines[0]] + tail;
        forall i | 0 <= i < |nl| ensures nl[i] != [] {
          if i > 0 { assert nl[i] == tail[i - 1]; }
        }
        if forall i :: 0 <= i < |lines| ==> lines[i] != [] {
          assert forall i :: 0 <= i < |lines[1..]| ==> lines[1..][i] == lines[i + 1];
          assert lines == [lines[0]] + lines[1..];
        }
      }
    }
  }

  /** A leading delimiter makes an empty line, which is skipped. */
  lemma LeadingNewlineSkipped(s: string)
    ensures NonEmpty(Frames([Newline] + s)) == NonEmpty(Frames(s))
  {
    FramesAroundNewline([], s);
    assert [] + [Newline] + s == [Newline] + s;
    assert Frames([]) == [] && Rest([]) == [];
    assert Frames([Newline] + s) == [[]] + Frames(s);
    NonEmptyAppend([[]], Frames(s));
  }

  /** Two consecutive delimiters make an empty line, which is skipped; the
      lines on either side are dispatched as with a single delimiter. */
  lemma ConsecutiveNewlinesSkipped(x: string, y: string)
    ensures NonEmpty(Frames(x + [Newline, Newline] + y)) == NonEmpty(Frames(x + [Newline] + y))
  {
    FramesAroundNewline(x, [Newline] + y);
    assert x + [Newline, Newline] + y == x + [Newline] + ([Newline] + y);
    LeadingNewlineSkipped(y);
    FramesAroundNewline(x, y);
    NonEmptyAppend(Frames(x) + [Rest(x)], Frames([Newline] + y));
    NonEmptyAppend(Frames(x) + [Rest(x)], Frames(y));
  }

  lemma {:induction false} RepliesAppend(a: seq<string>, b: seq<string>, process: (nat, string) -> string, n: nat)
    ensures Replies(a + b, process, n) == Replies(a, process, n) + Replies(b, process, n + |a|)
  {
    if a == [] {
      assert a + b == b;
    } else {
      assert (a + b)[0] == a[0];
      assert (a + b)[1..] == a[1..] + b;
      RepliesAppend(a[1..], b, process, n + 1);
    }
  }

  /** `r` is the bytes sent for some line of `lines`, numbered from `n`: its
      non-empty reply followed by one delimiter. */
  ghost predicate ReplyTo(r: string, lines: seq<string>, process: (nat, string) -> string, n: nat) {
    exists i :: 0 <= i < |lines| && process(n + i, lines[i]) != [] && r == process(n + i, lines[i]) + [Newline]
  }

  /** Every send carries one non-empty reply of the handler to a dispatched
      line followed by exactly one delimiter; a handler that answers nothing
      makes the connection send nothing; a handler that answers every line
      makes the connection send each reply, in the order of the lines. */
  lemma {:induction false} RepliesFramed(lines: seq<string>, process: (nat, string) -> string, n: nat)
    ensures forall k :: 0 <= k < |Replies(lines, process, n)| ==>
              ReplyTo(Replies(lines, process, n)[k], lines, process, n)
    ensures (forall i :: 0 <= i < |lines| ==> process(n + i, lines[i]) == []) ==>
              Replies(lines, process, n) == []
    ensures (forall i :: 0 <= i < |lines| ==> process(n + i, lines[i]) != []) ==>
              |Replies(lines, process, n)| == |lines| &&
              forall i :: 0 <= i < |lines| ==> Replies(lines, process, n)[i] == process(n + i, lines[i]) + [Newline]
    ensures |Replies(lines, process, n)| <= |lines|
  {
    if lines != [] {
      RepliesFramed(lines[1..], process, n + 1);
      var rs := Replies(lines, process, n);
      var tail := Replies(lines[1..], process, n + 1);
      var reply := process(n, lines[0]);
      var head := if reply == [] then [] else [reply + [Newline]];
      assert rs == head + tail;
      assert forall i :: 0 <= i < |lines[1..]| ==> lines[1..][i] == lines[i + 1];
      forall k | 0 <= k < |rs|
        ensures ReplyTo(rs[k], lines, process, n)
      {
        if k < |head| {
          assert reply != [] && rs[k] == process(n + 0, lines[0]) + [Newline];
        } else {
          assert rs[k] == tail[k - |head|];
          assert ReplyTo(tail[k - |head|], lines[1..], process, n + 1);
          var j :| 0 <= j < |lines[1..]| && process(n + 1 + j, lines[1..][j]) != [] &&
                   tail[k - |head|] == process(n + 1 + j, lines[1..][j]) + [Newline];
          assert n + 1 + j == n + (j + 1);
        }
      }
      if forall i :: 0 <= i < |lines| ==> process(n + i, lines[i]) == [] {
        assert process(n + 0, lines[0]) == [];
        forall i | 0 <= i < |lines[1..]| ensures process(n + 1 + i, lines[1..][i]) == [] {
          assert n + 1 + i == n + (i + 1);
        }
      }
    }
    if forall i :: 0 <= i < |lines| ==> process(n + i, lines[i]) != [] {
      RepliesAllSent(lines, process, n);
    }
  }

  /** When the handler answers every line, each line's reply is sent, in
      the order of the lines. */
  lemma {:induction false} RepliesAllSent(lines: seq<string>, process: (nat, string) -> string, n: nat)
    requires forall i :: 0 <= i < |lines| ==> process(n + i, lines[i]) != []
    ensures |Replies(lines, process, n)| == |lines|
    ensures forall i :: 0 <= i < |lines| ==> Replies(lines, process, n)[i] == process(n + i, lines[i]) + [Newline]
  {
    if lines != [] {
      forall i | 0 <= i < |lines[1..]| ensures process(n + 1 + i, lines[1..][i]) != [] {
        assert lines[1..][i] == lines[i + 1];
        assert n + 1 + i == n + (i + 1);
      }
      RepliesAllSent(lines[1..], process, n + 1);
      var rs := Replies(lines, process, n);
      var tail := Replies(lines[1..], process, n + 1);
      assert process(n + 0, lines[0]) != [];
      assert rs == [process(n, lines[0]) + [Newline]] + tail;
      forall i | 0 <= i < |lines| ensures rs[i] == process(n + i, lines[i]) + [Newline] {
        if i > 0 {
          assert rs[i] == tail[i - 1];
          assert lines[1..][i - 1] == lines[i];
          assert n + 1 + (i - 1) == n + i;
        }
      }
    }
  }

  /** Cutting the first line off a buffer that holds a delimiter. */
  lemma CutFirstLine(s: string, p: nat)
    requires p == IndexOf(s, Newline) < |s|
    ensures Frames(s) == [s[..p]] + Frames(s[p + 1..])
    ensures Rest(s) == Rest(s[p + 1..])
  {
  }

  /** The per-connection receive buffer (`data_buffer`) and the inner loop
      that empties it of complete lines after every receive. */
  class LineBuffer {
    var data: string

    constructor ()
      ensures data == []
    {
      data := [];
    }

    /** Appends a received chunk, then dispatches every complete non-empty
        line in order and keeps the unterminated remainder. `served` is the
        number of lines this connection dispatched before. Returns the
        dispatched lines and the byte strings sent, one per send. */
    method Feed(chunk: string, process: (nat, string) -> string, served: nat)
      returns (lines: seq<string>, sent: seq<string>)
      modifies this
      ensures data == Rest(old(data) + chunk)
      ensures NoNewline(data)
      ensures lines == NonEmpty(Frames(old(data) + chunk))
      ensures sent == Replies(lines, process, served)
    {
      data := data + chunk;
      ghost var received := data;
      ghost var cut: seq<string> := [];
      lines, sent := [], [];
      var pos := IndexOf(data, Newline);
      while pos < |data|
        invariant pos == IndexOf(data, Newline)
        invariant Frames(received) == cut + Frames(data)
        invariant Rest(received) == Rest(data)
        invariant lines == NonEmpty(cut)
        invariant sent == Replies(lines, process, served)
        decreases |data|
      {
        var line := data[..pos];
        CutFirstLine(data, pos);
        assert cut + ([line] + Frames(data[pos + 1..])) == cut + [line] + Frames(data[pos + 1..]);
        data := data[pos + 1..];
        NonEmptyAppend(cut, [line]);
        cut := cut + [line];
        if line != [] {
          RepliesAppend(lines, [line], process, served);
          var response := process(served + |lines|, line);
          lines := lines + [line];
          if response != [] {
            sent := sent + [response + [Newline]];
          }
        } else {
          assert NonEmpty([line]) == [];
        }
        pos := IndexOf(data, Newline);
      }
      assert Frames(data) == [];
      assert cut + [] == cut;
      RestHasNoNewline(received);
    }
  }

  /** One connection from the first receive to the disconnect: every chunk
      is fed to a fresh buffer. Whatever the chunk boundaries, the lines
      dispatched and the replies sent depend only on the concatenated input;
      the unterminated tail is dropped with the buffer. */
  method HandleClient(chunks: seq<string>, process: (nat, string) -> string)
    returns (dispatched: seq<string>, sent: seq<string>, unterminated: string)
    ensures dispatched == NonEmpty(Frames(Concat(chunks)))
    ensures sent == Replies(dispatched, process, 0)
    ensures unterminated == Rest(Concat(chunks))
  {
    var reader := new LineBuffer();
    dispatched, sent := [], [];
    var i := 0;
    while i < |chunks|
      invariant 0 <= i <= |chunks|
      invariant reader.data == Rest(Concat(chunks[..i]))
      invariant dispatched == NonEmpty(Frames(Concat(chunks[..i])))
      invariant sent == Replies(dispatched, process, 0)
    {
      var received := Concat(chunks[..i]);
      var lines, out := reader.Feed(chunks[i], process, |dispatched|);
      assert chunks[..i + 1][..i] == chunks[..i];
      assert Concat(chunks[..i + 1]) == received + chunks[i];
      FramesAppend(received, chunks[i]);
      NonEmptyAppend(Frames(received), Frames(Rest(received) + chunks[i]));
      RepliesAppend(dispatched, lines, process, 0);
      dispatched := dispatched + lines;
      sent := sent + out;
      i := i + 1;
    }
    assert chunks[..|chunks|] == chunks;
    unterminated := reader.data;
  }
}
