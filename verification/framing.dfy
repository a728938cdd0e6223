/** Newline-delimited framing over a stream that arrives in arbitrary chunks
    (plugins/core/ipc.js). */
module Framing {
  import opened Text

  /** What JavaScript's `trim` removes: its white space and its line terminators. */
  predicate IsJsSpace(c: char) {
    || '\U{0009}' <= c <= '\U{000D}'
    || c == ' ' || c == '\U{00A0}' || c == '\U{FEFF}' || c == '\U{1680}'
    || '\U{2000}' <= c <= '\U{200A}'
    || c == '\U{2028}' || c == '\U{2029}' || c == '\U{202F}' || c == '\U{205F}' || c == '\U{3000}'
  }

  /** The place of the first newline, or the length of the text. */
  function NewlineAt(s: string): (i: nat)
    ensures i <= |s|
  {
    if s == [] || s[0] == '\n' then 0 else 1 + NewlineAt(s[1..])
  }

  lemma {:induction false} NewlineIsFirst(s: string)
    ensures OneLine(s[..NewlineAt(s)]) && (NewlineAt(s) < |s| ==> s[NewlineAt(s)] == '\n')
  {
    if s != [] && s[0] != '\n' {
      NewlineIsFirst(s[1..]);
      assert s[..NewlineAt(s)] == [s[0]] + s[1..][..NewlineAt(s[1..])];
    }
  }

  /** The newline-terminated segments of `s`, without their newlines. */
  function Segments(s: string): seq<string>
    decreases |s|
  {
    var i := NewlineAt(s);
    if i == |s| then [] else [s[..i]] + Segments(s[i + 1..])
  }

  /** What follows the last newline. */
  function Remainder(s: string): string
    decreases |s|
  {
    var i := NewlineAt(s);
    if i == |s| then s else Remainder(s[i + 1..])
  }

  /** One segment as the callback sees it: trimmed, and not at all if nothing is left. */
  function Line(segment: string): seq<string> {
    var t := Trim(IsJsSpace, segment);
    if t == "" then [] else [t]
  }

  function Lines(segments: seq<string>): seq<string> {
    if segments == [] then [] else Line(segments[0]) + Lines(segments[1..])
  }

  /** The stream that has these segments and this unterminated end. */
  function Stream(segments: seq<string>, rest: string): string {
    if segments == [] then rest else segments[0] + "\n" + Stream(segments[1..], rest)
  }

  predicate OneLine(s: string) { '\n' !in s }

  lemma {:induction false} FirstNewline(g: string, rest: string)
    requires OneLine(g)
    ensures NewlineAt(g + "\n" + rest) == |g|
  {
    if g != "" {
      assert g[0] in g && OneLine(g[1..]);
      FirstNewline(g[1..], rest);
      assert (g + "\n" + rest)[1..] == g[1..] + "\n" + rest;
    }
  }

  lemma {:induction false} NoNewline(s: string)
    requires OneLine(s)
    ensures NewlineAt(s) == |s|
  {
    if s != "" {
      assert s[0] in s;
      NoNewline(s[1..]);
    }
  }

  lemma {:induction false} SegmentsOfStream(segments: seq<string>, rest: string)
    requires OneLine(rest) && forall g | g in segments :: OneLine(g)
    ensures Segments(Stream(segments, rest)) == segments && Remainder(Stream(segments, rest)) == rest
  {
    if segments == [] {
      NoNewline(rest);
    } else {
      var s, g, tail := Stream(segments, rest), segments[0], Stream(segments[1..], rest);
      FirstNewline(g, tail);
      assert s[..|g|] == g && s[|g| + 1..] == tail;
      SegmentsOfStream(segments[1..], rest);
    }
  }

  lemma {:induction false} StreamOfSegments(s: string)
    ensures Stream(Segments(s), Remainder(s)) == s && OneLine(Remainder(s))
    ensures forall g | g in Segments(s) :: OneLine(g)
    decreases |s|
  {
    var i := NewlineAt(s);
    NewlineIsFirst(s);
    if i == |s| {
      assert s[..i] == s;
    } else {
      StreamOfSegments(s[i + 1..]);
      assert s == s[..i] + "\n" + s[i + 1..];
      assert Segments(s)[1..] == Segments(s[i + 1..]);
    }
  }

  lemma {:induction false} StreamConcat(xs: seq<string>, ys: seq<string>, rest: string)
    ensures Stream(xs + ys, rest) == Stream(xs, Stream(ys, rest))
  {
    if xs == [] {
      assert xs + ys == ys;
    } else {
      StreamConcat(xs[1..], ys, rest);
      assert (xs + ys)[1..] == xs[1..] + ys;
    }
  }

  lemma {:induction false} StreamAppend(xs: seq<string>, rest: string, more: string)
    ensures Stream(xs, rest) + more == Stream(xs, rest + more)
  {
    if xs != [] {
      StreamAppend(xs[1..], rest, more);
    }
  }

  lemma {:induction false} LinesConcat(xs: seq<string>, ys: seq<string>)
    ensures Lines(xs + ys) == Lines(xs) + Lines(ys)
  {
    if xs == [] {
      assert xs + ys == ys;
    } else {
      LinesConcat(xs[1..], ys);
      assert xs + ys == [xs[0]] + (xs[1..] + ys) && xs == [xs[0]] + xs[1..];
      LinesCons(xs[0], xs[1..] + ys);
      LinesCons(xs[0], xs[1..]);
      Associative(Line(xs[0]), Lines(xs[1..]), Lines(ys));
    }
  }

  /** Reading on after a prefix: only its unterminated end has to be kept. */
  lemma ResumeAfter(a: string, b: string)
    ensures Segments(a + b) == Segments(a) + Segments(Remainder(a) + b)
    ensures Remainder(a + b) == Remainder(Remainder(a) + b)
  {
    var xs, r := Segments(a), Remainder(a);
    var ys, r' := Segments(r + b), Remainder(r + b);
    StreamOfSegments(a);
    StreamOfSegments(r + b);
    StreamAppend(xs, r, b);
    StreamConcat(xs, ys, r');
    SegmentsOfStream(xs + ys, r');
  }

  lemma CutStep(s: string, i: nat, rest: string)
    requires i == NewlineAt(s) && i < |s| && rest == s[i + 1..]
    ensures Segments(s) == [s[..i]] + Segments(rest) && Remainder(s) == Remainder(rest)
  {
  }

  lemma LinesCons(g: string, segments: seq<string>)
    ensures Lines([g] + segments) == Line(g) + Lines(segments)
  {
    assert ([g] + segments)[1..] == segments;
  }

  /** Moving one line from the buffer to the output changes nothing of what is due in all. */
  lemma LinesStep(g: string, segments: seq<string>, before: seq<string>, due: seq<string>)
    requires before + Lines([g] + segments) == due
    ensures (before + Line(g)) + Lines(segments) == due
  {
    LinesCons(g, segments);
    Associative(before, Line(g), Lines(segments));
  }

  lemma Associative(a: seq<string>, b: seq<string>, c: seq<string>)
    ensures (a + b) + c == a + (b + c)
  {
  }

  /** The reader with its buffer. */
  class LineReader {
    var buf: string

    constructor ()
      ensures buf == ""
    {
      buf := "";
    }

    method Feed(chunk: string) returns (lines: seq<string>)
      modifies this
      ensures lines == Lines(Segments(old(buf) + chunk))
      ensures buf == Remainder(old(buf) + chunk)
    {
      buf := buf + chunk;
      lines := [];
      ghost var all := buf;
      var i := NewlineAt(buf);
      while i < |buf|
        invariant i == NewlineAt(buf)
        invariant lines + Lines(Segments(buf)) == Lines(Segments(all))
        invariant Remainder(buf) == Remainder(all)
        decreases |buf|
      {
        CutStep(buf, i, buf[i + 1..]);
        LinesStep(buf[..i], Segments(buf[i + 1..]), lines, Lines(Segments(all)));
        lines := lines + Line(buf[..i]);
        buf := buf[i + 1..];
        i := NewlineAt(buf);
      }
    }
  }

  function Flatten(chunks: seq<string>): string {
    if chunks == [] then "" else Flatten(chunks[..|chunks| - 1]) + chunks[|chunks| - 1]
  }

  /** What a new reader holds, and has emitted, after these chunks one by one. */
  function Held(chunks: seq<string>): string {
    if chunks == [] then "" else Remainder(Held(chunks[..|chunks| - 1]) + chunks[|chunks| - 1])
  }

  function Emitted(chunks: seq<string>): seq<string> {
    if chunks == [] then []
    else Emitted(chunks[..|chunks| - 1]) + Lines(Segments(Held(chunks[..|chunks| - 1]) + chunks[|chunks| - 1]))
  }

  /** However the stream is cut, the reader emits the trimmed non-empty terminated segments of
      the whole stream, in order, and holds exactly its unterminated end. */
  lemma {:induction false} ChunkingIrrelevant(chunks: seq<string>)
    ensures Emitted(chunks) == Lines(Segments(Flatten(chunks)))
    ensures Held(chunks) == Remainder(Flatten(chunks))
  {
    if chunks != [] {
      var before, last := chunks[..|chunks| - 1], chunks[|chunks| - 1];
      ChunkingIrrelevant(before);
      ResumeAfter(Flatten(before), last);
      LinesConcat(Segments(Flatten(before)), Segments(Held(before) + last));
    }
  }

  /** Feeding a new reader the chunks in turn does just that. */
  method FeedAll(chunks: seq<string>) returns (lines: seq<string>, held: string)
    ensures lines == Lines(Segments(Flatten(chunks))) && held == Remainder(Flatten(chunks))
  {
    var reader := new LineReader();
    lines := [];
    for i := 0 to |chunks|
      invariant lines == Emitted(chunks[..i]) && reader.buf == Held(chunks[..i])
    {
      assert chunks[..i + 1][..i] == chunks[..i];
      var more := reader.Feed(chunks[i]);
      lines := lines + more;
    }
    assert chunks[..|chunks|] == chunks;
    ChunkingIrrelevant(chunks);
    held := reader.buf;
  }

  /** A message that survives trimming: something, on one line, without space at its ends. */
  predicate IsMessage(m: string) {
    m != "" && OneLine(m) && !IsJsSpace(m[0]) && !IsJsSpace(m[|m| - 1])
  }

  /** A line with nothing to say. */
  predicate IsBlank(m: string) {
    OneLine(m) && forall c | c in m :: IsJsSpace(c)
  }

  function Messages(ms: seq<string>): seq<string> {
    if ms == [] then [] else (if IsBlank(ms[0]) then [] else [ms[0]]) + Messages(ms[1..])
  }

  lemma {:induction false} BlankTrims(s: string)
    requires forall c | c in s :: IsJsSpace(c)
    ensures TrimStart(IsJsSpace, s) == ""
  {
    if s != "" {
      assert s[0] in s && forall c | c in s[1..] :: c in s;
      BlankTrims(s[1..]);
    }
  }

  /** Messages and blank lines as a writer sends them, each ended by a line feed, after a carriage return or not. */
  function Sent(ms: seq<string>, crlf: bool): string {
    if ms == [] then "" else ms[0] + (if crlf then "\r\n" else "\n") + Sent(ms[1..], crlf)
  }

  function Terminated(ms: seq<string>, crlf: bool): (gs: seq<string>)
    ensures |gs| == |ms|
  {
    seq(|ms|, i requires 0 <= i < |ms| => if crlf then ms[i] + "\r" else ms[i])
  }

  lemma {:induction false} SentIsStream(ms: seq<string>, crlf: bool)
    ensures Sent(ms, crlf) == Stream(Terminated(ms, crlf), "")
  {
    if ms != [] {
      SentIsStream(ms[1..], crlf);
      assert Terminated(ms, crlf)[1..] == Terminated(ms[1..], crlf);
      if crlf {
        assert (ms[0] + "\r") + "\n" == ms[0] + "\r\n";
      }
    }
  }

  lemma LineOfMessage(m: string, crlf: bool)
    requires IsMessage(m) || IsBlank(m)
    ensures Line(if crlf then m + "\r" else m) == Messages([m])
  {
    if IsBlank(m) {
      BlankTrims(if crlf then m + "\r" else m);
    } else if crlf {
      var g := m + "\r";
      assert g[0] == m[0] && g[..|g| - 1] == m;
      assert TrimStart(IsJsSpace, g) == g;
      assert TrimEnd(IsJsSpace, g) == TrimEnd(IsJsSpace, m);
    }
  }

  lemma {:induction false} LinesOfMessages(ms: seq<string>, crlf: bool)
    requires forall m | m in ms :: IsMessage(m) || IsBlank(m)
    ensures Lines(Terminated(ms, crlf)) == Messages(ms)
  {
    if ms != [] {
      LineOfMessage(ms[0], crlf);
      LinesOfMessages(ms[1..], crlf);
      assert Terminated(ms, crlf)[1..] == Terminated(ms[1..], crlf);
    }
  }

  /** What is sent is received: however the stream is cut, and whichever line ends the writer
      uses, the reader emits exactly the messages, in order, drops the blank lines between them
      and holds nothing back. */
  lemma SentIsReceived(ms: seq<string>, crlf: bool, chunks: seq<string>)
    requires forall m | m in ms :: IsMessage(m) || IsBlank(m)
    requires Flatten(chunks) == Sent(ms, crlf)
    ensures Emitted(chunks) == Messages(ms) && Held(chunks) == ""
  {
    ChunkingIrrelevant(chunks);
    SentIsStream(ms, crlf);
    var gs := Terminated(ms, crlf);
    forall g | g in gs ensures OneLine(g) {
      var i :| 0 <= i < |gs| && gs[i] == g;
      assert ms[i] in ms;
    }
    SegmentsOfStream(gs, "");
    LinesOfMessages(ms, crlf);
  }

  /** The two notions of white space differ in two characters: NEL, which only the Unicode
      property has, and the byte order mark, which only JavaScript trims. */
  lemma SpacesDiffer(c: char)
    ensures IsJsSpace(c) != IsSpace(c) <==> c == '\U{0085}' || c == '\U{FEFF}'
    ensures !IsJsSpace('\U{0085}')
  {
  }
}
