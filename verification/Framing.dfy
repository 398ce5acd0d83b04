/** Messages framed by a Content-Length header: editors/vscode/extension.js:186-219 and src/lsp.rs:174-220. */
module Framing {
  import opened Ast
  import Tokens

  /** A byte is a character below 256. */
  type Bytes = string

  const SEPARATOR: Bytes := "\r\n\r\n"

  // ---- Finding the header ----

  function IndexOf(s: Bytes, pattern: Bytes): (r: Option<nat>)
    ensures r.Some? ==> r.value + |pattern| <= |s| && s[r.value..r.value + |pattern|] == pattern
  {
    if |s| < |pattern| then None
    else if s[..|pattern|] == pattern then Some(0)
    else if s == [] then None
    else
      var rest :- IndexOf(s[1..], pattern);
      assert s[1..][rest..rest + |pattern|] == s[rest + 1..rest + 1 + |pattern|];
      Some(rest + 1)
  }

  /** Decoding as ASCII drops the high bit. */
  function Ascii(s: Bytes): string
  {
    if s == [] then [] else [(s[0] as int % 128) as char] + Ascii(s[1..])
  }

  function Lower(c: char): char { if 'A' <= c <= 'Z' then c - 'A' + 'a' else c }

  const FIELD: string := "content-length:"

  predicate FieldAt(s: string) { |s| >= |FIELD| && forall i :: 0 <= i < |FIELD| ==> Lower(s[i]) == FIELD[i] }

  function SkipSpace(s: string): string
  {
    if s != [] && (s[0] == ' ' || '\t' <= s[0] <= '\r') then SkipSpace(s[1..]) else s
  }

  /** The number after the first field name that has one. */
  function LengthIn(header: string): Option<nat>
  {
    if header == [] then None
    else
      var after := if FieldAt(header) then SkipSpace(header[|FIELD|..]) else [];
      var n := Tokens.DigitRun(after);
      if n > 0 then Some(Tokens.DecimalValue(after[..n])) else LengthIn(header[1..])
  }

  // ---- Taking messages off a buffer ----

  datatype Taken = Taken(bodies: seq<Bytes>, rest: Bytes)

  /** Every message that is complete; headers without a length are skipped. */
  function Drain(buffer: Bytes): Taken
    decreases |buffer|
  {
    var end := IndexOf(buffer, SEPARATOR);
    if end.None? then Taken([], buffer)
    else
      var start := end.value + 4;
      var length := LengthIn(Ascii(buffer[..end.value]));
      if length.None? then Drain(buffer[start..])
      else if |buffer| < start + length.value then Taken([], buffer)
      else
        var more := Drain(buffer[start + length.value..]);
        Taken([buffer[start..start + length.value]] + more.bodies, more.rest)
  }

  class LspClient {
    var buffer: Bytes
    var handled: seq<Bytes>

    constructor ()
      ensures buffer == [] && handled == []
    {
      buffer := [];
      handled := [];
    }

    method HandleData(chunk: Bytes)
      modifies this
      ensures
        var taken := Drain(old(buffer) + chunk);
        buffer == taken.rest && handled == old(handled) + taken.bodies
    {
      buffer := buffer + chunk;
      ghost var all := buffer;
      while true
        invariant
          var whole := Drain(all);
          var left := Drain(buffer);
          whole.rest == left.rest && old(handled) + whole.bodies == handled + left.bodies
        decreases |buffer|
      {
        var headerEnd := IndexOf(buffer, SEPARATOR);
        if headerEnd.None? {
          return;
        }
        var header := Ascii(buffer[..headerEnd.value]);
        var length := LengthIn(header);
        if length.None? {
          buffer := buffer[headerEnd.value + 4..];
          continue;
        }
        var bodyStart := headerEnd.value + 4;
        var bodyEnd := bodyStart + length.value;
        if |buffer| < bodyEnd {
          return;
        }
        var body := buffer[bodyStart..bodyEnd];
        ghost var more := Drain(buffer[bodyEnd..]);
        assert handled + ([body] + more.bodies) == handled + [body] + more.bodies;
        buffer := buffer[bodyEnd..];
        handled := handled + [body];
      }
    }
  }

  // ---- Chunks ----

  /** A separator stays the first one when more bytes arrive. */
  lemma {:induction false} IndexOfPrefix(s: Bytes, more: Bytes, pattern: Bytes)
    requires IndexOf(s, pattern).Some?
    ensures IndexOf(s + more, pattern) == IndexOf(s, pattern)
  {
    assert (s + more)[..|pattern|] == s[..|pattern|];
    if s[..|pattern|] != pattern {
      assert (s + more)[1..] == s[1..] + more;
      IndexOfPrefix(s[1..], more, pattern);
    }
  }

  /** What stands first in a buffer: nothing complete, a header to skip, or a message. */
  datatype Head = Waiting | Skipped(next: nat) | Complete(start: nat, next: nat)

  function HeadOf(buffer: Bytes): (h: Head)
    ensures h.Skipped? ==> 0 < h.next <= |buffer|
    ensures h.Complete? ==> 0 < h.start <= h.next <= |buffer|
  {
    var end := IndexOf(buffer, SEPARATOR);
    if end.None? then Waiting
    else
      var start := end.value + 4;
      var length := LengthIn(Ascii(buffer[..end.value]));
      if length.None? then Skipped(start)
      else if |buffer| < start + length.value then Waiting
      else Complete(start, start + length.value)
  }

  lemma DrainHead(buffer: Bytes)
    ensures HeadOf(buffer).Waiting? ==> Drain(buffer) == Taken([], buffer)
    ensures HeadOf(buffer).Skipped? ==> Drain(buffer) == Drain(buffer[HeadOf(buffer).next..])
    ensures HeadOf(buffer).Complete? ==>
      var h := HeadOf(buffer);
      var more := Drain(buffer[h.next..]);
      Drain(buffer) == Taken([buffer[h.start..h.next]] + more.bodies, more.rest)
  {
    hide LengthIn, Ascii, IndexOf;
  }

  lemma HeadStays(b: Bytes, c: Bytes)
    ensures HeadOf(b).Waiting? || HeadOf(b + c) == HeadOf(b)
  {
    hide LengthIn, Ascii;
    if IndexOf(b, SEPARATOR).Some? {
      IndexOfPrefix(b, c, SEPARATOR);
      var end := IndexOf(b, SEPARATOR).value;
      assert (b + c)[..end] == b[..end];
    }
  }

  /** Draining early and draining again is draining once. */
  lemma {:induction false} DrainInTwo(b: Bytes, c: Bytes)
    ensures
      var first := Drain(b);
      var second := Drain(first.rest + c);
      Drain(b + c) == Taken(first.bodies + second.bodies, second.rest)
    decreases |b|
  {
    hide Drain, HeadOf;
    DrainHead(b);
    HeadStays(b, c);
    match HeadOf(b)
    case Waiting =>
    case Skipped(next) =>
      DrainHead(b + c);
      assert (b + c)[next..] == b[next..] + c;
      DrainInTwo(b[next..], c);
    case Complete(start, next) =>
      DrainHead(b + c);
      assert (b + c)[start..next] == b[start..next];
      assert (b + c)[next..] == b[next..] + c;
      DrainInTwo(b[next..], c);
  }

  /** What is left over is not drained any further. */
  lemma {:induction false} RestIsDrained(b: Bytes)
    ensures Drain(Drain(b).rest) == Taken([], Drain(b).rest)
    decreases |b|
  {
    hide Drain, HeadOf;
    DrainHead(b);
    match HeadOf(b)
    case Waiting =>
    case Skipped(next) => RestIsDrained(b[next..]);
    case Complete(_, next) => RestIsDrained(b[next..]);
  }

  function Joined(chunks: seq<Bytes>): Bytes
  {
    if chunks == [] then [] else chunks[0] + Joined(chunks[1..])
  }

  /** `HandleData` for one chunk after the other. */
  function Feed(buffer: Bytes, chunks: seq<Bytes>): Taken
    decreases |chunks|
  {
    if chunks == [] then Taken([], buffer) else
      var first := Drain(buffer + chunks[0]);
      var more := Feed(first.rest, chunks[1..]);
      Taken(first.bodies + more.bodies, more.rest)
  }

  /** However the bytes are cut up, the same messages come out and the same bytes stay. */
  lemma {:induction false} ChunksDoNotMatter(buffer: Bytes, chunks: seq<Bytes>)
    requires Drain(buffer) == Taken([], buffer)
    ensures Feed(buffer, chunks) == Drain(buffer + Joined(chunks))
    decreases |chunks|
  {
    hide Drain;
    if chunks == [] {
      assert buffer + Joined(chunks) == buffer;
    } else {
      var first := Drain(buffer + chunks[0]);
      RestIsDrained(buffer + chunks[0]);
      ChunksDoNotMatter(first.rest, chunks[1..]);
      DrainInTwo(buffer + chunks[0], Joined(chunks[1..]));
      assert buffer + chunks[0] + Joined(chunks[1..]) == buffer + Joined(chunks);
    }
  }

  // ---- Frames ----

  function Frame(body: Bytes): Bytes { "Content-Length: " + Tokens.DecimalText(|body|) + SEPARATOR + body }

  function Frames(bodies: seq<Bytes>): Bytes
  {
    if bodies == [] then [] else Frame(bodies[0]) + Frames(bodies[1..])
  }

  lemma {:induction false} SeparatorComesFirst(header: Bytes, more: Bytes)
    requires forall i :: 0 <= i < |header| ==> header[i] != '\r'
    ensures IndexOf(header + SEPARATOR + more, SEPARATOR) == Some(|header|)
  {
    var s := header + SEPARATOR + more;
    if header == [] {
      assert s[..4] == SEPARATOR;
    } else {
      assert s[0] != SEPARATOR[0] && s[..4][0] == s[0];
      assert s[1..] == header[1..] + SEPARATOR + more;
      SeparatorComesFirst(header[1..], more);
    }
  }

  lemma {:induction false} AsciiStays(s: Bytes)
    requires forall i :: 0 <= i < |s| ==> s[i] < 128 as char
    ensures Ascii(s) == s
  {
    if s != [] { AsciiStays(s[1..]); }
  }

  lemma FieldFound(after: string)
    ensures FieldAt("Content-Length:" + after) && ("Content-Length:" + after)[|FIELD|..] == after
  {
    var name := "Content-Length:";
    assert forall i :: 0 <= i < |FIELD| ==> (name + after)[i] == name[i];
  }

  lemma SpaceSkipped(digits: string)
    requires digits != [] && Tokens.AllDigits(digits)
    ensures SkipSpace(" " + digits) == digits
  {
    assert (" " + digits)[1..] == digits;
  }

  lemma HeaderTells(n: nat)
    ensures
      var header := "Content-Length: " + Tokens.DecimalText(n);
      LengthIn(Ascii(header)) == Some(n) && forall i :: 0 <= i < |header| ==> header[i] != '\r'
  {
    hide Ascii, SkipSpace;
    var digits := Tokens.DecimalText(n);
    var header := "Content-Length: " + digits;
    AsciiStays(header);
    FieldFound(" " + digits);
    assert header == "Content-Length:" + (" " + digits);
    SpaceSkipped(digits);
    Tokens.DigitRunOf(digits, []);
    assert digits + [] == digits && digits[..|digits|] == digits;
    Tokens.DecimalRoundTrip(n);
  }

  lemma FrameIsTaken(body: Bytes, more: Bytes)
    ensures
      var taken := Drain(more);
      Drain(Frame(body) + more) == Taken([body] + taken.bodies, taken.rest)
  {
    var header := "Content-Length: " + Tokens.DecimalText(|body|);
    var s := Frame(body) + more;
    HeaderTells(|body|);
    assert s == header + SEPARATOR + (body + more);
    SeparatorComesFirst(header, body + more);
    assert s[..|header|] == header;
    assert s[|header| + 4..|header| + 4 + |body|] == body;
    assert s[|header| + 4 + |body|..] == more;
  }

  lemma {:induction false} FramesAreTaken(bodies: seq<Bytes>)
    ensures Drain(Frames(bodies)) == Taken(bodies, [])
  {
    if bodies != [] {
      FrameIsTaken(bodies[0], Frames(bodies[1..]));
      FramesAreTaken(bodies[1..]);
      assert bodies == [bodies[0]] + bodies[1..];
    }
  }

  /** Sent messages arrive in order and nothing is left, however the stream is cut up. */
  lemma SentMessagesArrive(bodies: seq<Bytes>, chunks: seq<Bytes>)
    requires Joined(chunks) == Frames(bodies)
    ensures Feed([], chunks) == Taken(bodies, [])
  {
    assert [] + Joined(chunks) == Frames(bodies);
    ChunksDoNotMatter([], chunks);
    FramesAreTaken(bodies);
  }

  // ---- The server's reader, src/lsp.rs:174-196 ----

  const USIZE: int := 0x1_0000_0000_0000_0000

  /** The length of the first line, with its end. */
  function LineLength(s: Bytes): (n: nat)
    ensures n <= |s| && (s != [] ==> n > 0)
  {
    if s == [] then 0 else if s[0] == '\n' then 1 else 1 + LineLength(s[1..])
  }

  function TrimLineEnd(line: Bytes): (r: Bytes)
    ensures |r| <= |line|
  {
    if line != [] && (line[|line| - 1] == '\r' || line[|line| - 1] == '\n') then TrimLineEnd(line[..|line| - 1]) else line
  }

  predicate IsSpace(c: char) { c == ' ' || '\t' <= c <= '\r' }

  function TrimSpaces(s: string): string
    decreases |s|
  {
    if s != [] && IsSpace(s[0]) then TrimSpaces(s[1..])
    else if s != [] && IsSpace(s[|s| - 1]) then TrimSpaces(s[..|s| - 1])
    else s
  }

  function ParseUsize(s: string): Option<nat>
  {
    var t := if s != [] && s[0] == '+' then s[1..] else s;
    if t != [] && Tokens.AllDigits(t) && Tokens.DecimalValue(t) < USIZE then Some(Tokens.DecimalValue(t)) else None
  }

  const FIELD_NAME: string := "Content-Length:"

  /** A later length replaces an earlier one, even when it cannot be read. */
  function LengthAfter(line: Bytes, length: Option<nat>): Option<nat>
  {
    if FIELD_NAME <= line then ParseUsize(TrimSpaces(line[|FIELD_NAME|..])) else length
  }

  /** The length and the rest of the input behind the empty line; nothing when the input ends before it. */
  function ReadHeader(input: Bytes, length: Option<nat>): Option<(Option<nat>, Bytes)>
    decreases |input|
  {
    if input == [] then None
    else
      var n := LineLength(input);
      var line := TrimLineEnd(input[..n]);
      if line == [] then Some((length, input[n..])) else ReadHeader(input[n..], LengthAfter(line, length))
  }

  datatype Reading = Message(body: Bytes, rest: Bytes) | Closed | Broken

  function ReadFrom(input: Bytes): Reading
  {
    var header := ReadHeader(input, None);
    if header.None? || header.value.0.None? then Closed
    else
      var (length, rest) := header.value;
      if |rest| < length.value then Broken else Message(rest[..length.value], rest[length.value..])
  }

  class Reader {
    var input: Bytes

    constructor (input: Bytes)
      ensures this.input == input
    {
      this.input := input;
    }

    method ReadMessage() returns (r: Reading)
      modifies this
      ensures r == ReadFrom(old(input))
      ensures r.Message? ==> input == r.rest
    {
      var contentLength: Option<nat> := None;
      while true
        invariant ReadHeader(input, contentLength) == ReadHeader(old(input), None)
        decreases |input|
      {
        var n := LineLength(input);
        var line := input[..n];
        input := input[n..];
        if n == 0 {
          return Closed;
        }
        var trimmed := TrimLineEnd(line);
        if trimmed == [] {
          break;
        }
        if FIELD_NAME <= trimmed {
          contentLength := ParseUsize(TrimSpaces(trimmed[|FIELD_NAME|..]));
        }
      }
      if contentLength.None? {
        return Closed;
      }
      if |input| < contentLength.value {
        return Broken;
      }
      var body := input[..contentLength.value];
      input := input[contentLength.value..];
      return Message(body, input);
    }
  }

  lemma {:induction false} LineEnds(line: Bytes, more: Bytes)
    requires forall i :: 0 <= i < |line| ==> line[i] != '\n'
    ensures LineLength(line + "\n" + more) == |line| + 1
  {
    var s := line + "\n" + more;
    if line != [] {
      assert s[1..] == line[1..] + "\n" + more;
      LineEnds(line[1..], more);
    }
  }

  /** What the client sends, the server reads: both ends agree on a frame. */
  lemma ServerReadsFrame(body: Bytes, more: Bytes)
    requires |body| < USIZE
    ensures ReadFrom(Frame(body) + more) == Message(body, more)
  {
    hide ParseUsize, LineLength, TrimLineEnd;
    var digits := Tokens.DecimalText(|body|);
    var line := FIELD_NAME + " " + digits;
    var s := Frame(body) + more;
    var after := "\r\n" + body + more;
    assert s == line + "\r\n" + after;
    assert LengthAfter(line, None) == Some(|body|) by {
      LengthRead(|body|);
      assert line[|FIELD_NAME|..] == " " + digits;
    }
    FieldRead(line, after, None);
    HeaderEnds(body + more, Some(|body|));
    assert after == "\r\n" + (body + more);
    hide ReadHeader;
    assert (body + more)[..|body|] == body && (body + more)[|body|..] == more;
  }

  lemma FieldRead(line: Bytes, after: Bytes, length: Option<nat>)
    requires line != [] && line[|line| - 1] != '\r' && forall i :: 0 <= i < |line| ==> line[i] != '\n'
    ensures ReadHeader(line + "\r\n" + after, length) == ReadHeader(after, LengthAfter(line, length))
  {
    hide LengthAfter, TrimLineEnd, LineLength;
    var s := line + "\r\n" + after;
    assert s == (line + "\r") + "\n" + after;
    LineEnds(line + "\r", after);
    assert s[..|line| + 2] == line + "\r" + "\n" && s[|line| + 2..] == after;
    LineTrimmed(line);
  }

  lemma HeaderEnds(rest: Bytes, length: Option<nat>)
    ensures ReadHeader("\r\n" + rest, length) == Some((length, rest))
  {
    hide TrimLineEnd, LineLength;
    var s := "\r\n" + rest;
    assert s == "\r" + "\n" + rest;
    LineEnds("\r", rest);
    assert s[..2] == "\r\n" && s[2..] == rest;
    EmptyLineTrimmed();
  }

  lemma LineTrimmed(line: Bytes)
    requires line != [] && line[|line| - 1] != '\r' && line[|line| - 1] != '\n'
    ensures TrimLineEnd(line + "\r" + "\n") == line
  {
    assert TrimLineEnd(line) == line;
    assert (line + "\r" + "\n")[..|line| + 1] == line + "\r";
    assert (line + "\r")[..|line|] == line;
  }

  lemma EmptyLineTrimmed()
    ensures TrimLineEnd("\r\n") == []
  {
    assert "\r\n"[..1] == "\r" && "\r"[..0] == [];
  }

  lemma LengthRead(n: nat)
    requires n < USIZE
    ensures ParseUsize(TrimSpaces(" " + Tokens.DecimalText(n))) == Some(n)
  {
    var digits := Tokens.DecimalText(n);
    assert (" " + digits)[1..] == digits;
    assert Tokens.IsDigit(digits[0]) && Tokens.IsDigit(digits[|digits| - 1]);
    assert TrimSpaces(digits) == digits;
    Tokens.DecimalRoundTrip(n);
  }
}
