/** What both ends of a connection take for a header: extension.js:186-219 and src/lsp.rs:174-196. */
module Headers {
  import opened Ast
  import Tokens
  import opened Framing

  // ---- The client ----

  predicate SeparatorAt(s: Bytes, i: nat)
  {
    i + 4 <= |s| && s[i] == '\r' && s[i + 1] == '\n' && s[i + 2] == '\r' && s[i + 3] == '\n'
  }

  predicate SeparatorFirst(s: Bytes, i: nat) { SeparatorAt(s, i) && forall j: nat :: j < i ==> !SeparatorAt(s, j) }

  lemma SeparatorLater(s: Bytes, i: nat)
    requires s != []
    ensures SeparatorAt(s[1..], i) <==> SeparatorAt(s, i + 1)
  {}

  /** The first empty line ends a header. */
  lemma {:induction false} SeparatorFoundIff(s: Bytes, i: nat)
    ensures IndexOf(s, SEPARATOR) == Some(i) <==> SeparatorFirst(s, i)
    decreases |s|
  {
    if |s| >= 4 {
      assert SeparatorAt(s, 0) <==> s[..4] == SEPARATOR;
      if s[..4] != SEPARATOR && i > 0 {
        SeparatorFoundIff(s[1..], i - 1);
        forall j: nat
          ensures SeparatorAt(s[1..], j) <==> SeparatorAt(s, j + 1)
        {
          SeparatorLater(s, j);
        }
        hide SeparatorAt;
        if SeparatorFirst(s[1..], i - 1) {
          forall j: nat | j < i
            ensures !SeparatorAt(s, j)
          {
            if j > 0 { assert SeparatorAt(s[1..], j - 1) <==> SeparatorAt(s, j - 1 + 1); }
          }
        }
        assert SeparatorAt(s[1..], i - 1) <==> SeparatorAt(s, i - 1 + 1);
      }
    }
  }

  /** Letters of either case. */
  predicate SameLetter(c: char, d: char) { c == d || ('a' <= d <= 'z' && c == d - 'a' + 'A') }

  predicate IsSpaced(s: string) { forall i :: 0 <= i < |s| ==> s[i] == ' ' || '\t' <= s[i] <= '\r' }

  predicate NamesLength(h: string, i: nat)
  {
    var name := "content-length:";
    i + |name| <= |h| && forall k :: 0 <= k < |name| ==> SameLetter(h[i + k], name[k])
  }

  /** A name of the field, blanks, and a number. */
  ghost predicate LengthAt(h: string, i: nat, n: nat)
  {
    NamesLength(h, i) && exists j, k ::
      && i + 15 <= j < k <= |h| && IsSpaced(h[i + 15..j]) && Tokens.AllDigits(h[j..k])
      && (k == |h| || !Tokens.IsDigit(h[k])) && n == Tokens.DecimalValue(h[j..k])
  }

  lemma FieldIs(h: string)
    ensures FieldAt(h) <==> NamesLength(h, 0)
  {
    assert forall k :: 0 <= k < 15 ==> 'a' <= FIELD[k] <= 'z' || FIELD[k] == '-' || FIELD[k] == ':';
    if NamesLength(h, 0) {
      forall k | 0 <= k < 15
        ensures Lower(h[k]) == FIELD[k]
      {
        assert SameLetter(h[0 + k], FIELD[k]);
      }
    }
  }

  lemma {:induction false} SpacesSplit(s: string) returns (n: nat)
    ensures n <= |s| && IsSpaced(s[..n]) && SkipSpace(s) == s[n..]
    ensures n < |s| ==> !(s[n] == ' ' || '\t' <= s[n] <= '\r')
  {
    if s != [] && (s[0] == ' ' || '\t' <= s[0] <= '\r') {
      var m := SpacesSplit(s[1..]);
      n := m + 1;
      assert forall i :: 1 <= i < n ==> s[..n][i] == s[1..][..m][i - 1];
    } else {
      n := 0;
      assert s[0..] == s;
    }
  }

  lemma {:induction false} SpacesSkip(s: string, n: nat)
    requires n < |s| && IsSpaced(s[..n]) && Tokens.IsDigit(s[n])
    ensures SkipSpace(s) == s[n..]
  {
    if n > 0 {
      assert s[..n][0] == s[0];
      assert forall i :: 1 <= i < n ==> s[1..][i - 1] == s[..n][i];
      assert forall i :: 0 <= i < n - 1 ==> s[1..][..n - 1][i] == s[1..][i];
      SpacesSkip(s[1..], n - 1);
    } else {
      assert s[0..] == s;
    }
  }

  /** The number at the start of a text, if the field is named there. */
  function LengthHere(h: string): Option<nat>
  {
    var after := if FieldAt(h) then SkipSpace(h[|FIELD|..]) else [];
    var n := Tokens.DigitRun(after);
    if n > 0 then Some(Tokens.DecimalValue(after[..n])) else None
  }

  lemma LengthHereIsAt(h: string)
    requires LengthHere(h).Some?
    ensures LengthAt(h, 0, LengthHere(h).value)
  {
    FieldIs(h);
    var s := h[15..];
    var j := SpacesSplit(s);
    var after := SkipSpace(s);
    Tokens.DigitRunSplits(after);
    var n := Tokens.DigitRun(after);
    hide Tokens.DigitRun, Tokens.AllDigits, Tokens.DecimalValue, IsSpaced, NamesLength, FieldAt, SkipSpace;
    assert h[15..15 + j] == s[..j] && h[15 + j..15 + j + n] == after[..n];
    assert 15 + j + n < |h| ==> h[15 + j + n] == after[n];
  }

  lemma LengthAtIsHere(h: string, n: nat)
    requires LengthAt(h, 0, n)
    ensures LengthHere(h) == Some(n)
  {
    FieldIs(h);
    hide FieldAt, NamesLength, SkipSpace, Tokens.DigitRun, Tokens.DecimalValue;
    var j, k :|
      && 15 <= j < k <= |h| && IsSpaced(h[15..j]) && Tokens.AllDigits(h[j..k])
      && (k == |h| || !Tokens.IsDigit(h[k])) && n == Tokens.DecimalValue(h[j..k]);
    var s, digits, after := h[15..], h[j..k], h[k..];
    assert s[..j - 15] == h[15..j] && s[j - 15] == digits[0] && Tokens.IsDigit(digits[0]);
    hide Tokens.AllDigits;
    SpacesSkip(s, j - 15);
    assert s[j - 15..] == digits + after;
    Tokens.DigitRunOf(digits, after);
    assert (digits + after)[..|digits|] == digits;
  }

  lemma LengthLater(h: string, i: nat, n: nat)
    requires h != []
    ensures LengthAt(h[1..], i, n) <==> LengthAt(h, i + 1, n)
  {
    var t := h[1..];
    assert NamesLength(t, i) <==> NamesLength(h, i + 1);
    hide NamesLength, Tokens.AllDigits, Tokens.DecimalValue, IsSpaced;
    forall j, k | i + 15 <= j < k <= |t|
      ensures t[i + 15..j] == h[i + 1 + 15..j + 1] && t[j..k] == h[j + 1..k + 1] && (k == |t| || t[k] == h[k + 1])
    {}
    if LengthAt(h, i + 1, n) {
      var j, k :|
        && i + 1 + 15 <= j < k <= |h| && IsSpaced(h[i + 1 + 15..j]) && Tokens.AllDigits(h[j..k])
        && (k == |h| || !Tokens.IsDigit(h[k])) && n == Tokens.DecimalValue(h[j..k]);
      assert t[i + 15..j - 1] == h[i + 1 + 15..j] && t[j - 1..k - 1] == h[j..k];
    }
  }

  ghost predicate LengthFirst(h: string, i: nat, n: nat)
  {
    LengthAt(h, i, n) && forall j: nat, m: nat :: j < i ==> !LengthAt(h, j, m)
  }

  lemma LengthHereIff(h: string, m: nat)
    ensures LengthHere(h) == Some(m) <==> LengthAt(h, 0, m)
  {
    hide LengthAt, LengthHere;
    if LengthHere(h).Some? { LengthHereIsAt(h); }
    if LengthAt(h, 0, m) { LengthAtIsHere(h, m); }
  }

  lemma {:induction false} LengthFound(h: string) returns (i: nat)
    requires LengthIn(h).Some?
    ensures LengthFirst(h, i, LengthIn(h).value)
  {
    hide LengthAt, FieldAt, SkipSpace;
    LengthHereIff(h, LengthIn(h).value);
    if LengthHere(h).Some? {
      i := 0;
    } else {
      var k := LengthFound(h[1..]);
      i := k + 1;
      LengthLater(h, k, LengthIn(h).value);
      forall j: nat, m: nat | j < i
        ensures !LengthAt(h, j, m)
      {
        if j > 0 { LengthLater(h, j - 1, m); } else { LengthHereIff(h, m); }
      }
    }
  }

  lemma {:induction false} FirstIsFound(h: string, i: nat, n: nat)
    requires LengthFirst(h, i, n)
    ensures LengthIn(h) == Some(n)
  {
    assert h != [] by { NothingAt(i, n); }
    hide LengthAt, FieldAt, SkipSpace;
    if i == 0 {
      LengthHereIff(h, n);
    } else {
      if LengthHere(h).Some? {
        LengthHereIff(h, LengthHere(h).value);
      }
      LengthLater(h, i - 1, n);
      forall j: nat, m: nat | j < i - 1
        ensures !LengthAt(h[1..], j, m)
      {
        LengthLater(h, j, m);
      }
      FirstIsFound(h[1..], i - 1, n);
    }
  }

  lemma NothingAt(i: nat, n: nat)
    ensures !LengthAt([], i, n)
  {}

  /** The first place where the field is named with a number tells the length. */
  lemma LengthFoundIff(h: string, n: nat)
    ensures LengthIn(h) == Some(n) <==> exists i :: LengthFirst(h, i, n)
  {
    hide LengthFirst, LengthIn;
    if LengthIn(h).Some? { var i := LengthFound(h); }
    forall i | LengthFirst(h, i, n)
      ensures LengthIn(h) == Some(n)
    {
      FirstIsFound(h, i, n);
    }
  }

  // ---- The server ----

  /** A line with its end, which the last one of the input may lack. */
  predicate IsLine(line: Bytes, rest: Bytes)
  {
    && line != [] && (forall i :: 0 <= i < |line| - 1 ==> line[i] != '\n')
    && (line[|line| - 1] == '\n' || rest == [])
  }

  predicate IsEnd(s: Bytes) { forall i :: 0 <= i < |s| ==> s[i] == '\r' || s[i] == '\n' }

  /** The lines of a header: the last one, and only that, is empty. */
  predicate HeaderIn(lines: seq<Bytes>, input: Bytes, rest: Bytes)
    decreases |lines|
  {
    && lines != [] && lines[0] <= input
    && var after := input[|lines[0]|..];
       && IsLine(lines[0], after)
       && if |lines| == 1 then IsEnd(lines[0]) && rest == after
          else !IsEnd(lines[0]) && HeaderIn(lines[1..], after, rest)
  }

  /** The field with a number that fits 64 bits, a plus sign or none before it, and blanks around it. */
  ghost predicate Tells(line: Bytes, n: nat)
  {
    n < USIZE && exists a, sign, digits, b ::
      && line == FIELD_NAME + (a + (sign + digits) + b) && IsSpaced(a) && IsSpaced(b)
      && (sign == "" || sign == "+") && digits != [] && Tokens.AllDigits(digits) && n == Tokens.DecimalValue(digits)
  }

  /** The last line with the field tells the length, if it can be read. */
  ghost predicate LastTells(lines: seq<Bytes>, n: nat)
  {
    exists i ::
      && 0 <= i < |lines| && Tells(lines[i], n)
      && forall j :: i < j < |lines| ==> !(FIELD_NAME <= lines[j])
  }

  lemma {:induction false} LineSplit(s: Bytes)
    requires s != []
    ensures IsLine(s[..LineLength(s)], s[LineLength(s)..])
    decreases |s|
  {
    if |s| > 1 && s[0] != '\n' {
      LineSplit(s[1..]);
      var m := LineLength(s[1..]);
      assert s[1..][m..] == s[m + 1..] && s[..m + 1] == [s[0]] + s[1..][..m];
    }
  }

  lemma {:induction false} LineIsRead(s: Bytes, n: nat)
    requires 0 < n <= |s| && IsLine(s[..n], s[n..])
    ensures n == LineLength(s)
    decreases |s|
  {
    var line := s[..n];
    if s[0] == '\n' {
      if n > 1 { FirstIsNoEnd(line, s[n..]); }
    } else if n == 1 {
      OneLine(s);
    } else {
      assert s[1..][..n - 1] == line[1..] && s[1..][n - 1..] == s[n..];
      LineIsRead(s[1..], n - 1);
    }
  }

  lemma FirstIsNoEnd(line: Bytes, rest: Bytes)
    requires IsLine(line, rest) && |line| > 1
    ensures line[0] != '\n'
  {}

  lemma OneLine(s: Bytes)
    requires s != [] && s[0] != '\n' && IsLine(s[..1], s[1..])
    ensures LineLength(s) == 1
  {
    assert LineLength([]) == 0;
  }

  lemma {:induction false} EndTrimmed(line: Bytes) returns (end: Bytes)
    ensures line == TrimLineEnd(line) + end && IsEnd(end)
    ensures TrimLineEnd(line) == [] <==> IsEnd(line)
    ensures TrimLineEnd(line) != [] ==> !IsEnd([TrimLineEnd(line)[|TrimLineEnd(line)| - 1]])
  {
    if line != [] && IsEnd([line[|line| - 1]]) {
      var front := line[..|line| - 1];
      assert [line[|line| - 1]][0] == line[|line| - 1];
      var e := EndTrimmed(front);
      end := e + [line[|line| - 1]];
      assert line == front + [line[|line| - 1]];
      assert IsEnd(front) <==> IsEnd(line);
    } else {
      end := [];
      if line != [] { assert [line[|line| - 1]][0] == line[|line| - 1]; }
    }
  }

  lemma {:induction false} SpacesTrimmed(s: string) returns (a: string, b: string)
    ensures s == a + TrimSpaces(s) + b && IsSpaced(a) && IsSpaced(b)
    decreases |s|
  {
    if s != [] && IsSpace(s[0]) {
      var c: string;
      c, b := SpacesTrimmed(s[1..]);
      a := [s[0]] + c;
      assert s == [s[0]] + s[1..];
    } else if s != [] && IsSpace(s[|s| - 1]) {
      var c: string;
      a, c := SpacesTrimmed(s[..|s| - 1]);
      b := c + [s[|s| - 1]];
      assert s == s[..|s| - 1] + [s[|s| - 1]];
    } else {
      a, b := [], [];
      assert [] + s + [] == s;
    }
  }

  lemma {:induction false} WordTrimmed(a: string, w: string, b: string)
    requires IsSpaced(a) && IsSpaced(b) && w != [] && !IsSpace(w[0]) && !IsSpace(w[|w| - 1])
    ensures TrimSpaces(a + w + b) == w
    decreases |a| + |b|
  {
    var s := a + w + b;
    if a != [] {
      assert s[0] == a[0] && s[1..] == a[1..] + w + b;
      WordTrimmed(a[1..], w, b);
    } else if b != [] {
      assert s[0] == w[0] && s[|s| - 1] == b[|b| - 1] && s[..|s| - 1] == a + w + b[..|b| - 1];
      WordTrimmed(a, w, b[..|b| - 1]);
    } else {
      assert s == w;
    }
  }

  /** Only what is behind the last other character is trimmed. */
  lemma {:induction false} EndKept(x: Bytes, b: Bytes) returns (c: Bytes)
    requires x != [] && x[|x| - 1] != '\r' && x[|x| - 1] != '\n' && IsSpaced(b)
    ensures TrimLineEnd(x + b) == x + c && IsSpaced(c)
    decreases |b|
  {
    var s := x + b;
    if b == [] {
      c := [];
      assert s == x && x + c == x;
    } else if b[|b| - 1] == '\r' || b[|b| - 1] == '\n' {
      assert s[..|s| - 1] == x + b[..|b| - 1] && s[|s| - 1] == b[|b| - 1];
      c := EndKept(x, b[..|b| - 1]);
    } else {
      c := b;
      assert s[|s| - 1] == b[|b| - 1];
    }
  }

  lemma EndIsSpaced(end: Bytes)
    requires IsEnd(end)
    ensures IsSpaced(end)
  {}

  /** What the server makes of one line. */
  function LengthOfLine(line: Bytes): Option<nat>
  {
    var t := TrimLineEnd(line);
    if FIELD_NAME <= t then ParseUsize(TrimSpaces(t[|FIELD_NAME|..])) else None
  }

  lemma LineTells(line: Bytes, n: nat)
    requires Tells(line, n)
    ensures FIELD_NAME <= TrimLineEnd(line) && LengthOfLine(line) == Some(n)
  {
    hide TrimLineEnd, TrimSpaces, Tokens.DecimalValue, IsSpaced;
    var a, sign, digits, b :|
      && line == FIELD_NAME + (a + (sign + digits) + b) && IsSpaced(a) && IsSpaced(b)
      && (sign == "" || sign == "+") && digits != [] && Tokens.AllDigits(digits) && n == Tokens.DecimalValue(digits);
    var w := sign + digits;
    assert Tokens.IsDigit(digits[0]) && Tokens.IsDigit(digits[|digits| - 1]);
    var x := FIELD_NAME + (a + w);
    assert line == x + b && x[|x| - 1] == digits[|digits| - 1];
    var c := EndKept(x, b);
    assert x + c == FIELD_NAME + (a + w + c) && (x + c)[|FIELD_NAME|..] == a + w + c;
    WordTrimmed(a, w, c);
    if sign == "+" { assert w[1..] == digits; } else { assert w == digits; }
  }

  lemma ToldByLine(line: Bytes)
    requires LengthOfLine(line).Some?
    ensures Tells(line, LengthOfLine(line).value)
  {
    hide TrimLineEnd, TrimSpaces, Tokens.DecimalValue, IsSpaced, Tokens.AllDigits;
    var t := TrimLineEnd(line);
    var end := EndTrimmed(line);
    EndIsSpaced(end);
    var s := t[|FIELD_NAME|..];
    var a, c := SpacesTrimmed(s);
    var w := TrimSpaces(s);
    var sign := if w != [] && w[0] == '+' then "+" else "";
    var digits := w[|sign|..];
    var b := c + end;
    SpacedJoin(c, end);
    assert w == sign + digits;
    assert line == FIELD_NAME + (a + w + b);
  }

  lemma SpacedJoin(a: string, b: string)
    requires IsSpaced(a) && IsSpaced(b)
    ensures IsSpaced(a + b)
  {}

  lemma NameStays(line: Bytes)
    ensures FIELD_NAME <= line <==> FIELD_NAME <= TrimLineEnd(line)
  {
    var end := EndTrimmed(line);
  }

  /** A later length replaces an earlier one. */
  function LengthOver(lines: seq<Bytes>, sofar: Option<nat>): Option<nat>
    decreases |lines|
  {
    if lines == [] then sofar else LengthOver(lines[1..], LengthAfter(TrimLineEnd(lines[0]), sofar))
  }

  predicate NoneNamed(lines: seq<Bytes>) { forall i :: 0 <= i < |lines| ==> !(FIELD_NAME <= lines[i]) }

  lemma NoneNamedStep(lines: seq<Bytes>)
    requires lines != []
    ensures NoneNamed(lines) <==> !(FIELD_NAME <= lines[0]) && NoneNamed(lines[1..])
  {
    assert forall i :: 1 <= i < |lines| ==> lines[i] == lines[1..][i - 1];
    assert forall i :: 0 <= i < |lines| - 1 ==> lines[1..][i] == lines[i + 1];
  }

  lemma TellsIff(line: Bytes, n: nat)
    ensures Tells(line, n) <==> FIELD_NAME <= line && LengthOfLine(line) == Some(n)
  {
    NameStays(line);
    hide Tells, LengthOfLine, TrimLineEnd;
    if LengthOfLine(line).Some? {
      ToldByLine(line);
      NameRead(line);
    }
    if Tells(line, n) { LineTells(line, n); }
  }

  lemma NameRead(line: Bytes)
    requires LengthOfLine(line).Some?
    ensures FIELD_NAME <= TrimLineEnd(line)
  {}

  lemma LengthAfterLine(line: Bytes, sofar: Option<nat>)
    ensures LengthAfter(TrimLineEnd(line), sofar) == if FIELD_NAME <= line then LengthOfLine(line) else sofar
  {
    NameStays(line);
    hide TrimLineEnd, ParseUsize, TrimSpaces;
  }

  lemma {:induction false} LengthOverIs(lines: seq<Bytes>, sofar: Option<nat>, n: nat)
    ensures LengthOver(lines, sofar) == Some(n) <==> LastTells(lines, n) || (sofar == Some(n) && NoneNamed(lines))
    decreases |lines|
  {
    hide LengthOfLine, Tells, TrimLineEnd, LengthAfter, LastTells, NoneNamed;
    if lines == [] {
      NoLines(n);
    } else {
      LengthAfterLine(lines[0], sofar);
      TellsIff(lines[0], n);
      LengthOverIs(lines[1..], LengthAfter(TrimLineEnd(lines[0]), sofar), n);
      NoneNamedStep(lines);
      LastTellsStep(lines, n);
    }
  }

  lemma NoLines(n: nat)
    ensures !LastTells([], n) && NoneNamed([])
  {}

  lemma LastTellsStep(lines: seq<Bytes>, n: nat)
    requires lines != []
    ensures
      LastTells(lines, n)
      <==> || LastTells(lines[1..], n)
           || (Tells(lines[0], n) && NoneNamed(lines[1..]))
  {
    hide Tells;
    var rest := lines[1..];
    assert forall i :: 1 <= i < |lines| ==> lines[i] == rest[i - 1];
    assert forall i :: 0 <= i < |rest| ==> rest[i] == lines[i + 1];
    if i :| 0 <= i < |rest| && Tells(rest[i], n) && forall j :: i < j < |rest| ==> !(FIELD_NAME <= rest[j]) {
      assert Tells(lines[i + 1], n);
    }
    if i :| 0 <= i < |lines| && Tells(lines[i], n) && forall j :: i < j < |lines| ==> !(FIELD_NAME <= lines[j]) {
      if i > 0 { assert Tells(rest[i - 1], n); }
    }
  }

  /** The header is read line by line. */
  lemma {:induction false} HeaderRead(input: Bytes, length: Option<nat>) returns (lines: seq<Bytes>)
    requires ReadHeader(input, length).Some?
    ensures
      var r := ReadHeader(input, length).value;
      HeaderIn(lines, input, r.1) && LengthOver(lines, length) == r.0
    decreases |input|
  {
    var n := LineLength(input);
    var line, after := input[..n], input[n..];
    LineSplit(input);
    var end := EndTrimmed(line);
    hide LineLength, TrimLineEnd, LengthAfter, IsLine, IsEnd;
    if TrimLineEnd(line) == [] {
      lines := [line];
      EmptyTells(length);
      assert LengthOver(lines[1..], length) == length;
    } else {
      var more := HeaderRead(after, LengthAfter(TrimLineEnd(line), length));
      lines := [line] + more;
      assert lines[1..] == more;
      assert more != [] by { SomeLines(more, after, ReadHeader(input, length).value.1); }
    }
  }

  lemma SomeLines(lines: seq<Bytes>, input: Bytes, rest: Bytes)
    requires HeaderIn(lines, input, rest)
    ensures lines != []
  {}

  lemma EmptyTells(length: Option<nat>)
    ensures LengthAfter([], length) == length
  {}

  lemma {:induction false} HeaderIsRead(lines: seq<Bytes>, input: Bytes, rest: Bytes, length: Option<nat>)
    requires HeaderIn(lines, input, rest)
    ensures ReadHeader(input, length) == Some((LengthOver(lines, length), rest))
    decreases |lines|
  {
    var line := lines[0];
    var n := |line|;
    assert input[..n] == line;
    assert line != [] by { LineNotEmpty(line, input[n..]); }
    LineIsRead(input, n);
    var end := EndTrimmed(line);
    hide LineLength, TrimLineEnd, LengthAfter, IsLine, IsEnd;
    if |lines| == 1 {
      EmptyTells(length);
      assert LengthOver(lines[1..], length) == length;
    } else {
      HeaderIsRead(lines[1..], input[n..], rest, LengthAfter(TrimLineEnd(line), length));
    }
  }

  lemma LineNotEmpty(line: Bytes, rest: Bytes)
    requires IsLine(line, rest)
    ensures line != []
  {}

  /** The server takes a message just when a header tells its length and so many bytes follow. */
  lemma MessageReadIff(input: Bytes, body: Bytes, rest: Bytes)
    ensures
      ReadFrom(input) == Message(body, rest)
      <==> exists lines :: HeaderIn(lines, input, body + rest) && LastTells(lines, |body|)
  {
    hide ReadHeader, HeaderIn, LastTells;
    var header := ReadHeader(input, None);
    if ReadFrom(input) == Message(body, rest) {
      var lines := HeaderRead(input, None);
      LengthOverIs(lines, None, |body|);
      assert header.value.1 == body + rest;
    }
    if lines :| HeaderIn(lines, input, body + rest) && LastTells(lines, |body|) {
      HeaderIsRead(lines, input, body + rest, None);
      LengthOverIs(lines, None, |body|);
      assert (body + rest)[..|body|] == body && (body + rest)[|body|..] == rest;
    }
  }
}
