/** The texts of JSON values, and the proof that src/lsp.rs:405-576 reads exactly these. */
module JsonGrammar {
  import opened Ast
  import Tokens
  import opened JsonText

  // ---- Blanks and strings ----

  /** `t` is what is left of `s` behind all its leading blanks. */
  predicate Past(s: string, t: string)
  {
    && |t| <= |s| && s[|s| - |t|..] == t && Tokens.AllBlank(s[..|s| - |t|])
    && (t == "" || !Tokens.IsBlank(t[0]))
  }

  predicate IsHex(c: char) { '0' <= c <= '9' || 'a' <= c <= 'f' || 'A' <= c <= 'F' }

  function HexOf(c: char): (d: nat)
    requires IsHex(c)
    ensures d < 16
  {
    if c <= '9' then (c - '0') as int else if c <= 'F' then (c - 'A') as int + 10 else (c - 'a') as int + 10
  }

  function CodeOf(h: string): (n: nat)
    requires |h| == 4 && forall i :: 0 <= i < 4 ==> IsHex(h[i])
    ensures n < 0x1_0000
  {
    0x1000 * HexOf(h[0]) + 0x100 * HexOf(h[1]) + 0x10 * HexOf(h[2]) + HexOf(h[3])
  }

  /** Half of a pair. */
  predicate IsSurrogate(n: nat) { 0xD800 <= n < 0xE000 }

  predicate IsJsonEscape(c: char, v: char)
  {
    || (c == '"' && v == '"') || (c == '\\' && v == '\\') || (c == '/' && v == '/') || (c == 'b' && v == '\U{8}')
    || (c == 'f' && v == '\U{C}') || (c == 'n' && v == '\n') || (c == 'r' && v == '\r') || (c == 't' && v == '\t')
  }

  /** The characters, up to the closing quote; half of a surrogate pair stands for nothing. */
  predicate CharsIn(c: string, s: string, rest: string)
    decreases |s|
  {
    if s == "" then false
    else if s[0] == '"' then c == "" && rest == s[1..]
    else if s[0] != '\\' then c != "" && c[0] == s[0] && CharsIn(c[1..], s[1..], rest)
    else if |s| < 2 then false
    else if s[1] != 'u' then c != "" && IsJsonEscape(s[1], c[0]) && CharsIn(c[1..], s[2..], rest)
    else
      && |s| >= 6 && (forall i :: 0 <= i < 4 ==> IsHex(s[2..6][i]))
      && if IsSurrogate(CodeOf(s[2..6])) then CharsIn(c, s[6..], rest)
         else c != "" && c[0] as int == CodeOf(s[2..6]) && CharsIn(c[1..], s[6..], rest)
  }

  predicate QuotedIn(c: string, s: string, rest: string) { s != "" && s[0] == '"' && CharsIn(c, s[1..], rest) }

  // ---- Numbers ----

  predicate IsFraction(f: string) { f == "" || (f[0] == '.' && Tokens.AllDigits(f[1..])) }

  /** `e`, a sign or none, and digits. */
  predicate IsExponent(x: string)
  {
    |x| >= 2 && (x[0] == 'e' || x[0] == 'E')
    && var d := if x[1] == '+' || x[1] == '-' then x[2..] else x[1..];
       d != "" && Tokens.AllDigits(d)
  }

  /** The number does not go on. */
  predicate StopsNumber(f: string, x: string, rest: string)
  {
    rest == "" ||
    (&& !Tokens.IsDigit(rest[0])
     && (x == "" ==> rest[0] != 'e' && rest[0] != 'E')
     && (x == "" && f == "" ==> rest[0] != '.'))
  }

  function ValueOf(sign: string, a: string): int
  {
    var n: int := Tokens.DecimalValue(a);
    if sign == "-" then -n else n
  }

  predicate IsNumberOf(v: Json, sign: string, a: string, f: string, x: string)
  {
    && (sign == "" || sign == "-") && Tokens.AllDigits(a) && IsFraction(f) && (x == "" || IsExponent(x))
    && (a != "" || (sign == "-" && |f| > 1))
    && v == if f == "" && x == "" then Number(ValueOf(sign, a)) else Decimal(sign + a + f + x)
  }

  ghost predicate NumberIn(v: Json, s: string, rest: string)
  {
    exists sign, a, f, x :: s == sign + a + f + x + rest && IsNumberOf(v, sign, a, f, x) && StopsNumber(f, x, rest)
  }

  // ---- Values ----

  /** The fields one after the other; a later one replaces an earlier one with its key. */
  function Inserted(sofar: seq<JsonField>, fields: seq<JsonField>): seq<JsonField>
    decreases |fields|
  {
    if fields == [] then sofar else Inserted(InsertField(sofar, fields[0].key, fields[0].value), fields[1..])
  }

  ghost predicate ValueIn(v: Json, s: string, rest: string)
    decreases |s|, 1
  {
    exists t :: Past(s, t) && BareIn(v, t, rest)
  }

  /** A value with no blank before it. */
  ghost predicate BareIn(v: Json, s: string, rest: string)
    decreases |s|, 0
  {
    match v
    case Null => s == "null" + rest
    case Truth(b) => s == (if b then "true" else "false") + rest
    case Text(c) => QuotedIn(c, s, rest)
    case Number(_) => NumberIn(v, s, rest)
    case Decimal(_) => NumberIn(v, s, rest)
    case Array(items) =>
      s != "" && s[0] == '[' && if items == [] then Past(s[1..], "]" + rest) else ItemsIn(items, s[1..], rest)
    case Object(fields) =>
      s != "" && s[0] == '{' &&
      ((fields == [] && Past(s[1..], "}" + rest))
       || exists all :: FieldsIn(all, s[1..], rest) && fields == Inserted([], all))
  }

  ghost predicate ItemsIn(items: seq<Json>, s: string, rest: string)
    decreases |s|, 2
  {
    items != [] && exists mid, u ::
      && |u| <= |mid| < |s| && ValueIn(items[0], s, mid) && Past(mid, u) && u != ""
      && if |items| == 1 then u == "]" + rest else u[0] == ',' && ItemsIn(items[1..], u[1..], rest)
  }

  /** A field, and what stands behind it and its blanks. */
  ghost predicate FieldIn(field: JsonField, s: string, u: string)
    decreases |s|, 2
  {
    exists q, k, c, mid ::
      && |u| <= |mid| < |c| <= |k| < |s|
      && Past(s, q) && QuotedIn(field.key, q, k) && Past(k, c) && c[0] == ':'
      && ValueIn(field.value, c[1..], mid) && Past(mid, u) && u != ""
  }

  ghost predicate FieldsIn(fields: seq<JsonField>, s: string, rest: string)
    decreases |s|, 3
  {
    fields != [] && exists u ::
      && 0 < |u| < |s| && FieldIn(fields[0], s, u)
      && if |fields| == 1 then u == "}" + rest else u[0] == ',' && FieldsIn(fields[1..], u[1..], rest)
  }

  /** A text is one value with blanks around it. */
  ghost predicate IsJson(v: Json, s: string) { exists rest :: ValueIn(v, s, rest) && Tokens.AllBlank(rest) }

  // ---- Blanks and strings are read so ----

  lemma {:induction false} BlanksSkipped(s: string)
    ensures Past(s, SkipBlank(s))
    ensures forall t :: Past(s, t) ==> t == SkipBlank(s)
  {
    if s != "" && Tokens.IsBlank(s[0]) {
      hide Past;
      BlanksSkipped(s[1..]);
      var t := SkipBlank(s);
      PastBack(s, t);
      forall u | Past(s, u)
        ensures u == t
      {
        PastNext(s, u);
      }
    } else {
      PastHere(s);
      hide Past;
      forall u | Past(s, u)
        ensures u == s
      {
        PastNone(s, u);
      }
    }
  }

  lemma PastBack(s: string, t: string)
    requires s != "" && Tokens.IsBlank(s[0]) && Past(s[1..], t)
    ensures Past(s, t)
  {
    var n := |s| - |t|;
    assert s[n..] == s[1..][n - 1..];
    assert forall i :: 1 <= i < n ==> s[..n][i] == s[1..][..n - 1][i - 1];
  }

  lemma PastHere(s: string)
    requires s == "" || !Tokens.IsBlank(s[0])
    ensures Past(s, s)
  {
    assert s[0..] == s && s[..0] == "";
  }

  lemma PastNext(s: string, u: string)
    requires s != "" && Tokens.IsBlank(s[0]) && Past(s, u)
    ensures Past(s[1..], u)
  {
    var m := |s| - |u|;
    if m > 0 { assert s[m..] == s[1..][m - 1..] && s[..m][1..] == s[1..][..m - 1]; }
  }

  lemma PastNone(s: string, u: string)
    requires (s == "" || !Tokens.IsBlank(s[0])) && Past(s, u)
    ensures u == s
  {
    if |u| == |s| { assert s[0..] == s; }
  }

  lemma HexRead(c: char)
    ensures HexValue(c) == if IsHex(c) then Some(HexOf(c)) else None
  {}

  lemma UnicodeRead(s: string)
    requires |s| >= 4
    ensures !(IsHex(s[0]) && IsHex(s[1]) && IsHex(s[2]) && IsHex(s[3])) ==> ReadUnicode(s).Failed?
    ensures
      IsHex(s[0]) && IsHex(s[1]) && IsHex(s[2]) && IsHex(s[3]) ==>
        var n := CodeOf(s[..4]);
        ReadUnicode(s) == Got(if IsSurrogate(n) then "" else [n as char], s[4..])
  {
    hide HexValue, HexOf, IsHex;
    HexRead(s[0]);
    HexRead(s[1]);
    HexRead(s[2]);
    HexRead(s[3]);
  }

  lemma EscapeIs(s: string)
    requires s != "" && s[0] != 'u'
    ensures ReadEscape(s).Got? ==> |ReadEscape(s).value| == 1 && IsJsonEscape(s[0], ReadEscape(s).value[0])
    ensures ReadEscape(s).Got? ==> ReadEscape(s).rest == s[1..]
    ensures forall v :: IsJsonEscape(s[0], v) ==> ReadEscape(s) == Got([v], s[1..])
  {}

  ghost predicate CharsDecided(s: string)
  {
    && (ReadChars(s).Got? ==> CharsIn(ReadChars(s).value, s, ReadChars(s).rest))
    && forall c, rest :: CharsIn(c, s, rest) ==> ReadChars(s) == Got(c, rest)
  }

  lemma {:induction false} CharsRead(s: string)
    ensures CharsDecided(s)
    decreases |s|
  {
    if s == "" || s[0] == '"' {
      hide ReadEscape, ReadUnicode, CodeOf;
      return;
    }
    hide CharsDecided, ReadChars, CharsIn;
    if s[0] != '\\' {
      CharsRead(s[1..]);
      PlainRead(s);
    } else if |s| < 2 {
      NoEscape(s);
    } else if s[1] != 'u' {
      CharsRead(s[2..]);
      EscapedRead(s);
    } else {
      if |s| >= 6 { CharsRead(s[6..]); }
      UnicodeStep(s);
    }
  }

  lemma NoEscape(s: string)
    requires |s| == 1 && s[0] == '\\'
    ensures CharsDecided(s)
  {}

  lemma PlainRead(s: string)
    requires s != "" && s[0] != '"' && s[0] != '\\' && CharsDecided(s[1..])
    ensures CharsDecided(s)
  {
    hide ReadEscape, CodeOf;
    var r := ReadChars(s);
    if r.Got? { assert r.value[1..] == ReadChars(s[1..]).value; }
    forall c, rest | CharsIn(c, s, rest)
      ensures r == Got(c, rest)
    {
      assert CharsIn(c[1..], s[1..], rest) && c == [s[0]] + c[1..];
    }
  }

  lemma EscapedRead(s: string)
    requires |s| >= 2 && s[0] == '\\' && s[1] != 'u' && CharsDecided(s[2..])
    ensures CharsDecided(s)
  {
    EscapeIs(s[1..]);
    hide ReadEscape, CodeOf;
    assert s[1..][1..] == s[2..];
    var r := ReadChars(s);
    if r.Got? { assert r.value[1..] == ReadChars(s[2..]).value; }
    forall c, rest | CharsIn(c, s, rest)
      ensures r == Got(c, rest)
    {
      assert CharsIn(c[1..], s[2..], rest) && c == [c[0]] + c[1..];
      assert ReadEscape(s[1..]) == Got([c[0]], s[2..]);
    }
  }

  /** One character by its number, or none. */
  lemma UnicodeStep(s: string)
    requires |s| >= 2 && s[0] == '\\' && s[1] == 'u' && (|s| >= 6 ==> CharsDecided(s[6..]))
    ensures CharsDecided(s)
  {
    var r := ReadChars(s);
    UnicodeUnfold(s);
    UnicodeIn(s);
    hide ReadChars, CharsIn, CodeOf;
    if |s| >= 6 && forall i :: 0 <= i < 4 ==> IsHex(s[2..6][i]) {
      var n, more := CodeOf(s[2..6]), ReadChars(s[6..]);
      if r.Got? && !IsSurrogate(n) { assert r.value[1..] == more.value; }
      forall c, rest | CharsIn(c, s, rest)
        ensures r == Got(c, rest)
      {
        if !IsSurrogate(n) { assert c == [n as char] + c[1..]; }
      }
    }
  }

  lemma UnicodeUnfold(s: string)
    requires |s| >= 2 && s[0] == '\\' && s[1] == 'u'
    ensures
      ReadChars(s)
      == if |s| < 6 || !(forall i :: 0 <= i < 4 ==> IsHex(s[2..6][i])) || ReadChars(s[6..]).Failed? then Failed
         else
           var n, more := CodeOf(s[2..6]), ReadChars(s[6..]);
           Got(if IsSurrogate(n) then more.value else [n as char] + more.value, more.rest)
  {
    assert s[1..][1..] == s[2..] && ReadEscape(s[1..]) == ReadUnicode(s[2..]);
    hide ReadEscape;
    if |s| >= 6 {
      var h := s[2..6];
      assert s[2..][..4] == h && s[2..][4..] == s[6..];
      assert h[0] == s[2..][0] && h[1] == s[2..][1] && h[2] == s[2..][2] && h[3] == s[2..][3];
      UnicodeRead(s[2..]);
      hide ReadUnicode, CodeOf, IsHex;
      var more := ReadChars(s[6..]);
      if more.Got? { assert "" + more.value == more.value; }
    }
  }

  lemma UnicodeIn(s: string)
    requires |s| >= 2 && s[0] == '\\' && s[1] == 'u'
    ensures
      forall c, rest :: CharsIn(c, s, rest) <==>
        && |s| >= 6 && (forall i :: 0 <= i < 4 ==> IsHex(s[2..6][i]))
        && if IsSurrogate(CodeOf(s[2..6])) then CharsIn(c, s[6..], rest)
           else c != "" && c[0] as int == CodeOf(s[2..6]) && CharsIn(c[1..], s[6..], rest)
  {
    hide CodeOf, IsHex;
  }

  lemma StringIsRead(s: string)
    ensures ReadString(s).Got? ==> QuotedIn(ReadString(s).value, s, ReadString(s).rest)
    ensures forall c, rest :: QuotedIn(c, s, rest) ==> ReadString(s) == Got(c, rest)
  {
    hide CharsIn, ReadChars;
    if s != "" { CharsRead(s[1..]); }
  }

  // ---- Numbers are read so ----

  /** What is taken for an exponent: the digits may be missing. */
  predicate IsTaken(x: string)
  {
    x == "" ||
    ((x[0] == 'e' || x[0] == 'E')
     && Tokens.AllDigits(if |x| > 1 && (x[1] == '+' || x[1] == '-') then x[2..] else x[1..]))
  }

  predicate AreParts(sign: string, a: string, f: string, x: string)
  {
    (sign == "" || sign == "-") && Tokens.AllDigits(a) && IsFraction(f) && IsTaken(x)
  }

  lemma DigitsAside(a: string, rest: string)
    requires Tokens.AllDigits(a) && (rest == "" || !Tokens.IsDigit(rest[0]))
    ensures SkipDigits(a + rest) == rest && (a + rest)[..|a|] == a
  {
    Tokens.DigitRunOf(a, rest);
  }

  lemma DigitsTaken(s: string) returns (a: string)
    ensures Tokens.AllDigits(a) && s == a + SkipDigits(s)
    ensures SkipDigits(s) == "" || !Tokens.IsDigit(SkipDigits(s)[0])
  {
    Tokens.DigitRunSplits(s);
    a := s[..Tokens.DigitRun(s)];
  }

  lemma FractionTaken(s: string) returns (f: string)
    requires s == "" || !Tokens.IsDigit(s[0])
    ensures IsFraction(f) && s == f + SkipFraction(s)
    ensures
      var rest := SkipFraction(s);
      rest == "" || (!Tokens.IsDigit(rest[0]) && (f == "" ==> rest[0] != '.'))
  {
    hide SkipDigits, Tokens.AllDigits;
    if s != "" && s[0] == '.' {
      var digits := DigitsTaken(s[1..]);
      f := "." + digits;
      assert f[1..] == digits && s == "." + s[1..];
    } else {
      f := "";
    }
  }

  lemma ExponentOf(c: char, sign: string, digits: string)
    requires (c == 'e' || c == 'E') && (sign == "" || sign == "+" || sign == "-") && Tokens.AllDigits(digits)
    ensures IsTaken([c] + (sign + digits))
  {
    NoSignFirst(digits);
    hide Tokens.AllDigits;
    var x := [c] + (sign + digits);
    if sign == "" { assert x[1..] == digits; } else { assert x[1] == sign[0] && x[2..] == digits; }
  }

  lemma NoSignFirst(digits: string)
    requires Tokens.AllDigits(digits)
    ensures digits != "" ==> Tokens.IsDigit(digits[0])
  {}

  lemma SplitOff(s: string, n: nat)
    requires n < |s|
    ensures s == [s[0]] + (s[1..][..n] + s[1..][n..])
  {}

  lemma Join3(c: char, a: string, b: string, r: string)
    ensures [c] + (a + b) + r == [c] + (a + (b + r))
  {}

  lemma ExponentTaken(s: string) returns (x: string)
    requires s == "" || !Tokens.IsDigit(s[0])
    ensures IsTaken(x) && s == x + SkipExponent(s)
    ensures
      var rest := SkipExponent(s);
      rest == "" || (!Tokens.IsDigit(rest[0]) && (x == "" ==> rest[0] != 'e' && rest[0] != 'E'))
  {
    hide Tokens.AllDigits, SkipDigits, IsTaken;
    if s != "" && (s[0] == 'e' || s[0] == 'E') {
      var e := s[1..];
      var n := if e != "" && (e[0] == '+' || e[0] == '-') then 1 else 0;
      var sign := if n == 0 then "" else [e[0]];
      assert e[..n] == sign && (if e != "" && e[0] == '+' then e[1..] else SkipOne(e, '-')) == e[n..];
      var digits := DigitsTaken(e[n..]);
      ExponentOf(s[0], sign, digits);
      SplitOff(s, n);
      Join3(s[0], sign, digits, SkipDigits(e[n..]));
      x := [s[0]] + (sign + digits);
    } else {
      x := "";
      assert IsTaken(x) by { NothingTaken(); }
    }
  }

  lemma NothingTaken()
    ensures IsTaken("")
  {}

  lemma Join5(sign: string, a: string, f: string, x: string, r: string)
    ensures sign + (a + (f + (x + r))) == sign + a + f + x + r
  {}

  lemma SignTaken(s: string) returns (sign: string)
    ensures (sign == "" || sign == "-") && s == sign + SkipOne(s, '-')
    ensures s != "" && s[0] == '-' <==> sign == "-"
  {
    sign := if s != "" && s[0] == '-' then "-" else "";
  }

  lemma NumberSplit(s: string) returns (sign: string, a: string, f: string, x: string)
    ensures AreParts(sign, a, f, x) && StopsNumber(f, x, AfterNumber(s))
    ensures s == sign + a + f + x + AfterNumber(s)
    ensures s != "" && s[0] == '-' <==> sign == "-"
    ensures s != "" && Tokens.IsDigit(s[0]) ==> a != ""
  {
    hide SkipDigits, Tokens.AllDigits, IsFraction, IsTaken, SkipFraction, SkipExponent;
    sign := SignTaken(s);
    var s1 := SkipOne(s, '-');
    a := DigitsTaken(s1);
    var s2 := SkipDigits(s1);
    f := FractionTaken(s2);
    var s3 := SkipFraction(s2);
    x := ExponentTaken(s3);
    Join5(sign, a, f, x, AfterNumber(s));
    EmptyAside(a, s2);
    EmptyAside(x, AfterNumber(s));
  }

  lemma EmptyAside(a: string, s: string)
    ensures a == "" ==> a + s == s
  {}

  lemma DigitFirst(a: string)
    requires Tokens.AllDigits(a) && a != ""
    ensures Tokens.IsDigit(a[0])
  {}

  lemma FractionAside(f: string, rest: string)
    requires IsFraction(f) && (rest == "" || (!Tokens.IsDigit(rest[0]) && (f == "" ==> rest[0] != '.')))
    ensures SkipFraction(f + rest) == rest
  {
    hide SkipDigits, Tokens.AllDigits;
    if f == "" {
      assert f + rest == rest;
    } else {
      assert (f + rest)[1..] == f[1..] + rest;
      DigitsAside(f[1..], rest);
    }
  }

  lemma ExponentAside(x: string, rest: string)
    requires x == "" || IsExponent(x)
    requires rest == "" || (!Tokens.IsDigit(rest[0]) && (x == "" ==> rest[0] != 'e' && rest[0] != 'E'))
    ensures SkipExponent(x + rest) == rest
  {
    hide SkipDigits, Tokens.AllDigits;
    if x == "" {
      assert x + rest == rest;
    } else {
      var n := if x[1] == '+' || x[1] == '-' then 2 else 1;
      var e := (x + rest)[1..];
      assert e[0] == x[1] && e[n - 1..] == x[n..] + rest;
      DigitsAside(x[n..], rest);
    }
  }

  /** Behind the parts of a number that stops there, nothing more is taken. */
  lemma NumberJoin(sign: string, a: string, f: string, x: string, rest: string)
    requires AreParts(sign, a, f, x) && (x == "" || IsExponent(x)) && (a != "" || sign == "-")
    requires StopsNumber(f, x, rest)
    ensures AfterNumber(sign + a + f + x + rest) == rest
  {
    hide SkipDigits, Tokens.AllDigits, SkipFraction, SkipExponent, IsTaken, IsExponent;
    Join5(sign, a, f, x, rest);
    var r3 := x + rest;
    var r2 := f + r3;
    var r1 := a + r2;
    assert sign == "-" ==> (sign + r1)[1..] == r1;
    assert sign == "" ==> sign + r1 == r1;
    if a != "" { DigitFirst(a); }
    EmptyAside(x, rest);
    EmptyAside(f, r3);
    assert x != "" ==> r3[0] == x[0] && (x[0] == 'e' || x[0] == 'E') by { ExponentFirst(x); }
    DigitsAside(a, r2);
    FractionAside(f, r3);
    ExponentAside(x, rest);
    assert SkipOne(sign + r1, '-') == r1;
  }

  lemma ExponentFirst(x: string)
    requires x == "" || IsExponent(x)
    ensures x != "" ==> x[0] == 'e' || x[0] == 'E'
  {}

  lemma IntegerTextIff(sign: string, a: string, f: string, x: string)
    requires AreParts(sign, a, f, x) && (a != "" || sign == "-")
    ensures IsIntegerText(sign + a + f + x) <==> a != "" && f == "" && x == ""
    ensures a != "" && f == "" && x == "" ==> IntegerValue(sign + a + f + x) == ValueOf(sign, a)
  {
    var t, d := sign + a + f + x, a + f + x;
    assert t == sign + d;
    if a != "" { DigitFirst(a); }
    if sign == "-" { assert t[1..] == d; } else { assert t == d; }
    if f != "" {
      assert d[|a|] == '.';
    } else if x != "" {
      assert d[|a|] == x[0];
    } else {
      assert d == a;
    }
  }

  lemma TakenEnds(x: string)
    requires IsTaken(x) && x != ""
    ensures |x| > 1 && Tokens.IsDigit(x[|x| - 1]) <==> IsExponent(x)
  {}

  lemma FloatTextIff(sign: string, a: string, f: string, x: string)
    requires AreParts(sign, a, f, x) && (a != "" || sign == "-")
    ensures IsFloatText(sign + a + f + x) <==> (a != "" || |f| > 1) && (x == "" || IsExponent(x))
  {
    hide Tokens.AllDigits, Tokens.DigitRun, IsTaken, IsExponent, IsFraction;
    var d := a + (f + x);
    Join4(sign, a, f, x);
    if a != "" { DigitFirst(a); }
    SignedBody(sign, d);
    if x != "" { TakenEnds(x); }
    FloatParts(a, f, x);
    hide IsFloatText;
    FloatBody(sign + d, d, |a|, if f == "" then 0 else |f| - 1, x);
  }

  lemma FloatBody(t: string, s: string, n: nat, fraction: nat, rest: string)
    requires s == (if t != "" && t[0] == '-' then t[1..] else t) && n == Tokens.DigitRun(s)
    requires
      if n < |s| && s[n] == '.' then fraction == Tokens.DigitRun(s[n + 1..]) && rest == s[n + 1 + fraction..]
      else fraction == 0 && rest == s[n..]
    ensures
      IsFloatText(t) <==> n + fraction > 0 && (rest == "" || (|rest| > 1 && Tokens.IsDigit(rest[|rest| - 1])))
  {
    hide Tokens.DigitRun;
  }

  lemma Join4(sign: string, a: string, f: string, x: string)
    ensures sign + a + f + x == sign + (a + (f + x))
  {}

  lemma SignedBody(sign: string, d: string)
    requires sign == "-" || (sign == "" && d != "" && d[0] != '-')
    ensures
      var t := sign + d;
      t != "" && (if t[0] == '-' then t[1..] else t) == d
  {}

  lemma FloatParts(a: string, f: string, x: string)
    requires AreParts("", a, f, x)
    ensures
      var s := a + (f + x);
      var n := Tokens.DigitRun(s);
      && n == |a|
      && (n < |s| && s[n] == '.' <==> f != "")
      && (f != "" ==> Tokens.DigitRun(s[n + 1..]) == |f| - 1 && s[n + 1 + (|f| - 1)..] == x)
      && (f == "" ==> s[n..] == x)
  {
    var s := a + (f + x);
    hide Tokens.DigitRun, Tokens.AllDigits;
    Tokens.DigitRunOf(a, f + x);
    assert s[|a|..] == f + x;
    if f != "" {
      assert s[|a| + 1..] == f[1..] + x && s[|a| + |f|..] == x;
      Tokens.DigitRunOf(f[1..], x);
    } else {
      assert f + x == x;
    }
  }

  lemma NumberIsRead(s: string)
    requires s != "" && (s[0] == '-' || Tokens.IsDigit(s[0]))
    ensures ReadNumber(s).Got? ==> NumberIn(ReadNumber(s).value, s, ReadNumber(s).rest)
    ensures forall v, rest :: NumberIn(v, s, rest) ==> ReadNumber(s) == Got(v, rest)
  {
    hide AfterNumber, IsIntegerText, IsFloatText, IntegerValue, ValueOf, AreParts, StopsNumber, IsExponent;
    var r := ReadNumber(s);
    if r.Got? { ReadNumberIn(s); }
    forall v, rest | NumberIn(v, s, rest)
      ensures r == Got(v, rest)
    {
      InNumberRead(v, s, rest);
    }
  }

  lemma Behind(w: string, rest: string)
    ensures (w + rest)[..|w + rest| - |rest|] == w
  {}

  lemma ReadNumberIn(s: string)
    requires s != "" && (s[0] == '-' || Tokens.IsDigit(s[0])) && ReadNumber(s).Got?
    ensures NumberIn(ReadNumber(s).value, s, ReadNumber(s).rest)
  {
    hide AfterNumber, IsIntegerText, IsFloatText, IntegerValue, ValueOf, StopsNumber, IsExponent, IsTaken;
    var sign, a, f, x := NumberSplit(s);
    var rest := AfterNumber(s);
    Behind(sign + a + f + x, rest);
    IntegerTextIff(sign, a, f, x);
    FloatTextIff(sign, a, f, x);
    assert IsNumberOf(ReadNumber(s).value, sign, a, f, x);
  }

  lemma InNumberRead(v: Json, s: string, rest: string)
    requires NumberIn(v, s, rest)
    ensures ReadNumber(s) == Got(v, rest)
  {
    hide AfterNumber, IsIntegerText, IsFloatText, IntegerValue, ValueOf, StopsNumber, IsExponent, IsTaken;
    var sign, a, f, x :| s == sign + a + f + x + rest && IsNumberOf(v, sign, a, f, x) && StopsNumber(f, x, rest);
    assert IsTaken(x) by { ExponentIsTaken(x); }
    NumberJoin(sign, a, f, x, rest);
    Behind(sign + a + f + x, rest);
    IntegerTextIff(sign, a, f, x);
    FloatTextIff(sign, a, f, x);
  }

  lemma ExponentIsTaken(x: string)
    requires x == "" || IsExponent(x)
    ensures IsTaken(x)
  {}

  // ---- Values are read so ----

  ghost predicate ValueDecided(s: string)
  {
    && (ReadValue(s).Got? ==> ValueIn(ReadValue(s).value, s, ReadValue(s).rest))
    && forall v, rest :: ValueIn(v, s, rest) ==> ReadValue(s) == Got(v, rest)
  }

  ghost predicate ItemsDecided(s: string)
  {
    && (ReadItems(s).Got? ==> ItemsIn(ReadItems(s).value, s, ReadItems(s).rest))
    && forall items, rest :: ItemsIn(items, s, rest) ==> ReadItems(s) == Got(items, rest)
  }

  ghost predicate FieldsDecided(s: string, sofar: seq<JsonField>)
  {
    var r := ReadFields(s, sofar);
    && (r.Got? ==> exists all :: FieldsIn(all, s, r.rest) && r.value == Inserted(sofar, all))
    && forall all, rest :: FieldsIn(all, s, rest) ==> r == Got(Inserted(sofar, all), rest)
  }

  ghost predicate BareDecided(t: string)
  {
    && (ReadValue(t).Got? ==> BareIn(ReadValue(t).value, t, ReadValue(t).rest))
    && forall v, rest :: BareIn(v, t, rest) ==> ReadValue(t) == Got(v, rest)
  }

  lemma BlanksBefore(s: string)
    requires BareDecided(SkipBlank(s))
    ensures ValueDecided(s)
  {
    hide Past, BareIn;
    BlanksSkipped(s);
    ReadBehindBlanks(s);
    hide ReadValue, SkipBlank;
  }

  lemma ReadBehindBlanks(s: string)
    ensures ReadValue(s) == ReadValue(SkipBlank(s))
  {
    BlanksSkipped(s);
    hide ReadItems, ReadFields, ReadNumber, ReadChars, Past;
    assert SkipBlank(SkipBlank(s)) == SkipBlank(s) by { SkippedOnce(s); }
  }

  lemma SkippedOnce(s: string)
    ensures SkipBlank(SkipBlank(s)) == SkipBlank(s)
  {
    BlanksSkipped(s);
    var t := SkipBlank(s);
    assert Past(s, t);
  }

  /** The first character of a value. */
  lemma BareFirst(v: Json, t: string, rest: string)
    requires BareIn(v, t, rest)
    ensures t != ""
    ensures
      match v
      case Null => t[0] == 'n'
      case Truth(b) => t[0] == if b then 't' else 'f'
      case Text(_) => t[0] == '"'
      case Number(_) => t[0] == '-' || Tokens.IsDigit(t[0])
      case Decimal(_) => t[0] == '-' || Tokens.IsDigit(t[0])
      case Array(_) => t[0] == '['
      case Object(_) => t[0] == '{'
  {
    hide ItemsIn, FieldsIn, CharsIn;
    if v.Number? || v.Decimal? {
      var sign, a, f, x :| t == sign + a + f + x + rest && IsNumberOf(v, sign, a, f, x);
      assert a != "" ==> Tokens.IsDigit(a[0]);
    }
  }

  lemma LiteralRead(t: string)
    requires t != "" && t[0] in ['n', 't', 'f']
    ensures BareDecided(t)
  {
    hide ItemsIn, FieldsIn, CharsIn, NumberIn, Inserted, ReadItems, ReadFields, ReadNumber, ReadChars;
    Solid(t);
    var v, text := if t[0] == 'n' then Null else if t[0] == 't' then Truth(true) else Truth(false),
                   if t[0] == 'n' then "null" else if t[0] == 't' then "true" else "false";
    var r := ReadValue(t);
    assert r == Literal(t, text, v);
    forall u, rest | BareIn(u, t, rest)
      ensures r == Got(u, rest)
    {
      BareFirst(u, t, rest);
      assert u == v && t == text + rest;
    }
    if r.Got? { assert t == text + r.rest; }
  }

  lemma TextRead(t: string)
    requires t != "" && t[0] == '"'
    ensures BareDecided(t)
  {
    StringIsRead(t);
    hide ItemsIn, FieldsIn, QuotedIn, NumberIn, Inserted, ReadItems, ReadFields, ReadNumber, ReadString;
    Solid(t);
    var r := ReadValue(t);
    forall u, rest | BareIn(u, t, rest)
      ensures r == Got(u, rest)
    {
      BareFirst(u, t, rest);
    }
  }

  lemma NumberStep(t: string)
    requires t != "" && (t[0] == '-' || Tokens.IsDigit(t[0]))
    ensures ReadValue(t) == ReadNumber(t)
  {
    hide ReadItems, ReadFields, ReadNumber, ReadString;
    Solid(t);
  }

  lemma NumberIsBare(v: Json, t: string, rest: string)
    requires v.Number? || v.Decimal?
    ensures BareIn(v, t, rest) <==> NumberIn(v, t, rest)
  {
    hide NumberIn;
  }

  lemma NumbersRead(t: string)
    requires t != "" && (t[0] == '-' || Tokens.IsDigit(t[0]))
    ensures BareDecided(t)
  {
    hide NumberIn, ReadNumber, ReadValue, BareIn;
    NumberIsRead(t);
    NumberKind(t);
    NumberStep(t);
    var r := ReadValue(t);
    if r.Got? { NumberIsBare(r.value, t, r.rest); }
    forall u, rest | BareIn(u, t, rest)
      ensures r == Got(u, rest)
    {
      BareFirst(u, t, rest);
      NumberIsBare(u, t, rest);
    }
  }

  lemma NumberKind(t: string)
    ensures ReadNumber(t).Got? ==> ReadNumber(t).value.Number? || ReadNumber(t).value.Decimal?
  {}

  lemma ItemsBegin(items: seq<Json>, s: string, rest: string)
    requires ItemsIn(items, s, rest)
    ensures items != [] && SkipBlank(s) != "" && SkipBlank(s)[0] != ']'
  {
    hide ValueIn, Past;
    var mid :| ValueIn(items[0], s, mid);
    ValueFirst(items[0], s, mid);
  }

  lemma ValueFirst(v: Json, s: string, rest: string)
    requires ValueIn(v, s, rest)
    ensures SkipBlank(s) != "" && SkipBlank(s)[0] != ']'
  {
    hide Past, NumberIn, CharsIn;
    var t :| Past(s, t) && BareIn(v, t, rest);
    BlanksSkipped(s);
    BareFirst(v, t, rest);
  }

  lemma FieldsBegin(fields: seq<JsonField>, s: string, rest: string)
    requires FieldsIn(fields, s, rest)
    ensures fields != [] && SkipBlank(s) != "" && SkipBlank(s)[0] == '"'
  {
    hide ValueIn, Past, CharsIn;
    var q, k :| Past(s, q) && QuotedIn(fields[0].key, q, k);
    BlanksSkipped(s);
  }

  lemma ArraysRead(t: string)
    requires t != "" && t[0] == '[' && ItemsDecided(t[1..])
    ensures BareDecided(t)
  {
    hide ItemsIn, FieldsIn, QuotedIn, NumberIn, Inserted, ReadItems, ReadFields, ReadNumber, ReadString, Past;
    ArrayStep(t);
    BlanksSkipped(t[1..]);
    hide ReadValue, SkipBlank;
    var r, u := ReadValue(t), SkipBlank(t[1..]);
    if r.Got? {
      if u != "" && u[0] == ']' {
        assert u == "]" + r.rest;
      } else {
        ItemsBegin(r.value.items, t[1..], r.rest);
      }
    }
    forall v, rest | BareIn(v, t, rest)
      ensures r == Got(v, rest)
    {
      BareFirst(v, t, rest);
      if v.items == [] {
        assert u == "]" + rest && u[1..] == rest;
      } else {
        ItemsBegin(v.items, t[1..], rest);
      }
    }
  }

  lemma ObjectStep(s: string)
    requires s != "" && s[0] == '{'
    ensures
      var t := SkipBlank(s[1..]);
      var fields := ReadFields(s[1..], []);
      ReadValue(s) ==
      if Expect(t, '}').Some? then Got(Object([]), t[1..])
      else if fields.Failed? then Failed
      else Got(Object(fields.value), fields.rest)
  {
    hide ReadFields;
    Solid(s);
  }

  lemma ObjectsRead(t: string)
    requires t != "" && t[0] == '{' && FieldsDecided(t[1..], [])
    ensures BareDecided(t)
  {
    hide ItemsIn, FieldsIn, QuotedIn, NumberIn, Inserted, ReadItems, ReadFields, ReadNumber, ReadString, Past;
    ObjectStep(t);
    BlanksSkipped(t[1..]);
    hide ReadValue, SkipBlank;
    var r, u := ReadValue(t), SkipBlank(t[1..]);
    if r.Got? && u != "" && u[0] == '}' { assert u == "}" + r.rest; }
    forall v, rest | BareIn(v, t, rest)
      ensures r == Got(v, rest)
    {
      BareFirst(v, t, rest);
      if v.fields == [] && Past(t[1..], "}" + rest) {
        assert u == "}" + rest && u[1..] == rest;
      } else {
        var all :| FieldsIn(all, t[1..], rest) && v.fields == Inserted([], all);
        FieldsBegin(all, t[1..], rest);
      }
    }
  }

  lemma NothingRead(t: string)
    requires t == "" || (!Tokens.IsBlank(t[0]) && t[0] !in ['n', 't', 'f', '"', '[', '{', '-'] && !Tokens.IsDigit(t[0]))
    ensures BareDecided(t)
  {
    hide ItemsIn, FieldsIn, QuotedIn, NumberIn, Inserted, ReadItems, ReadFields, ReadNumber, ReadString, BareIn;
    assert ReadValue(t).Failed?;
    forall v, rest | BareIn(v, t, rest)
      ensures false
    {
      BareFirst(v, t, rest);
    }
  }

  lemma {:induction false} ValueIsRead(s: string)
    ensures ValueDecided(s)
    decreases |s|, 0
  {
    hide BareDecided, ItemsDecided, FieldsDecided, ValueDecided;
    var t := SkipBlank(s);
    BlanksSkipped(s);
    if t == "" {
      NothingRead(t);
    } else if t[0] in ['n', 't', 'f'] {
      LiteralRead(t);
    } else if t[0] == '"' {
      TextRead(t);
    } else if t[0] == '[' {
      ItemsAreRead(t[1..]);
      ArraysRead(t);
    } else if t[0] == '{' {
      FieldsAreRead(t[1..], []);
      ObjectsRead(t);
    } else if t[0] == '-' || Tokens.IsDigit(t[0]) {
      NumbersRead(t);
    } else {
      NothingRead(t);
    }
    BlanksBefore(s);
  }

  lemma ItemsIsIn(s: string)
    requires ValueDecided(s) && ReadValue(s).Got? && ReadItems(s).Got?
    requires
      var t := SkipBlank(ReadValue(s).rest);
      t != "" && t[0] == ',' ==> ItemsDecided(t[1..])
    ensures ItemsIn(ReadItems(s).value, s, ReadItems(s).rest)
  {
    hide ValueIn, ReadValue, Past;
    var r, first := ReadItems(s), ReadValue(s);
    BlanksSkipped(first.rest);
    var t := SkipBlank(first.rest);
    if t[0] == ']' {
      assert t == "]" + t[1..] && |r.value| == 1;
    } else {
      var more := ReadItems(t[1..]);
      assert r.value[1..] == more.value;
      SomeItems(more.value, t[1..], more.rest);
    }
  }

  lemma SomeItems(items: seq<Json>, s: string, rest: string)
    requires ItemsIn(items, s, rest)
    ensures items != []
  {}

  lemma ItemsIsRead(items: seq<Json>, s: string, rest: string)
    requires ValueDecided(s) && ItemsIn(items, s, rest)
    requires
      ReadValue(s).Got? ==>
        var t := SkipBlank(ReadValue(s).rest);
        t != "" && t[0] == ',' ==> ItemsDecided(t[1..])
    ensures ReadItems(s) == Got(items, rest)
  {
    hide ValueIn, ReadValue, Past;
    var mid, u :|
      && |u| <= |mid| < |s| && ValueIn(items[0], s, mid) && Past(mid, u) && u != ""
      && if |items| == 1 then u == "]" + rest else u[0] == ',' && ItemsIn(items[1..], u[1..], rest);
    BlanksSkipped(mid);
    assert ReadValue(s) == Got(items[0], mid) && SkipBlank(mid) == u;
    if |items| == 1 {
      assert u[1..] == rest && items == [items[0]];
    } else {
      assert items == [items[0]] + items[1..];
    }
  }

  lemma {:induction false} ItemsAreRead(s: string)
    ensures ItemsDecided(s)
    decreases |s|, 1
  {
    hide ValueDecided, ItemsIn, ReadItems;
    ValueIsRead(s);
    if ReadValue(s).Got? {
      var t := SkipBlank(ReadValue(s).rest);
      if t != "" && t[0] == ',' { ItemsAreRead(t[1..]); }
    }
    hide ReadValue, SkipBlank;
    if ReadItems(s).Got? {
      ItemsGot(s);
      ItemsIsIn(s);
    }
    forall items, rest | ItemsIn(items, s, rest)
      ensures ReadItems(s) == Got(items, rest)
    {
      ItemsIsRead(items, s, rest);
    }
  }

  lemma ItemsGot(s: string)
    requires ReadItems(s).Got?
    ensures ReadValue(s).Got?
  {
    hide ReadValue;
  }

  // ---- Objects ----

  /** What the reader takes for a field. */
  function ReadField(s: string): Read<JsonField>
  {
    var key := ReadString(SkipBlank(s));
    if key.Failed? || Expect(SkipBlank(key.rest), ':').None? then Failed
    else
      var v := ReadValue(SkipBlank(key.rest)[1..]);
      if v.Failed? then Failed else Got(JsonField(key.value, v.value), SkipBlank(v.rest))
  }

  lemma FieldsUnfold(s: string, sofar: seq<JsonField>)
    ensures
      var one, r := ReadField(s), ReadFields(s, sofar);
      if one.Failed? || one.rest == "" then r.Failed?
      else
        var fields := InsertField(sofar, one.value.key, one.value.value);
        && |one.rest| < |s|
        && r == if one.rest[0] == '}' then Got(fields, one.rest[1..])
                else if one.rest[0] == ',' then ReadFields(one.rest[1..], fields)
                else Failed
  {
    hide ReadString, ReadValue;
  }

  /** The value of the first field is read as it stands. */
  ghost predicate FieldValueDecided(s: string)
  {
    var key := ReadString(SkipBlank(s));
    key.Got? && Expect(SkipBlank(key.rest), ':').Some? ==> ValueDecided(SkipBlank(key.rest)[1..])
  }

  lemma FieldIsRead(s: string)
    requires FieldValueDecided(s)
    ensures
      var one := ReadField(s);
      one.Got? && one.rest != "" ==> |one.rest| < |s| && FieldIn(one.value, s, one.rest)
    ensures forall field, u :: FieldIn(field, s, u) ==> ReadField(s) == Got(field, u)
  {
    hide Past, QuotedIn, ValueIn, ReadValue, ReadString;
    var q := SkipBlank(s);
    BlanksSkipped(s);
    StringIsRead(q);
    var key := ReadString(q);
    if key.Got? {
      BlanksSkipped(key.rest);
      var c := SkipBlank(key.rest);
      if c != "" && c[0] == ':' && ReadValue(c[1..]).Got? { BlanksSkipped(ReadValue(c[1..]).rest); }
    }
    hide SkipBlank;
    forall field, u | FieldIn(field, s, u)
      ensures ReadField(s) == Got(field, u)
    {
      var p, k, c, mid :|
        && |u| <= |mid| < |c| <= |k| < |s|
        && Past(s, p) && QuotedIn(field.key, p, k) && Past(k, c) && c[0] == ':'
        && ValueIn(field.value, c[1..], mid) && Past(mid, u) && u != "";
      assert ReadString(q) == Got(field.key, k) && SkipBlank(k) == c && ReadValue(c[1..]) == Got(field.value, mid);
    }
  }

  lemma FieldsIsIn(s: string, sofar: seq<JsonField>) returns (all: seq<JsonField>)
    requires FieldValueDecided(s) && ReadFields(s, sofar).Got?
    requires
      var one := ReadField(s);
      one.Got? && one.rest != "" && one.rest[0] == ',' ==>
        FieldsDecided(one.rest[1..], InsertField(sofar, one.value.key, one.value.value))
    ensures FieldsIn(all, s, ReadFields(s, sofar).rest) && ReadFields(s, sofar).value == Inserted(sofar, all)
  {
    hide ReadFields, ReadField, FieldIn, FieldValueDecided;
    FieldIsRead(s);
    FieldsUnfold(s, sofar);
    var one, r := ReadField(s), ReadFields(s, sofar);
    var fields := InsertField(sofar, one.value.key, one.value.value);
    if one.rest[0] == '}' {
      all := [one.value];
      assert one.rest == "}" + r.rest;
      assert all[1..] == [] && Inserted(sofar, all) == Inserted(fields, []);
    } else {
      var more :| FieldsIn(more, one.rest[1..], r.rest) && r.value == Inserted(fields, more);
      all := [one.value] + more;
      assert all[1..] == more;
      SomeFields(more, one.rest[1..], r.rest);
    }
  }

  lemma SomeFields(fields: seq<JsonField>, s: string, rest: string)
    requires FieldsIn(fields, s, rest)
    ensures fields != []
  {}

  lemma FieldsIsRead(all: seq<JsonField>, s: string, sofar: seq<JsonField>, rest: string)
    requires FieldValueDecided(s) && FieldsIn(all, s, rest)
    requires
      var one := ReadField(s);
      one.Got? && one.rest != "" && one.rest[0] == ',' ==>
        FieldsDecided(one.rest[1..], InsertField(sofar, one.value.key, one.value.value))
    ensures ReadFields(s, sofar) == Got(Inserted(sofar, all), rest)
  {
    hide ReadFields, ReadField, FieldIn, FieldValueDecided;
    FieldIsRead(s);
    FieldsUnfold(s, sofar);
    var u :|
      && 0 < |u| < |s| && FieldIn(all[0], s, u)
      && if |all| == 1 then u == "}" + rest else u[0] == ',' && FieldsIn(all[1..], u[1..], rest);
    assert ReadField(s) == Got(all[0], u);
    if |all| == 1 { assert u[1..] == rest && all[1..] == []; }
  }

  lemma {:induction false} FieldsAreRead(s: string, sofar: seq<JsonField>)
    ensures FieldsDecided(s, sofar)
    decreases |s|, 1
  {
    hide ValueDecided, FieldsIn, ReadFields, ReadValue, ReadString;
    var key := ReadString(SkipBlank(s));
    if key.Got? && Expect(SkipBlank(key.rest), ':').Some? {
      ColonInside(s);
      ValueIsRead(SkipBlank(key.rest)[1..]);
    }
    hide SkipBlank;
    assert FieldValueDecided(s);
    hide FieldValueDecided;
    var one := ReadField(s);
    FieldsUnfold(s, sofar);
    hide ReadField;
    if one.Got? && one.rest != "" && one.rest[0] == ',' {
      FieldsAreRead(one.rest[1..], InsertField(sofar, one.value.key, one.value.value));
    }
    if ReadFields(s, sofar).Got? { var all := FieldsIsIn(s, sofar); }
    forall all, rest | FieldsIn(all, s, rest)
      ensures ReadFields(s, sofar) == Got(Inserted(sofar, all), rest)
    {
      FieldsIsRead(all, s, sofar, rest);
    }
  }

  lemma ColonInside(s: string)
    requires ReadString(SkipBlank(s)).Got? && Expect(SkipBlank(ReadString(SkipBlank(s)).rest), ':').Some?
    ensures |SkipBlank(ReadString(SkipBlank(s)).rest)[1..]| < |s|
  {
    hide ReadString;
  }

  // ---- Main result ----

  /** The reader accepts the texts of JSON values, and no others, and returns the one value of each. */
  lemma ReadIffJson(s: string, v: Json)
    ensures ReadJson(s) == Some(v) <==> IsJson(v, s)
  {
    ValueIsRead(s);
    hide ReadValue, ValueIn;
    var r := ReadValue(s);
    if r.Got? { OnlyBlanks(r.rest); }
    forall rest | ValueIn(v, s, rest) && Tokens.AllBlank(rest)
      ensures ReadJson(s) == Some(v)
    {
      OnlyBlanks(rest);
    }
  }

  lemma {:induction false} OnlyBlanks(s: string)
    ensures SkipBlank(s) == "" <==> Tokens.AllBlank(s)
  {
    if s != "" {
      OnlyBlanks(s[1..]);
      assert forall i :: 1 <= i < |s| ==> s[i] == s[1..][i - 1];
    }
  }
}
