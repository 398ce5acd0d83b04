/** The tokens of src/lexer.rs and the text the formatter writes for each of them. */
module Tokens {

  datatype Token =
    | Ident(name: string)
    | Variable(name: string)
    | Discard
    | Int(value: int)
    | Real(text: string)
    | RealF32(text: string)
    | Bool(flag: bool)
    | Str(chars: string)
    | Arrow
    | LParen
    | RParen
    | LBrace
    | RBrace
    | LBracket
    | RBracket
    | Less
    | Greater
    | Comma
    | Colon
    | Equal
    | Pipe
    | Dot
    | Eof

  /** Remaining tokens, as the grammar consumes them. */
  datatype List = Nil | Cons(head: Token, tail: List)

  function ListOf(ts: seq<Token>): List
  {
    if ts == [] then Nil else Cons(ts[0], ListOf(ts[1..]))
  }

  // ---- Characters and runs of characters ----

  predicate IsDigit(c: char) { '0' <= c <= '9' }

  predicate IsAlpha(c: char) { 'a' <= c <= 'z' || 'A' <= c <= 'Z' }

  predicate StartsWord(c: char) { IsAlpha(c) || c == '_' }

  predicate IsWordChar(c: char) { IsAlpha(c) || IsDigit(c) || c == '_' }

  predicate IsBlank(c: char) { c == ' ' || c == '\t' || c == '\r' || c == '\n' }

  predicate AllDigits(s: string) { forall i :: 0 <= i < |s| ==> IsDigit(s[i]) }

  predicate AllWordChars(s: string) { forall i :: 0 <= i < |s| ==> IsWordChar(s[i]) }

  predicate AllBlank(s: string) { forall i :: 0 <= i < |s| ==> IsBlank(s[i]) }

  /** Length of the longest prefix of digits. */
  function DigitRun(s: string): (n: nat)
    ensures n <= |s|
  {
    if s != [] && IsDigit(s[0]) then 1 + DigitRun(s[1..]) else 0
  }

  lemma {:induction false} DigitRunSplits(s: string)
    ensures AllDigits(s[..DigitRun(s)])
    ensures DigitRun(s) < |s| ==> !IsDigit(s[DigitRun(s)])
  {
    if s != [] && IsDigit(s[0]) {
      DigitRunSplits(s[1..]);
      assert s[..DigitRun(s)] == [s[0]] + s[1..][..DigitRun(s[1..])];
    }
  }

  /** Length of the longest prefix of word characters. */
  function WordRun(s: string): (n: nat)
    ensures n <= |s|
  {
    if s != [] && IsWordChar(s[0]) then 1 + WordRun(s[1..]) else 0
  }

  lemma {:induction false} WordRunSplits(s: string)
    ensures AllWordChars(s[..WordRun(s)])
    ensures WordRun(s) < |s| ==> !IsWordChar(s[WordRun(s)])
  {
    if s != [] && IsWordChar(s[0]) {
      WordRunSplits(s[1..]);
      assert s[..WordRun(s)] == [s[0]] + s[1..][..WordRun(s[1..])];
    }
  }

  /** A run of digits ends where the first other character stands. */
  lemma {:induction false} DigitRunOf(ds: string, rest: string)
    requires AllDigits(ds) && (rest != [] ==> !IsDigit(rest[0]))
    ensures DigitRun(ds + rest) == |ds|
  {
    if ds == [] {
      assert ds + rest == rest;
    } else {
      assert (ds + rest)[1..] == ds[1..] + rest;
      DigitRunOf(ds[1..], rest);
    }
  }

  lemma {:induction false} WordRunOf(w: string, rest: string)
    requires AllWordChars(w) && (rest != [] ==> !IsWordChar(rest[0]))
    ensures WordRun(w + rest) == |w|
  {
    if w == [] {
      assert w + rest == rest;
    } else {
      assert (w + rest)[1..] == w[1..] + rest;
      WordRunOf(w[1..], rest);
    }
  }

  // ---- Names and literals ----

  /** A name as `$name` may spell it. */
  predicate IsWord(s: string) { s != [] && StartsWord(s[0]) && AllWordChars(s) }

  /** A word that stays an identifier; `true` and `false` become booleans. */
  predicate IsIdent(s: string) { IsWord(s) && s != "true" && s != "false" }

  /** `-?[0-9]+\.[0-9]+`, the only shape of a real literal. */
  predicate IsRealText(s: string)
  {
    var t := if s != [] && s[0] == '-' then s[1..] else s;
    var n := DigitRun(t);
    0 < n && n + 1 < |t| && t[n] == '.' && AllDigits(t[n + 1..])
  }

  const I64_MIN: int := -0x8000_0000_0000_0000
  const I64_MAX: int := 0x7fff_ffff_ffff_ffff

  predicate IsI64(n: int) { I64_MIN <= n <= I64_MAX }

  /** The tokens the lexer can produce. */
  predicate Lexable(t: Token)
  {
    match t
    case Ident(n) => IsIdent(n)
    case Variable(n) => IsWord(n)
    case Int(n) => IsI64(n)
    case Real(text) => IsRealText(text)
    case RealF32(text) => IsRealText(text)
    case Eof => false
    case _ => true
  }

  // ---- The text of a token ----

  function DigitChar(d: nat): (c: char)
    requires d < 10
    ensures IsDigit(c)
  {
    '0' + d as char
  }

  function DigitValue(c: char): nat
  {
    if IsDigit(c) then (c - '0') as int else 0
  }

  function DecimalText(n: nat): (s: string)
    ensures s != [] && AllDigits(s)
  {
    if n < 10 then [DigitChar(n)] else DecimalText(n / 10) + [DigitChar(n % 10)]
  }

  function DecimalValue(s: string): nat
  {
    if s == [] then 0 else 10 * DecimalValue(s[..|s| - 1]) + DigitValue(s[|s| - 1])
  }

  lemma {:induction false} DecimalRoundTrip(n: nat)
    ensures DecimalValue(DecimalText(n)) == n
  {
    var s := DecimalText(n);
    if n < 10 {
      assert s[..|s| - 1] == [];
    } else {
      DecimalRoundTrip(n / 10);
      assert s[..|s| - 1] == DecimalText(n / 10);
    }
  }

  function IntText(n: int): string
  {
    if n < 0 then "-" + DecimalText(-n) else DecimalText(n)
  }

  /** format_string escapes five characters and copies the others. */
  function EscapeChar(c: char): string
  {
    match c
    case '"' => "\\\""
    case '\\' => "\\\\"
    case '\n' => "\\n"
    case '\t' => "\\t"
    case '\r' => "\\r"
    case _ => [c]
  }

  function EscapeText(s: string): string
  {
    if s == [] then [] else EscapeChar(s[0]) + EscapeText(s[1..])
  }

  function TokenText(t: Token): string
  {
    match t
    case Ident(n) => n
    case Variable(n) => "$" + n
    case Discard => "$"
    case Int(n) => IntText(n)
    case Real(text) => text
    case RealF32(text) => text + "f32"
    case Bool(b) => if b then "true" else "false"
    case Str(s) => "\"" + EscapeText(s) + "\""
    case Arrow => "->"
    case LParen => "("
    case RParen => ")"
    case LBrace => "{"
    case RBrace => "}"
    case LBracket => "["
    case RBracket => "]"
    case Less => "<"
    case Greater => ">"
    case Comma => ","
    case Colon => ":"
    case Equal => "="
    case Pipe => "|"
    case Dot => "."
    case Eof => ""
  }
}
