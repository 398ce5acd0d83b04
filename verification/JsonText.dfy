/** JSON as src/lsp.rs writes and reads it: lines 359-387, 405-576 and 2168-2183. */
module JsonText {
  import opened Ast
  import Tokens

  /** A number is an integer or the text of another number; an object lists its fields in the order of its keys. */
  datatype Json =
    | Null
    | Truth(flag: bool)
    | Number(n: int)
    | Decimal(text: string)
    | Text(chars: string)
    | Array(items: seq<Json>)
    | Object(fields: seq<JsonField>)

  datatype JsonField = JsonField(key: string, value: Json)

  // ---- Keys in order ----

  predicate Less(s: string, t: string)
  {
    t != "" && (s == "" || s[0] < t[0] || (s[0] == t[0] && Less(s[1..], t[1..])))
  }

  predicate Ascending(fields: seq<JsonField>)
  {
    forall i :: 0 <= i < |fields| - 1 ==> Less(fields[i].key, fields[i + 1].key)
  }

  /** As in a map that is ordered by its keys: a key that is there gets the new value. */
  function InsertField(fields: seq<JsonField>, key: string, value: Json): seq<JsonField>
  {
    if fields == [] || Less(key, fields[0].key) then [JsonField(key, value)] + fields
    else if key == fields[0].key then [JsonField(key, value)] + fields[1..]
    else [fields[0]] + InsertField(fields[1..], key, value)
  }

  // ---- Writing ----

  function HexDigit(d: nat): char
    requires d < 16
  {
    if d < 10 then '0' + d as char else 'a' + (d - 10) as char
  }

  predicate IsControl(c: char) { c < ' ' || '\U{7F}' <= c <= '\U{9F}' }

  function EscapeJsonChar(c: char): string
  {
    if c == '"' then "\\\""
    else if c == '\\' then "\\\\"
    else if c == '\n' then "\\n"
    else if c == '\r' then "\\r"
    else if c == '\t' then "\\t"
    else if IsControl(c) then "\\u00" + [HexDigit(c as int / 16), HexDigit(c as int % 16)]
    else [c]
  }

  function EscapeJson(s: string): string
  {
    if s == "" then "" else EscapeJsonChar(s[0]) + EscapeJson(s[1..])
  }

  function JsonString(s: string): string { "\"" + EscapeJson(s) + "\"" }

  function ToJson(v: Json): string
    decreases v, 0
  {
    match v
    case Null => "null"
    case Truth(b) => if b then "true" else "false"
    case Number(n) => Tokens.IntText(n)
    case Decimal(text) => text
    case Text(s) => JsonString(s)
    case Array(items) => "[" + ItemsToJson(items) + "]"
    case Object(fields) => "{" + FieldsToJson(fields) + "}"
  }

  function ItemsToJson(items: seq<Json>): string
    decreases items, 0
  {
    if items == [] then "" else if |items| == 1 then ToJson(items[0]) else ToJson(items[0]) + "," + ItemsToJson(items[1..])
  }

  function FieldsToJson(fields: seq<JsonField>): string
    decreases fields, 0
  {
    if fields == [] then ""
    else
      JsonString(fields[0].key) + ":" + ToJson(fields[0].value) +
      if |fields| == 1 then "" else "," + FieldsToJson(fields[1..])
  }

  // ---- Reading ----

  datatype Read<+T> = Failed | Got(value: T, rest: string) {
    predicate IsFailure() { Failed? }

    function PropagateFailure<U>(): Read<U>
      requires Failed?
    {
      Failed
    }

    function Extract(): (T, string)
      requires Got?
    {
      (value, rest)
    }
  }

  function SkipBlank(s: string): (r: string)
    ensures |r| <= |s|
  {
    if s != "" && Tokens.IsBlank(s[0]) then SkipBlank(s[1..]) else s
  }

  function Expect(s: string, c: char): Option<string> { if s != "" && s[0] == c then Some(s[1..]) else None }

  function HexValue(c: char): Option<nat>
  {
    if '0' <= c <= '9' then Some((c - '0') as int)
    else if 'a' <= c <= 'f' then Some((c - 'a') as int + 10)
    else if 'A' <= c <= 'F' then Some((c - 'A') as int + 10)
    else None
  }

  /** Four hexadecimal digits; half of a surrogate pair is no character and is dropped. */
  function ReadUnicode(s: string): Read<string>
  {
    if |s| < 4 || HexValue(s[0]).None? || HexValue(s[1]).None? || HexValue(s[2]).None? || HexValue(s[3]).None? then Failed
    else
      var n := ((HexValue(s[0]).value * 16 + HexValue(s[1]).value) * 16 + HexValue(s[2]).value) * 16 + HexValue(s[3]).value;
      Got(if n < 0xD800 || 0xE000 <= n < 0x1_0000 then [n as char] else [], s[4..])
  }

  function ReadEscape(s: string): Read<string>
  {
    if s == "" then Failed
    else if s[0] == '"' then Got("\"", s[1..])
    else if s[0] == '\\' then Got("\\", s[1..])
    else if s[0] == '/' then Got("/", s[1..])
    else if s[0] == 'b' then Got("\U{8}", s[1..])
    else if s[0] == 'f' then Got("\U{C}", s[1..])
    else if s[0] == 'n' then Got("\n", s[1..])
    else if s[0] == 'r' then Got("\r", s[1..])
    else if s[0] == 't' then Got("\t", s[1..])
    else if s[0] == 'u' then ReadUnicode(s[1..])
    else Failed
  }

  /** The rest of a string behind its opening quote. */
  function ReadChars(s: string): (r: Read<string>)
    ensures r.Got? ==> |r.rest| < |s|
    decreases |s|
  {
    if s == "" then Failed
    else if s[0] == '"' then Got("", s[1..])
    else if s[0] == '\\' then
      var (chars, rest) :- ReadEscape(s[1..]);
      if |rest| >= |s| then Failed else
        var (more, end) :- ReadChars(rest);
        Got(chars + more, end)
    else
      var (more, end) :- ReadChars(s[1..]);
      Got([s[0]] + more, end)
  }

  function ReadString(s: string): (r: Read<string>)
    ensures r.Got? ==> |r.rest| < |s|
  {
    if s == "" || s[0] != '"' then Failed else ReadChars(s[1..])
  }

  function Literal(s: string, text: string, v: Json): (r: Read<Json>)
    requires text != ""
    ensures r.Got? ==> |r.rest| < |s|
  {
    if text <= s then Got(v, s[|text|..]) else Failed
  }

  // ---- Numbers ----

  function SkipDigits(s: string): (r: string)
    ensures |r| <= |s|
  {
    s[Tokens.DigitRun(s)..]
  }

  function SkipOne(s: string, c: char): (r: string)
    ensures |r| <= |s|
  {
    if s != "" && s[0] == c then s[1..] else s
  }

  function SkipFraction(s: string): (r: string)
    ensures |r| <= |s|
  {
    if s != "" && s[0] == '.' then SkipDigits(s[1..]) else s
  }

  function SkipExponent(s: string): (r: string)
    ensures |r| <= |s|
  {
    if s != "" && (s[0] == 'e' || s[0] == 'E') then
      var e := s[1..];
      SkipDigits(if e != "" && e[0] == '+' then e[1..] else SkipOne(e, '-'))
    else s
  }

  /** What is left behind the characters that are taken for a number. */
  function AfterNumber(s: string): (r: string)
    ensures |r| <= |s|
  {
    SkipExponent(SkipFraction(SkipDigits(SkipOne(s, '-'))))
  }

  predicate IsIntegerText(t: string)
  {
    var digits := if t != "" && t[0] == '-' then t[1..] else t;
    digits != "" && Tokens.AllDigits(digits)
  }

  function IntegerValue(t: string): int
  {
    if t != "" && t[0] == '-' then 0 - Tokens.DecimalValue(t[1..]) else Tokens.DecimalValue(t)
  }

  /** A digit before the exponent, and one in the exponent if there is one. */
  predicate IsFloatText(t: string)
  {
    var s := if t != "" && t[0] == '-' then t[1..] else t;
    var n := Tokens.DigitRun(s);
    var fraction := if n < |s| && s[n] == '.' then Tokens.DigitRun(s[n + 1..]) else 0;
    var rest := if n < |s| && s[n] == '.' then s[n + 1 + fraction..] else s[n..];
    && n + fraction > 0
    && (rest == "" || (|rest| > 1 && Tokens.IsDigit(rest[|rest| - 1])))
  }

  function ReadNumber(s: string): (r: Read<Json>)
    ensures r.Got? && s != "" ==> |r.rest| <= |s|
  {
    var rest := AfterNumber(s);
    var text := s[..|s| - |rest|];
    if IsIntegerText(text) then Got(Number(IntegerValue(text)), rest)
    else if IsFloatText(text) then Got(Decimal(text), rest)
    else Failed
  }

  // ---- Values ----

  function ReadValue(s: string): (r: Read<Json>)
    ensures r.Got? ==> |r.rest| < |s|
    decreases |s|, 0
  {
    var t := SkipBlank(s);
    if t == "" then Failed
    else if t[0] == 'n' then Literal(t, "null", Null)
    else if t[0] == 't' then Literal(t, "true", Truth(true))
    else if t[0] == 'f' then Literal(t, "false", Truth(false))
    else if t[0] == '"' then
      var (chars, rest) :- ReadString(t);
      Got(Text(chars), rest)
    else if t[0] == '[' then
      if Expect(SkipBlank(t[1..]), ']').Some? then Got(Array([]), SkipBlank(t[1..])[1..])
      else
        var (items, rest) :- ReadItems(t[1..]);
        Got(Array(items), rest)
    else if t[0] == '{' then
      if Expect(SkipBlank(t[1..]), '}').Some? then Got(Object([]), SkipBlank(t[1..])[1..])
      else
        var (fields, rest) :- ReadFields(t[1..], []);
        Got(Object(fields), rest)
    else if t[0] == '-' || Tokens.IsDigit(t[0]) then
      NumberTakes(t);
      ReadNumber(t)
    else Failed
  }

  lemma NumberTakes(t: string)
    requires t != "" && (t[0] == '-' || Tokens.IsDigit(t[0]))
    ensures |AfterNumber(t)| < |t|
  {}

  function ReadItems(s: string): (r: Read<seq<Json>>)
    ensures r.Got? ==> |r.rest| < |s|
    decreases |s|, 1
  {
    var (v, rest) :- ReadValue(s);
    var t := SkipBlank(rest);
    if Expect(t, ']').Some? then Got([v], t[1..])
    else if Expect(t, ',').Some? then
      var (vs, end) :- ReadItems(t[1..]);
      Got([v] + vs, end)
    else Failed
  }

  /** The fields so far, and one more. */
  function ReadFields(s: string, sofar: seq<JsonField>): (r: Read<seq<JsonField>>)
    ensures r.Got? ==> |r.rest| < |s|
    decreases |s|, 1
  {
    var (key, rest) :- ReadString(SkipBlank(s));
    if Expect(SkipBlank(rest), ':').None? then Failed
    else
      var (v, after) :- ReadValue(SkipBlank(rest)[1..]);
      var fields := InsertField(sofar, key, v);
      var t := SkipBlank(after);
      if Expect(t, '}').Some? then Got(fields, t[1..])
      else if Expect(t, ',').Some? then ReadFields(t[1..], fields)
      else Failed
  }

  function ReadJson(s: string): Option<Json>
  {
    var r := ReadValue(s);
    if r.Got? && SkipBlank(r.rest) == "" then Some(r.value) else None
  }

  // ---- Round trip ----

  /** No other numbers than integers, and the keys of every object in order. */
  predicate Printable(v: Json)
  {
    match v
    case Decimal(_) => false
    case Array(items) => forall i :: 0 <= i < |items| ==> Printable(items[i])
    case Object(fields) => Ascending(fields) && forall i :: 0 <= i < |fields| ==> Printable(fields[i].value)
    case _ => true
  }

  lemma HexDigitValue(d: nat)
    requires d < 16
    ensures HexValue(HexDigit(d)) == Some(d)
  {}

  lemma ControlRead(c: char, rest: string)
    requires IsControl(c)
    ensures ReadUnicode("00" + [HexDigit(c as int / 16), HexDigit(c as int % 16)] + rest) == Got([c], rest)
  {
    HexDigitValue(c as int / 16);
    HexDigitValue(c as int % 16);
  }

  lemma EscapeRead(c: char, rest: string)
    ensures
      var e := EscapeJsonChar(c);
      e != "" &&
      if |e| == 1 then e == [c] && c != '"' && c != '\\'
      else e[0] == '\\' && ReadEscape(e[1..] + rest) == Got([c], rest)
  {
    var e := EscapeJsonChar(c);
    if IsControl(c) && c != '\n' && c != '\r' && c != '\t' {
      ControlRead(c, rest);
      var hex := [HexDigit(c as int / 16), HexDigit(c as int % 16)];
      assert e[1..] + rest == "u" + ("00" + hex + rest);
    } else if |e| > 1 {
      assert e[1..] + rest == [e[1]] + rest;
    }
  }

  /** One character, as written, is read as itself. */
  lemma CharRead(c: char, more: string)
    ensures
      var rest := ReadChars(more);
      ReadChars(EscapeJsonChar(c) + more) == if rest.Failed? then Failed else Got([c] + rest.value, rest.rest)
  {
    var e := EscapeJsonChar(c);
    EscapeRead(c, more);
    hide EscapeJsonChar, ReadEscape;
    if |e| == 1 {
      assert (e + more)[1..] == more;
    } else {
      assert (e + more)[1..] == e[1..] + more;
    }
  }

  /** Every string comes back, with quotes, backslashes and control characters. */
  lemma {:induction false} StringRead(s: string, rest: string)
    ensures ReadChars(EscapeJson(s) + "\"" + rest) == Got(s, rest)
  {
    hide EscapeJsonChar;
    if s == "" {
      assert EscapeJson(s) + "\"" + rest == "\"" + rest;
      assert ("\"" + rest)[1..] == rest;
    } else {
      hide ReadChars;
      var e, x := EscapeJsonChar(s[0]), EscapeJson(s[1..]);
      assert EscapeJson(s) == e + x;
      hide EscapeJson;
      StringRead(s[1..], rest);
      CharRead(s[0], x + "\"" + rest);
      assert e + x + "\"" + rest == e + (x + "\"" + rest);
      assert s == [s[0]] + s[1..];
    }
  }

  lemma QuotedRead(s: string, rest: string)
    ensures ReadString(JsonString(s) + rest) == Got(s, rest)
  {
    StringRead(s, rest);
    hide ReadChars, EscapeJson;
    var t := JsonString(s) + rest;
    assert t[0] == '"' && t[1..] == EscapeJson(s) + "\"" + rest;
  }

  /** Nothing that would go on with a number. */
  predicate EndsNumber(rest: string)
  {
    rest == "" || (!Tokens.IsDigit(rest[0]) && rest[0] != '.' && rest[0] != 'e' && rest[0] != 'E')
  }

  lemma NumberEnds(negative: bool, digits: string, rest: string)
    requires digits != "" && Tokens.AllDigits(digits) && EndsNumber(rest)
    ensures AfterNumber((if negative then "-" else "") + digits + rest) == rest
  {
    assert Tokens.IsDigit(digits[0]);
    hide Tokens.DigitRun, Tokens.AllDigits;
    var s := (if negative then "-" else "") + digits + rest;
    Tokens.DigitRunOf(digits, rest);
    assert (digits + rest)[|digits|..] == rest;
    if negative {
      assert s[1..] == digits + rest;
    } else {
      assert s == digits + rest;
    }
  }

  lemma NumberRead(n: int, rest: string)
    requires EndsNumber(rest)
    ensures
      var s := Tokens.IntText(n) + rest;
      ReadNumber(s) == Got(Number(n), rest) && (s[0] == '-' || Tokens.IsDigit(s[0]))
  {
    hide Tokens.DecimalText, Tokens.DecimalValue, Tokens.DigitRun, IsFloatText, AfterNumber, EndsNumber;
    var digits := Tokens.DecimalText(if n < 0 then -n else n);
    var s := Tokens.IntText(n) + rest;
    Tokens.DecimalRoundTrip(if n < 0 then -n else n);
    NumberEnds(n < 0, digits, rest);
    assert Tokens.IsDigit(digits[0]);
    assert "" + digits == digits && ("-" + digits)[1..] == digits;
    assert s[..|s| - |rest|] == (if n < 0 then "-" else "") + digits;
  }

  lemma Solid(s: string)
    requires s != "" && !Tokens.IsBlank(s[0])
    ensures SkipBlank(s) == s
  {}

  /** The first character tells what kind of value it is. */
  lemma {:induction false} FirstChar(v: Json, rest: string)
    requires Printable(v)
    ensures
      var s := ToJson(v) + rest;
      s != "" && !Tokens.IsBlank(s[0]) && s[0] != ']' && s[0] != '}'
  {
    if v.Number? {
      var digits := Tokens.DecimalText(if v.n < 0 then -v.n else v.n);
      assert Tokens.IsDigit(digits[0]);
    }
  }

  function ItemsTail(items: seq<Json>, rest: string): string
    requires items != []
  {
    if |items| == 1 then rest else "," + ItemsToJson(items[1..]) + rest
  }

  lemma ItemsStart(items: seq<Json>, rest: string)
    requires items != []
    ensures ItemsToJson(items) + rest == ToJson(items[0]) + ItemsTail(items, rest)
  {}

  lemma FieldsStart(fields: seq<JsonField>, rest: string)
    requires fields != []
    ensures (FieldsToJson(fields) + rest)[0] == '"'
  {}

  /** Reading what was written gives the value back, whatever follows it. */
  lemma {:induction false} ValueRead(v: Json, rest: string)
    requires Printable(v) && EndsNumber(rest)
    ensures ReadValue(ToJson(v) + rest) == Got(v, rest)
    decreases v, 0
  {
    match v
    case Array(items) => ArrayRead(items, rest);
    case Object(fields) => ObjectRead(fields, rest);
    case _ => ScalarRead(v, rest);
  }

  lemma ScalarRead(v: Json, rest: string)
    requires Printable(v) && !v.Array? && !v.Object? && EndsNumber(rest)
    ensures ReadValue(ToJson(v) + rest) == Got(v, rest)
  {
    hide ReadNumber, ReadChars, EscapeJson, AfterNumber;
    var s := ToJson(v) + rest;
    FirstChar(v, rest);
    Solid(s);
    match v
    case Null => assert s[..4] == "null" && s[4..] == rest;
    case Truth(b) => if b { assert s[..4] == "true" && s[4..] == rest; } else { assert s[..5] == "false" && s[5..] == rest; }
    case Number(n) => NumberRead(n, rest);
    case Text(chars) => QuotedRead(chars, rest);
    case _ =>
  }

  lemma ArrayStep(s: string)
    requires s != "" && s[0] == '['
    ensures
      var t := SkipBlank(s[1..]);
      var items := ReadItems(s[1..]);
      ReadValue(s) ==
      if Expect(t, ']').Some? then Got(Array([]), t[1..])
      else if items.Failed? then Failed
      else Got(Array(items.value), items.rest)
  {
    hide ReadItems;
    Solid(s);
  }

  lemma {:induction false} ArrayRead(items: seq<Json>, rest: string)
    requires forall i :: 0 <= i < |items| ==> Printable(items[i])
    ensures ReadValue(ToJson(Array(items)) + rest) == Got(Array(items), rest)
    decreases items, 1
  {
    hide ReadValue, ItemsToJson, ReadItems, Printable, ToJson, ItemsTail;
    var s := ToJson(Array(items)) + rest;
    ArrayText(items, rest);
    ArrayStep(s);
    if items == [] {
      NoItems();
      Solid(s[1..]);
      assert s[1..] == "]" + rest && s[1..][1..] == rest;
    } else {
      ItemsRead(items, rest);
      FirstChar(items[0], ItemsTail(items, "]" + rest));
      ItemsStart(items, "]" + rest);
      assert ItemsToJson(items) + "]" + rest == ItemsToJson(items) + ("]" + rest);
      Solid(s[1..]);
    }
  }

  lemma ArrayText(items: seq<Json>, rest: string)
    ensures
      var s := ToJson(Array(items)) + rest;
      s != "" && s[0] == '[' && s[1..] == ItemsToJson(items) + "]" + rest
  {}

  lemma NoItems()
    ensures ItemsToJson([]) == "" && FieldsToJson([]) == ""
  {}

  lemma {:induction false} ObjectRead(fields: seq<JsonField>, rest: string)
    requires Ascending(fields) && forall i :: 0 <= i < |fields| ==> Printable(fields[i].value)
    ensures ReadValue(ToJson(Object(fields)) + rest) == Got(Object(fields), rest)
    decreases fields, |fields| + 1
  {
    hide ReadNumber, ReadChars, EscapeJson, AfterNumber, FieldsToJson, ReadFields, Printable, Ascending;
    var s := ToJson(Object(fields)) + rest;
    Solid(s);
    if fields == [] {
      assert FieldsToJson(fields) == "" by { NoItems(); }
      assert s[1..] == "}" + rest;
      Solid(s[1..]);
      assert s[1..][1..] == rest;
    } else {
      FieldsRead(fields, 0, rest);
      assert fields[0..] == fields && fields[..0] == [];
      assert s[1..] == FieldsToJson(fields) + "}" + rest;
      FieldsStart(fields, "}" + rest);
      assert FieldsToJson(fields) + "}" + rest == FieldsToJson(fields) + ("}" + rest);
      Solid(s[1..]);
    }
  }

  lemma {:induction false} ItemsRead(items: seq<Json>, rest: string)
    requires items != [] && forall i :: 0 <= i < |items| ==> Printable(items[i])
    ensures ReadItems(ItemsToJson(items) + "]" + rest) == Got(items, rest)
    decreases items, 0
  {
    hide ReadValue, ToJson, Printable, ItemsToJson;
    var tail := ItemsTail(items, "]" + rest);
    var s := ItemsToJson(items) + "]" + rest;
    ItemsStart(items, "]" + rest);
    assert s == ToJson(items[0]) + tail by {
      assert ItemsToJson(items) + "]" + rest == ItemsToJson(items) + ("]" + rest);
    }
    ValueRead(items[0], tail);
    Solid(tail);
    if |items| == 1 {
      assert tail[1..] == rest && items == [items[0]];
    } else {
      assert tail[1..] == ItemsToJson(items[1..]) + "]" + rest;
      ItemsRead(items[1..], rest);
      assert items == [items[0]] + items[1..];
    }
  }

  lemma {:induction false} LessIsTransitive(s: string, t: string, u: string)
    requires Less(s, t) && Less(t, u)
    ensures Less(s, u)
  {
    if s != "" && s[0] == t[0] && t[0] == u[0] { LessIsTransitive(s[1..], t[1..], u[1..]); }
  }

  lemma {:induction false} LessIsStrict(s: string, t: string)
    requires Less(s, t)
    ensures s != t && !Less(t, s)
  {
    if s != "" && s[0] == t[0] { LessIsStrict(s[1..], t[1..]); }
  }

  /** A key behind all others goes to the end. */
  lemma {:induction false} InsertLast(fields: seq<JsonField>, key: string, value: Json)
    requires Ascending(fields) && (fields != [] ==> Less(fields[|fields| - 1].key, key))
    ensures InsertField(fields, key, value) == fields + [JsonField(key, value)]
  {
    if fields != [] {
      FirstIsLess(fields, key);
      LessIsStrict(fields[0].key, key);
      InsertLast(fields[1..], key, value);
    }
  }

  lemma {:induction false} FirstIsLess(fields: seq<JsonField>, key: string)
    requires fields != [] && Ascending(fields) && Less(fields[|fields| - 1].key, key)
    ensures Less(fields[0].key, key)
  {
    if |fields| > 1 {
      FirstIsLess(fields[1..], key);
      assert Less(fields[0].key, fields[1].key);
      LessIsTransitive(fields[0].key, fields[1].key, key);
    }
  }

  lemma QuoteFirst(s: string)
    ensures JsonString(s) != "" && JsonString(s)[0] == '"'
  {}

  lemma FieldRead(s: string, sofar: seq<JsonField>, field: JsonField, tail: string)
    requires SkipBlank(s) == s && tail != "" && (tail[0] == '}' || tail[0] == ',')
    requires ReadString(s) == Got(field.key, ":" + (ToJson(field.value) + tail))
    requires ReadValue(ToJson(field.value) + tail) == Got(field.value, tail)
    ensures
      var fields := InsertField(sofar, field.key, field.value);
      ReadFields(s, sofar) == if tail[0] == '}' then Got(fields, tail[1..]) else ReadFields(tail[1..], fields)
  {
    hide ReadString, ReadValue, InsertField, ToJson, SkipBlank;
    var u := ":" + (ToJson(field.value) + tail);
    Solid(u);
    Solid(tail);
    assert u[1..] == ToJson(field.value) + tail;
  }

  lemma FieldsFrom(fields: seq<JsonField>, i: nat, rest: string)
    requires i < |fields|
    ensures
      var more := if i + 1 == |fields| then "}" + rest else "," + FieldsToJson(fields[i + 1..]) + "}" + rest;
      FieldsToJson(fields[i..]) + "}" + rest == JsonString(fields[i].key) + (":" + (ToJson(fields[i].value) + more))
  {
    hide JsonString, ToJson;
    assert fields[i..][1..] == fields[i + 1..];
    var head := JsonString(fields[i].key) + ":" + ToJson(fields[i].value);
    assert FieldsToJson(fields[i..]) == head + if i + 1 == |fields| then "" else "," + FieldsToJson(fields[i + 1..]);
  }

  lemma Taken(fields: seq<JsonField>, i: nat)
    requires i < |fields|
    ensures fields[..i] + [JsonField(fields[i].key, fields[i].value)] == fields[..i + 1]
    ensures fields[..|fields|] == fields
  {}

  /** The fields from `i` on join those before. */
  lemma {:induction false} FieldsRead(fields: seq<JsonField>, i: nat, rest: string)
    requires i < |fields| && Ascending(fields) && forall j :: 0 <= j < |fields| ==> Printable(fields[j].value)
    ensures ReadFields(FieldsToJson(fields[i..]) + "}" + rest, fields[..i]) == Got(fields, rest)
    decreases fields, |fields| - i
  {
    hide ReadString, ReadValue, JsonString, InsertField, Less, Printable;
    var field := fields[i];
    var last := i + 1 == |fields|;
    var tail := if last then "}" + rest else "," + FieldsToJson(fields[i + 1..]) + "}" + rest;
    var s := FieldsToJson(fields[i..]) + "}" + rest;
    FieldsFrom(fields, i, rest);
    hide FieldsToJson;
    assert JsonString(field.key)[0] == '"' by { QuoteFirst(field.key); }
    Solid(s);
    QuotedRead(field.key, ":" + (ToJson(field.value) + tail));
    ValueRead(field.value, tail);
    InsertLast(fields[..i], field.key, field.value);
    FieldRead(s, fields[..i], field, tail);
    hide *;
    Taken(fields, i);
    if last {
      assert tail[1..] == rest;
    } else {
      assert tail[1..] == FieldsToJson(fields[i + 1..]) + "}" + rest;
      FieldsRead(fields, i + 1, rest);
    }
  }

  predicate IsHexOf(s: string, n: nat)
  {
    |s| == 4 && (forall i :: 0 <= i < 4 ==> HexValue(s[i]).Some?) &&
    n == ((HexValue(s[0]).value * 16 + HexValue(s[1]).value) * 16 + HexValue(s[2]).value) * 16 + HexValue(s[3]).value
  }

  lemma UnicodeRead(digits: string, n: nat, rest: string)
    requires IsHexOf(digits, n)
    ensures ReadUnicode(digits + rest) == Got(if 0xD800 <= n < 0xE000 then "" else [n as char], rest)
  {
    var s := digits + rest;
    assert s[0] == digits[0] && s[1] == digits[1] && s[2] == digits[2] && s[3] == digits[3] && s[4..] == rest;
    HexBound(digits[0]);
    HexBound(digits[1]);
    HexBound(digits[2]);
    HexBound(digits[3]);
    hide HexValue;
  }

  lemma HexBound(c: char)
    requires HexValue(c).Some?
    ensures HexValue(c).value < 16
  {}

  /**
   * A character outside the basic plane, escaped as a surrogate pair (section 7 of RFC 8259), is lost. An
   * escape is read as a character exactly when it is not half of such a pair.
   */
  lemma EscapeIsCharacterIff(digits: string, n: nat, rest: string)
    requires IsHexOf(digits, n)
    ensures ReadEscape("u" + digits + rest).Got?
    ensures ReadEscape("u" + digits + rest).value == "" <==> 0xD800 <= n < 0xE000
  {
    var s := "u" + digits + rest;
    assert s[1..] == digits + rest && ReadEscape(s) == ReadUnicode(s[1..]);
    hide ReadEscape;
    UnicodeRead(digits, n, rest);
  }

  /** Reading printed JSON returns the same value. */
  lemma JsonRoundTrip(v: Json)
    requires Printable(v)
    ensures ReadJson(ToJson(v)) == Some(v)
  {
    ValueRead(v, "");
    assert ToJson(v) + "" == ToJson(v);
  }
}
