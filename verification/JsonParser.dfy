/** The JSON reader and string writer of src/lsp.rs:405-576, 2168-2183, as loops over a position. */
module JsonParser {
  import opened Ast
  import opened JsonText
  import Tokens

  method WriteJsonString(value: string) returns (out: string)
    ensures out == JsonString(value)
  {
    hide EscapeJsonChar;
    out := "\"";
    for i := 0 to |value|
      invariant out + EscapeJson(value[i..]) == "\"" + EscapeJson(value)
    {
      assert value[i..][1..] == value[i + 1..];
      var e := EscapeJsonChar(value[i]);
      assert EscapeJson(value[i..]) == e + EscapeJson(value[i + 1..]);
      out := out + e;
    }
    assert out + [] == out;
    out := out + "\"";
  }

  class JsonParser {
    const chars: string
    var pos: nat

    ghost predicate Valid()
      reads this
    {
      pos <= |chars|
    }

    function Rest(): string
      requires Valid()
      reads this
    {
      chars[pos..]
    }

    constructor (source: string)
      ensures Valid() && Rest() == source
    {
      chars := source;
      pos := 0;
    }

    method Bump() returns (c: Option<char>)
      requires Valid()
      modifies this
      ensures Valid()
      ensures if old(Rest()) == "" then c.None? && Rest() == "" else c == Some(old(Rest())[0]) && Rest() == old(Rest())[1..]
    {
      if pos == |chars| {
        return None;
      }
      pos := pos + 1;
      return Some(chars[pos - 1]);
    }

    method Eat(c: char) returns (ok: bool)
      requires Valid()
      modifies this
      ensures Valid() && (ok <==> JsonText.Expect(old(Rest()), c).Some?)
      ensures pos == old(pos) + if ok then 1 else 0
      ensures Rest() == if ok then old(Rest())[1..] else old(Rest())
    {
      ok := pos < |chars| && chars[pos] == c;
      if ok {
        pos := pos + 1;
      }
    }

    method Whitespace()
      requires Valid()
      modifies this
      ensures Valid() && Rest() == SkipBlank(old(Rest())) && old(pos) <= pos
    {
      while pos < |chars| && Tokens.IsBlank(chars[pos])
        invariant Valid() && old(pos) <= pos && SkipBlank(Rest()) == SkipBlank(old(Rest()))
        decreases |chars| - pos
      {
        assert Rest()[1..] == chars[pos + 1..];
        pos := pos + 1;
      }
    }

    method Digits()
      requires Valid()
      modifies this
      ensures Valid() && old(pos) <= pos && Rest() == SkipDigits(old(Rest()))
    {
      while pos < |chars| && Tokens.IsDigit(chars[pos])
        invariant Valid() && old(pos) <= pos && SkipDigits(Rest()) == SkipDigits(old(Rest()))
        decreases |chars| - pos
      {
        assert Rest()[1..] == chars[pos + 1..];
        pos := pos + 1;
      }
    }

    method Parse() returns (r: Option<Json>)
      requires Valid()
      modifies this
      ensures r == ReadJson(old(Rest()))
    {
      var v := Value();
      if v.None? {
        return None;
      }
      Whitespace();
      return if pos < |chars| then None else v;
    }

    method LiteralText(text: string, v: Json) returns (r: Option<Json>)
      requires Valid() && text != ""
      modifies this
      ensures Valid() && Returns(r, JsonText.Literal(old(Rest()), text, v))
    {
      ghost var start := Rest();
      for i := 0 to |text|
        invariant Valid() && text[..i] <= start && Rest() == start[i..]
      {
        var c := Bump();
        if c != Some(text[i]) {
          assert !(text <= start);
          return None;
        }
        assert text[..i + 1] == text[..i] + [text[i]];
      }
      assert text[..|text|] == text;
      return Some(v);
    }

    ghost predicate Returns<T>(r: Option<T>, spec: Read<T>)
      requires Valid()
      reads this
    {
      if spec.Failed? then r.None? else r == Some(spec.value) && Rest() == spec.rest
    }

    method StringText() returns (r: Option<string>)
      requires Valid()
      modifies this
      ensures Valid() && Returns(r, ReadString(old(Rest())))
    {
      var quoted := Eat('"');
      if !quoted {
        return None;
      }
      ghost var start := Rest();
      var out := "";
      while pos < |chars|
        invariant Valid() && Continues(out, start)
        decreases |chars| - pos
      {
        ghost var before := Rest();
        var c := chars[pos];
        pos := pos + 1;
        assert Rest() == before[1..];
        if c == '"' {
          assert ReadChars(before) == Got("", before[1..]) && out + "" == out;
          return Some(out);
        }
        if c == '\\' {
          ghost var more := ReadEscape(before[1..]);
          var escaped := Escape();
          if escaped.None? {
            return None;
          }
          EscapeShrinks(before[1..]);
          Appended(out, escaped.value, ReadChars(Rest()));
          out := out + escaped.value;
        } else {
          Appended(out, [c], ReadChars(Rest()));
          out := out + [c];
        }
      }
      return None;
    }

    /** What is read so far, and what is read from here, is what is read from the start. */
    ghost predicate Continues(out: string, start: string)
      requires Valid()
      reads this
    {
      var all, more := ReadChars(start), ReadChars(Rest());
      if more.Failed? then all.Failed? else all.Got? && all.value == out + more.value && all.rest == more.rest
    }

    lemma Appended(out: string, e: string, more: Read<string>)
      ensures more.Got? ==> out + (e + more.value) == out + e + more.value
    {}

    lemma EscapeShrinks(s: string)
      ensures ReadEscape(s).Got? ==> |ReadEscape(s).rest| < |s|
    {}

    method Escape() returns (r: Option<string>)
      requires Valid()
      modifies this
      ensures Valid() && old(pos) <= pos && Returns(r, ReadEscape(old(Rest())))
    {
      var c := Bump();
      if c.None? {
        return None;
      }
      match c.value
      case '"' => return Some("\"");
      case '\\' => return Some("\\");
      case '/' => return Some("/");
      case 'b' => return Some("\U{8}");
      case 'f' => return Some("\U{C}");
      case 'n' => return Some("\n");
      case 'r' => return Some("\r");
      case 't' => return Some("\t");
      case 'u' => r := Unicode();
      case _ => return None;
    }

    method Unicode() returns (r: Option<string>)
      requires Valid()
      modifies this
      ensures Valid() && old(pos) <= pos && Returns(r, ReadUnicode(old(Rest())))
    {
      ghost var start := Rest();
      var value: nat := 0;
      for i := 0 to 4
        invariant Valid() && old(pos) <= pos && i <= |start| && Rest() == start[i..]
        invariant forall j :: 0 <= j < i ==> HexValue(start[j]).Some?
        invariant value == HexPrefix(start, i)
      {
        var c := Bump();
        var digit := if c.None? then None else HexValue(c.value);
        if digit.None? {
          return None;
        }
        value := value * 16 + digit.value;
      }
      assert HexPrefix(start, 4) == HexPrefix(start, 3) * 16 + HexValue(start[3]).value;
      assert HexPrefix(start, 2) == HexPrefix(start, 1) * 16 + HexValue(start[1]).value;
      assert HexPrefix(start, 1) == HexValue(start[0]).value;
      assert value == ((HexValue(start[0]).value * 16 + HexValue(start[1]).value) * 16 + HexValue(start[2]).value) * 16
                      + HexValue(start[3]).value;
      return Some(if value < 0xD800 || 0xE000 <= value < 0x1_0000 then [value as char] else []);
    }

    ghost function HexPrefix(s: string, i: nat): nat
      requires i <= |s| && i <= 4 && forall j :: 0 <= j < i ==> HexValue(s[j]).Some?
    {
      if i == 0 then 0 else HexPrefix(s, i - 1) * 16 + HexValue(s[i - 1]).value
    }

    method SkipNumber()
      requires Valid()
      modifies this
      ensures Valid() && old(pos) <= pos && Rest() == AfterNumber(old(Rest()))
    {
      hide SkipDigits;
      ghost var start := Rest();
      var _ := Eat('-');
      assert Rest() == SkipOne(start, '-');
      Digits();
      ghost var whole := Rest();
      var dot := Eat('.');
      if dot {
        Digits();
      }
      assert Rest() == SkipFraction(whole);
      SkipExponentPart();
    }

    method SkipExponentPart()
      requires Valid()
      modifies this
      ensures Valid() && old(pos) <= pos && Rest() == SkipExponent(old(Rest()))
    {
      hide SkipDigits;
      if pos < |chars| && (chars[pos] == 'e' || chars[pos] == 'E') {
        ghost var before := Rest();
        pos := pos + 1;
        assert Rest() == before[1..];
        var plus := Eat('+');
        if !plus {
          var _ := Eat('-');
        }
        Digits();
      }
    }

    method NumberText() returns (r: Option<Json>)
      requires Valid()
      modifies this
      ensures Valid() && old(pos) <= pos && Returns(r, ReadNumber(old(Rest())))
    {
      hide AfterNumber, IsFloatText, IsIntegerText;
      var start := pos;
      SkipNumber();
      var text := chars[start..pos];
      assert text == old(Rest())[..|old(Rest())| - |Rest()|];
      if IsIntegerText(text) {
        return Some(Number(IntegerValue(text)));
      }
      return if IsFloatText(text) then Some(Decimal(text)) else None;
    }

    method Value() returns (r: Option<Json>)
      requires Valid()
      modifies this
      ensures Valid() && (r.Some? ==> old(pos) < pos) && Returns(r, ReadValue(old(Rest())))
      decreases |chars| - pos, 1
    {
      hide ReadNumber, ReadString, ReadItems, ReadFields, SkipBlank;
      ghost var start := Rest();
      Whitespace();
      ValueStep(start);
      if pos == |chars| {
        return None;
      }
      var c := chars[pos];
      if c == 'n' {
        r := LiteralText("null", Null);
      } else if c == 't' {
        r := LiteralText("true", Truth(true));
      } else if c == 'f' {
        r := LiteralText("false", Truth(false));
      } else if c == '"' {
        var text := StringText();
        r := if text.None? then None else Some(Text(text.value));
      } else if c == '[' {
        r := ArrayValue();
      } else if c == '{' {
        r := ObjectValue();
      } else if c == '-' || Tokens.IsDigit(c) {
        r := NumberText();
      } else {
        return None;
      }
    }

    lemma ValueStep(s: string)
      ensures ReadValue(s) == ReadValue(SkipBlank(s))
      ensures SkipBlank(SkipBlank(s)) == SkipBlank(s)
    {
      BlankTwice(s);
      hide ReadNumber, ReadString, ReadItems, ReadFields, SkipBlank, Literal;
    }

    lemma {:induction false} BlankTwice(s: string)
      ensures SkipBlank(SkipBlank(s)) == SkipBlank(s)
    {
      if s != "" && Tokens.IsBlank(s[0]) { BlankTwice(s[1..]); }
    }

    method ArrayValue() returns (r: Option<Json>)
      requires Valid() && Rest() != "" && Rest()[0] == '['
      modifies this
      ensures Valid() && (r.Some? ==> old(pos) < pos) && Returns(r, ReadValue(old(Rest())))
      decreases |chars| - pos, 0
    {
      hide ReadValue, ReadItems, SkipBlank;
      ArrayStep(Rest());
      var _ := Eat('[');
      ghost var start := Rest();
      Whitespace();
      var empty := Eat(']');
      if empty {
        return Some(Array([]));
      }
      ItemsStep(start);
      var items: seq<Json> := [];
      while true
        invariant Valid() && old(pos) < pos && ItemsContinue(items, start)
        decreases |chars| - pos
      {
        ItemsStep(Rest());
        var v := Value();
        if v.None? {
          return None;
        }
        ghost var before := items;
        items := items + [v.value];
        Whitespace();
        var end := Eat(']');
        if end {
          assert before + [v.value] == items;
          break;
        }
        var comma := Eat(',');
        if !comma {
          return None;
        }
        ItemAdded(before, v.value, ReadItems(Rest()));
      }
      return Some(Array(items));
    }

    lemma ItemAdded(items: seq<Json>, v: Json, more: Read<seq<Json>>)
      ensures more.Got? ==> items + ([v] + more.value) == items + [v] + more.value
    {}

    ghost predicate ItemsContinue(items: seq<Json>, start: string)
      requires Valid()
      reads this
    {
      var all, more := ReadItems(start), ReadItems(Rest());
      if more.Failed? then all.Failed? else all.Got? && all.value == items + more.value && all.rest == more.rest
    }

    /** One item, and what may follow it; blanks before it do not matter. */
    lemma ItemsStep(s: string)
      ensures ReadItems(SkipBlank(s)) == ReadItems(s)
      ensures
        var v := ReadValue(s);
        ReadItems(s) ==
        if v.Failed? then Failed
        else
          var t := SkipBlank(v.rest);
          if JsonText.Expect(t, ']').Some? then Got([v.value], t[1..])
          else if JsonText.Expect(t, ',').None? || ReadItems(t[1..]).Failed? then Failed
          else Got([v.value] + ReadItems(t[1..]).value, ReadItems(t[1..]).rest)
    {
      ValueStep(s);
      hide ReadValue, SkipBlank;
    }

    method ObjectValue() returns (r: Option<Json>)
      requires Valid() && Rest() != "" && Rest()[0] == '{'
      modifies this
      ensures Valid() && (r.Some? ==> old(pos) < pos) && Returns(r, ReadValue(old(Rest())))
      decreases |chars| - pos, 0
    {
      hide ReadValue, ReadFields, SkipBlank, ReadString, InsertField;
      ObjectStep(Rest());
      var _ := Eat('{');
      ghost var start := Rest();
      Whitespace();
      var empty := Eat('}');
      if empty {
        return Some(Object([]));
      }
      FieldsStep(start, []);
      var fields: seq<JsonField> := [];
      while true
        invariant Valid() && old(pos) < pos && ReadFields(Rest(), fields) == ReadFields(start, [])
        decreases |chars| - pos
      {
        FieldsStep(Rest(), fields);
        Whitespace();
        var key := StringText();
        if key.None? {
          return None;
        }
        Whitespace();
        var colon := Eat(':');
        if !colon {
          return None;
        }
        var v := Value();
        if v.None? {
          return None;
        }
        fields := InsertField(fields, key.value, v.value);
        Whitespace();
        var end := Eat('}');
        if end {
          break;
        }
        var comma := Eat(',');
        if !comma {
          return None;
        }
      }
      return Some(Object(fields));
    }

    lemma ObjectStep(s: string)
      requires s != "" && s[0] == '{'
      ensures
        var t := SkipBlank(s[1..]);
        var fields := ReadFields(s[1..], []);
        ReadValue(s) ==
        if JsonText.Expect(t, '}').Some? then Got(Object([]), t[1..])
        else if fields.Failed? then Failed
        else Got(Object(fields.value), fields.rest)
    {
      hide ReadFields;
      Solid(s);
    }

    lemma FieldsStep(s: string, sofar: seq<JsonField>)
      ensures ReadFields(SkipBlank(s), sofar) == ReadFields(s, sofar)
      ensures
        var key := ReadString(SkipBlank(s));
        ReadFields(s, sofar) ==
        if key.Failed? || JsonText.Expect(SkipBlank(key.rest), ':').None? then Failed
        else
          var v := ReadValue(SkipBlank(key.rest)[1..]);
          if v.Failed? then Failed
          else
            var fields := InsertField(sofar, key.value, v.value);
            var t := SkipBlank(v.rest);
            if JsonText.Expect(t, '}').Some? then Got(fields, t[1..])
            else if JsonText.Expect(t, ',').Some? then ReadFields(t[1..], fields)
            else Failed
    {
      BlankTwice(s);
      hide ReadValue, SkipBlank, ReadString, InsertField;
    }
  }
}
