/** Which types keep their tokens when printed. */
module TypeTexts {
  import opened Tokens
  import opened Ast
  import opened Parsing
  import opened Rendering
  import opened Formatting
  import opened FormatSafety
  import opened FormatSource
  import opened Annotations
  import opened CommentLayout
  import opened SkippedComments
  import opened Idempotence
  import opened FormatProgram
  import opened Formatter
  import FormatTokens
  import RoundTrip
  import WellFormed
  import Lexer

  /** The tokens of a type name: a word, then words, digits and dots (src/types.rs:459-474). */
  predicate IsName(name: TypeText)
  {
    && name != [] && name[0].Ident?
    && forall i :: 0 <= i < |name| ==> name[i].Ident? || name[i] == Dot || (name[i].Int? && name[i].value >= 0)
  }

  type Name = name: TypeText | IsName(name) witness [Ident("a")]

  /** The types of TypeParser in src/types.rs: names, `Name[T]`, tuples (the empty one is the unit) and unions. */
  datatype TypeExpr =
    | Named(name: Name)
    | Applied(name: Name, argument: TypeExpr)
    | TupleOf(items: seq<TypeExpr>)
    | Union(items: seq<TypeExpr>)

  /** The tokens a type is written with, followed by `k`. */
  function TypeTokens(t: TypeExpr, k: TypeText): TypeText
    decreases t
  {
    match t
    case Named(name) => name + k
    case Applied(name, argument) => name + ([LBracket] + TypeTokens(argument, [RBracket] + k))
    case TupleOf(items) => [LParen] + ItemTokens(items, Comma, [RParen] + k)
    case Union(items) => ItemTokens(items, Pipe, k)
  }

  function ItemTokens(items: seq<TypeExpr>, separator: Token, k: TypeText): TypeText
    decreases items
  {
    if items == [] then k
    else TypeTokens(items[0], if |items| == 1 then k else [separator] + ItemTokens(items[1..], separator, k))
  }

  /** No name of the type runs into a number. */
  predicate NamesApart(t: TypeExpr)
    decreases t
  {
    match t
    case Named(name) => Apart(name)
    case Applied(name, argument) => Apart(name) && NamesApart(argument)
    case TupleOf(items) => AllApart(items)
    case Union(items) => AllApart(items)
  }

  predicate AllApart(items: seq<TypeExpr>)
    decreases items
  {
    items == [] || (NamesApart(items[0]) && AllApart(items[1..]))
  }

  /** What may follow a type inside a type. */
  predicate Closes(k: TypeText) { k == [] || (IsPunctuation(k[0]) && k[0] != Dot) }

  lemma JoinApart(name: TypeText, k: TypeText)
    requires Closes(k)
    ensures Apart(name + k) <==> Apart(name) && Apart(k)
  {
    if Apart(name + k) { PartsApart(name, k); }
    if Apart(name) && Apart(k) {
      hide Apart, Closes;
      NoJoin(name, k);
      NoPoint(name, k);
      assert Apart(name + k) by { ApartBoth(name + k); }
    }
  }

  lemma ApartBoth(ty: TypeText)
    requires forall i :: 0 <= i < |ty| - 1 ==> !Joins(ty[i], ty[i + 1])
    requires forall i :: 0 <= i < |ty| - 2 ==> !IsPoint(ty[i], ty[i + 1], ty[i + 2])
    ensures Apart(ty)
  {}

  lemma PartsApart(name: TypeText, k: TypeText)
    requires Apart(name + k)
    ensures Apart(name) && Apart(k)
  {
    var ty, n := name + k, |name|;
    hide Joins, IsPoint;
    assert forall i :: 0 <= i < n ==> ty[i] == name[i];
    forall i | 0 <= i < |k| - 1 ensures !Joins(k[i], k[i + 1]) {
      assert ty[n + i] == k[i] && ty[n + i + 1] == k[i + 1];
    }
    forall i | 0 <= i < |k| - 2 ensures !IsPoint(k[i], k[i + 1], k[i + 2]) {
      assert ty[n + i] == k[i] && ty[n + i + 1] == k[i + 1] && ty[n + i + 2] == k[i + 2];
    }
  }

  lemma NoJoin(name: TypeText, k: TypeText)
    requires Closes(k) && Apart(name) && Apart(k)
    ensures forall i :: 0 <= i < |name + k| - 1 ==> !Joins((name + k)[i], (name + k)[i + 1])
  {
    var ty, n := name + k, |name|;
    assert k != [] ==> forall t :: !Joins(t, k[0]);
    hide Joins, IsPoint;
    forall i | 0 <= i < |ty| - 1 ensures !Joins(ty[i], ty[i + 1]) {
      if i >= n {
        assert ty[i] == k[i - n] && ty[i + 1] == k[i - n + 1];
      } else if i == n - 1 {
        assert ty[i + 1] == k[0];
      } else {
        assert ty[i] == name[i] && ty[i + 1] == name[i + 1];
      }
    }
  }

  lemma NoPoint(name: TypeText, k: TypeText)
    requires Closes(k) && Apart(name) && Apart(k)
    ensures forall i :: 0 <= i < |name + k| - 2 ==> !IsPoint((name + k)[i], (name + k)[i + 1], (name + k)[i + 2])
  {
    var ty, n := name + k, |name|;
    assert k != [] ==> forall t, u :: !IsPoint(t, u, k[0]) && !IsPoint(t, k[0], u);
    hide Joins, IsPoint;
    forall i | 0 <= i < |ty| - 2 ensures !IsPoint(ty[i], ty[i + 1], ty[i + 2]) {
      if i >= n {
        assert ty[i] == k[i - n] && ty[i + 1] == k[i - n + 1] && ty[i + 2] == k[i - n + 2];
      } else if i == n - 1 {
        assert ty[i + 1] == k[0];
      } else if i == n - 2 {
        assert ty[i + 2] == k[0];
      } else {
        assert ty[i] == name[i] && ty[i + 1] == name[i + 1] && ty[i + 2] == name[i + 2];
      }
    }
  }

  lemma ConsApart(t: Token, k: TypeText)
    requires IsPunctuation(t) && t != Dot
    ensures Apart([t] + k) <==> Apart(k)
  {
    var ty := [t] + k;
    if Apart(ty) {
      forall i | 0 <= i < |k| - 1 ensures !Joins(k[i], k[i + 1]) { assert !Joins(ty[i + 1], ty[i + 2]); }
      forall i | 0 <= i < |k| - 2 ensures !IsPoint(k[i], k[i + 1], k[i + 2]) {
        assert !IsPoint(ty[i + 1], ty[i + 2], ty[i + 3]);
      }
    }
    if Apart(k) {
      forall i | 0 <= i < |ty| - 1 ensures !Joins(ty[i], ty[i + 1]) {
        if i >= 1 { assert !Joins(k[i - 1], k[i]); }
      }
      forall i | 0 <= i < |ty| - 2 ensures !IsPoint(ty[i], ty[i + 1], ty[i + 2]) {
        if i >= 1 { assert !IsPoint(k[i - 1], k[i], k[i + 1]); }
      }
    }
  }

  lemma {:induction false} TypeApart(t: TypeExpr, k: TypeText)
    requires Closes(k)
    ensures Apart(TypeTokens(t, k)) <==> NamesApart(t) && Apart(k)
    decreases t
  {
    hide Apart;
    match t
    case Named(name) => JoinApart(name, k);
    case Applied(name, argument) =>
      ConsApart(RBracket, k);
      TypeApart(argument, [RBracket] + k);
      ConsApart(LBracket, TypeTokens(argument, [RBracket] + k));
      JoinApart(name, [LBracket] + TypeTokens(argument, [RBracket] + k));
    case TupleOf(items) =>
      ConsApart(RParen, k);
      ItemsApart(items, Comma, [RParen] + k);
      ConsApart(LParen, ItemTokens(items, Comma, [RParen] + k));
    case Union(items) => ItemsApart(items, Pipe, k);
  }

  lemma {:induction false} ItemsApart(items: seq<TypeExpr>, separator: Token, k: TypeText)
    requires Closes(k) && (separator == Comma || separator == Pipe)
    ensures Apart(ItemTokens(items, separator, k)) <==> AllApart(items) && Apart(k)
    decreases items
  {
    hide Apart;
    if |items| == 1 {
      TypeApart(items[0], k);
    } else if items != [] {
      ItemsApart(items[1..], separator, k);
      ConsApart(separator, ItemTokens(items[1..], separator, k));
      TypeApart(items[0], [separator] + ItemTokens(items[1..], separator, k));
    }
  }

  /** The tokens of a type stay apart exactly when those of each of its names do. */
  lemma TypeApartIff(t: TypeExpr)
    ensures Apart(TypeTokens(t, [])) <==> NamesApart(t)
  {
    TypeApart(t, []);
  }

  function Dotted(path: QName): TypeText
  {
    if path == [] then [] else if |path| == 1 then [Ident(path[0])] else [Ident(path[0]), Dot] + Dotted(path[1..])
  }

  /** A name of words with dots between them always does. */
  lemma {:induction false} DottedApart(path: QName)
    ensures Apart(Dotted(path))
  {
    if |path| > 1 {
      DottedApart(path[1..]);
      var ty, k := Dotted(path), Dotted(path[1..]);
      forall i | 0 <= i < |ty| - 1 ensures !Joins(ty[i], ty[i + 1]) {
        if i >= 2 { assert !Joins(k[i - 2], k[i - 1]); }
      }
      forall i | 0 <= i < |ty| - 2 ensures !IsPoint(ty[i], ty[i + 1], ty[i + 2]) {
        if i >= 2 { assert !IsPoint(k[i - 2], k[i - 1], k[i]); }
      }
    }
  }

  // ---- A type that formatting loses ----

  /** The declaration `type N = ...` with the given text behind the equal sign. */
  function AliasText(name: string, ty: Text): Text
  {
    T(Ident("type"), W(" ", T(Ident(name), W(" ", T(Equal, W(" ", ty))))))
  }

  /** `x.a . b` */
  function SpacedText(x: string, a: nat, b: nat): Text
  {
    T(Ident(x), T(Dot, T(Token.Int(a), W(" ", T(Dot, W(" ", T(Token.Int(b), NewLine(End))))))))
  }

  function NumberedName(x: string, a: nat, b: nat): Name { [Ident(x), Dot, Token.Int(a), Dot, Token.Int(b)] }

  lemma AliasTextLexes(name: string, ty: Text)
    requires IsIdent(name) && Safe(ty)
    ensures
      var all := Cons(Ident("type"), Cons(Ident(name), Cons(Equal, TokensOf(ty, Nil))));
      Parse(Render(AliasText(name, ty))) == ParseModule(all)
  {
    AliasTextSafe(name, ty);
    hide Lexer.Lex, Render, Safe, TokensOf, ParseModule, AliasText;
    RenderedLexes(AliasText(name, ty));
  }

  lemma AliasTextSafe(name: string, ty: Text)
    requires IsIdent(name) && Safe(ty)
    ensures Safe(AliasText(name, ty))
    ensures TokensOf(AliasText(name, ty), Nil) == Cons(Ident("type"), Cons(Ident(name), Cons(Equal, TokensOf(ty, Nil))))
  {
    FormatSafety.Unfold(true);
    FormatTokens.Unfold();
    hide IsIdent, Laid, TokensOf;
    assert IsIdent("type") by { KeywordIsIdent(); }
    WordSafe(true, "type", T(Ident(name), W(" ", T(Equal, W(" ", ty)))));
  }

  lemma KeywordIsIdent()
    ensures IsIdent("type")
  {}

  lemma AliasIsDecl(ts: List)
    ensures ParseDecl(Cons(Ident("type"), ts)) == ParseAlias(ts)
  {
    hide ParseAlias;
  }

  lemma AliasDeclared(name: string, ts: List)
    ensures
      ParseModule(Cons(Ident("type"), Cons(Ident(name), Cons(Equal, ts))))
      == match ParseType(ts) {
           case Fail => None
           case Ok(ty, rest) =>
             match Decls([TypeAlias(name, ty)], rest) { case Fail => None case Ok(ds, _) => Some(Module(ds)) }
         }
  {
    hide ParseType, ParseDecl;
    var all := Cons(Ident("type"), Cons(Ident(name), Cons(Equal, ts)));
    AliasIsDecl(all.tail);
    match ParseType(ts)
    case Fail => assert ParseAlias(all.tail) == Fail;
    case Ok(ty, rest) =>
      var d := TypeAlias(name, ty);
      assert ParseAlias(all.tail) == Ok(d, rest);
      RoundTrip.DeclStep([], d, all, rest);
      assert [] + [d] == [d];
  }

  lemma NumberedReads(x: string, a: nat, b: nat)
    requires IsIdent(x) && IsI64(a) && IsI64(b)
    ensures WellFormed.WfType(NumberedName(x, a, b))
    ensures WellFormed.TkType(NumberedName(x, a, b), Nil) == TokensOf(SpacedText(x, a, b), Nil)
  {
    var ty := NumberedName(x, a, b);
    assert ty[1..] == [Dot, Token.Int(a), Dot, Token.Int(b)];
    assert ty[1..][1..] == [Token.Int(a), Dot, Token.Int(b)];
    assert ty[1..][1..][1..] == [Dot, Token.Int(b)];
    assert ty[1..][1..][1..][1..] == [Token.Int(b)];
    assert ty[1..][1..][1..][1..][1..] == [];
    hide IsIdent;
    FormatTokens.Unfold();
    assert WellFormed.TypeReads(false, 0, [Token.Int(b)]);
    assert WellFormed.TypeReads(false, 0, [Dot, Token.Int(b)]);
    assert WellFormed.TypeReads(false, 0, [Token.Int(a), Dot, Token.Int(b)]);
    assert WellFormed.TypeReads(false, 0, ty[1..]);
    assert WellFormed.TkType([Token.Int(b)], Nil) == Cons(Token.Int(b), Nil);
    assert WellFormed.TkType([Dot, Token.Int(b)], Nil) == Cons(Dot, Cons(Token.Int(b), Nil));
    assert WellFormed.TkType(ty[1..][1..], Nil) == Cons(Token.Int(a), Cons(Dot, Cons(Token.Int(b), Nil)));
    assert WellFormed.TkType(ty[1..], Nil) == Cons(Dot, Cons(Token.Int(a), Cons(Dot, Cons(Token.Int(b), Nil))));
  }

  lemma NumberedParsed(name: string, x: string, a: nat, b: nat)
    requires IsIdent(name) && IsIdent(x) && IsI64(a) && IsI64(b)
    ensures Parse(Render(AliasText(name, SpacedText(x, a, b)))) == Some(Module([TypeAlias(name, NumberedName(x, a, b))]))
  {
    FormatSafety.Unfold(true);
    AliasTextLexes(name, SpacedText(x, a, b));
    NumberedReads(x, a, b);
    RoundTrip.TypeParsed(NumberedName(x, a, b), Nil);
    AliasDeclared(name, TokensOf(SpacedText(x, a, b), Nil));
    hide ParseType, ParseModule, ParseDecl;
  }

  lemma StepLexed(token: Token, s: string, rest: string)
    requires s != [] && Lexer.LexStep(s) == Lexer.Emit(token, rest) && Lexer.Lex(rest).SomeTokens?
    ensures Lexer.Lex(s).SomeTokens? && ListOf(Lexer.Lex(s).tokens) == Cons(token, ListOf(Lexer.Lex(rest).tokens))
  {
    var ts := Lexer.Lex(rest).tokens;
    assert Lexer.Lex(s).tokens == [token] + ts && ([token] + ts)[1..] == ts;
  }

  /** `a.b` is lexed as one real number. */
  lemma PointLexed(a: nat, b: nat) returns (point: string)
    ensures point == DecimalText(a) + ("." + DecimalText(b))
    ensures
      var r := Lexer.Lex(point + "\n");
      r.SomeTokens? && ListOf(r.tokens) == Cons(Token.Real(point), Nil)
  {
    point := DecimalText(a) + ("." + DecimalText(b));
    Lexer.RealTextOf(false, DecimalText(a), DecimalText(b));
    assert "" + point == point;
    hide *;
    RealLine(point);
  }

  lemma RealLine(point: string)
    requires IsRealText(point)
    ensures
      var r := Lexer.Lex(point + "\n");
      r.SomeTokens? && ListOf(r.tokens) == Cons(Token.Real(point), Nil)
  {
    var tail := T(Token.Real(point), NewLine(End));
    FormatSafety.Unfold(true);
    FormatTokens.Unfold();
    hide IsRealText, Laid;
    RenderedLexes(tail);
    assert Render(NewLine(End)) == "\n" && Render(tail) == point + "\n";
  }

  lemma NumberedLine(x: string, a: nat, b: nat)
    ensures Render(FmtType(NumberedName(x, a, b), NewLine(End)))
            == x + ("." + (DecimalText(a) + ("." + DecimalText(b)) + "\n"))
  {
    var ty := NumberedName(x, a, b);
    var k := NewLine(End);
    assert ty[1..] == [Dot, Token.Int(a), Dot, Token.Int(b)];
    assert ty[1..][1..] == [Token.Int(a), Dot, Token.Int(b)];
    assert ty[1..][1..][1..] == [Dot, Token.Int(b)];
    assert ty[1..][1..][1..][1..] == [Token.Int(b)];
    var t3 := T(Token.Int(b), k);
    assert FmtTypeTail([Token.Int(b)], k) == t3;
    assert FmtTypeTail([Dot, Token.Int(b)], k) == T(Dot, t3);
    var t2 := T(Token.Int(a), T(Dot, t3));
    assert FmtTypeTail([Token.Int(a), Dot, Token.Int(b)], k) == t2;
    assert FmtTypeTail(ty[1..], k) == T(Dot, t2);
    assert FmtType(ty, k) == T(Ident(x), T(Dot, t2));
    assert Render(t3) == DecimalText(b) + "\n";
    assert Render(t2) == DecimalText(a) + ("." + Render(t3));
  }

  lemma NoRealInType(x: string, point: string)
    ensures ParseType(Cons(Ident(x), Cons(Dot, Cons(Token.Real(point), Nil)))) == Fail
  {
    assert TypeTail([Ident(x), Dot], 0, Cons(Token.Real(point), Nil)) == Fail;
    assert [Ident(x)] + [Dot] == [Ident(x), Dot];
    assert TypeTail([Ident(x)], 0, Cons(Dot, Cons(Token.Real(point), Nil))) == Fail;
    assert [] + [Ident(x)] == [Ident(x)];
  }

  /** Printed, the two numbers and the point between them are one real number. */
  lemma NumberedIsNotReadable(x: string, a: nat, b: nat)
    requires IsIdent(x) && IsI64(a) && IsI64(b)
    ensures !Readable(TypeString(NumberedName(x, a, b)))
  {
    var ty := NumberedName(x, a, b);
    NumberedReads(x, a, b);
    TypeLine(ty);
    NumberedLine(x, a, b);
    var point := PointLexed(a, b);
    NumberedLexed(x, point);
    NoRealInType(x, point);
    hide FmtType, Render, DecimalText, Lexer.Lex, ParseType;
  }

  lemma NumberedLexed(x: string, point: string)
    requires IsIdent(x) && Lexer.Lex(point + "\n").SomeTokens?
    ensures
      var r := Lexer.Lex(x + ("." + (point + "\n")));
      r.SomeTokens? && ListOf(r.tokens) == Cons(Ident(x), Cons(Dot, ListOf(Lexer.Lex(point + "\n").tokens)))
  {
    hide Lexer.Lex;
    var s := "." + (point + "\n");
    TokenLexed(Dot, point + "\n");
    StepLexed(Dot, s, point + "\n");
    assert x != [] && TokenText(Ident(x)) == x;
    TokenLexed(Ident(x), s);
    hide Lexer.LexStep, IsIdent;
    StepLexed(Ident(x), x + s, s);
  }

  predicate IsSlashless(t: Text)
  {
    match t
    case End => true
    case T(token, rest) => '/' !in TokenText(token) && IsSlashless(rest)
    case W(gap, rest) => '/' !in gap && IsSlashless(rest)
  }

  lemma {:induction false} SlashlessText(t: Text)
    requires IsSlashless(t)
    ensures '/' !in Render(t)
  {
    match t
    case End =>
    case T(token, rest) => SlashlessText(rest);
    case W(gap, rest) => SlashlessText(rest);
  }

  lemma UnfoldSlashless()
    ensures IsSlashless(End)
    ensures forall token, rest :: IsSlashless(T(token, rest)) <==> '/' !in TokenText(token) && IsSlashless(rest)
    ensures forall gap, rest :: IsSlashless(W(gap, rest)) <==> '/' !in gap && IsSlashless(rest)
  {
  }

  lemma NoSlashIn(name: string, x: string, a: nat, b: nat)
    requires IsIdent(name) && IsIdent(x)
    ensures '/' !in Render(AliasText(name, SpacedText(x, a, b)))
  {
    assert AllDigits(DecimalText(a)) && AllDigits(DecimalText(b));
    assert '/' !in DecimalText(a) && '/' !in DecimalText(b);
    assert '/' !in TokenText(Dot) && '/' !in TokenText(Equal) && '/' !in "type" && '/' !in "\n" && '/' !in " ";
    assert TokenText(Token.Int(a)) == DecimalText(a) && TokenText(Token.Int(b)) == DecimalText(b);
    hide DecimalText, Render;
    UnfoldSlashless();
    hide IsSlashless;
    SlashlessText(AliasText(name, SpacedText(x, a, b)));
  }

  /**
   * `type N = x.a . b` names a type that the type parser reads. The formatter writes `x.a.b`, which is no
   * annotation any more, and the program is lost.
   */
  lemma NumberedTypesAreLost(name: string, x: string, a: nat, b: nat)
    requires IsIdent(name) && IsIdent(x) && IsI64(a) && IsI64(b)
    ensures
      var source := Render(AliasText(name, SpacedText(x, a, b)));
      && Parse(source) == Some(Module([TypeAlias(name, TypeTokens(Named(NumberedName(x, a, b)), []))]))
      && FormatText(source).Some?
      && var again := Parse(FormatText(source).value);
         !(again.Some? && ModuleLike(again.value, Parse(source).value))
  {
    var ty := NumberedName(x, a, b);
    assert ty + [] == ty;
    NumberedParsed(name, x, a, b);
    NumberedIsNotReadable(x, a, b);
    var source := Render(AliasText(name, SpacedText(x, a, b)));
    var m := Module([TypeAlias(name, ty)]);
    NoSlashIn(name, x, a, b);
    hide Parse, FmtModule, TypeString, Readable, ModuleLike, Render, FormatText, ReadLayout, LayoutSkips;
    NoSlashNoBlock(source);
    StandAloneBlocksAreSkipped(source, m.declarations);
    FormattingPreservesTextsIff(source);
    assert !DeclReadable(m.declarations[0]);
  }
}
