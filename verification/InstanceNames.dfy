/** When two instances get one name: src/monomorphize.rs:117-124, 251-261. */
module InstanceNames {
  import opened Ast
  import opened Monomorphizing
  import Tokens

  // ---- Words ----

  /** A character that stands as an underscore in the name of an instance. */
  predicate IsSeparator(c: char) { c == '_' || !Tokens.IsWordChar(c) }

  predicate IsWord(w: string) { forall i :: 0 <= i < |w| ==> !IsSeparator(w[i]) }

  /** The words between the separators, some of them empty. */
  function WordsOf(s: string): (ws: seq<string>)
    ensures ws != []
  {
    if s == "" then [""]
    else if IsSeparator(s[0]) then [""] + WordsOf(s[1..])
    else [[s[0]] + WordsOf(s[1..])[0]] + WordsOf(s[1..])[1..]
  }

  function ArgWords(args: seq<QName>): seq<string>
  {
    if args == [] then [] else WordsOf(DottedText(args[0])) + ArgWords(args[1..])
  }

  /** The words of the template and of its arguments in a row; where one name ends is not in it. */
  function KeyWords(k: Key): seq<string> { WordsOf(DottedText(k.template)) + ArgWords(k.args) }

  function Underscored(ws: seq<string>): string
    requires ws != []
  {
    if |ws| == 1 then ws[0] else ws[0] + "_" + Underscored(ws[1..])
  }

  // ---- Names are words with underscores between ----

  lemma {:induction false} SanitizedIsUnderscored(s: string)
    ensures Sanitize(s) == Underscored(WordsOf(s))
  {
    if s != "" {
      SanitizedIsUnderscored(s[1..]);
      var ws := WordsOf(s[1..]);
      if IsSeparator(s[0]) {
        assert ([""] + ws)[1..] == ws;
        assert "" + "_" + Underscored(ws) == ['_'] + Underscored(ws);
      } else {
        assert ([[s[0]] + ws[0]] + ws[1..])[1..] == ws[1..];
        if |ws| > 1 { assert [s[0]] + ws[0] + "_" + Underscored(ws[1..]) == [s[0]] + (ws[0] + "_" + Underscored(ws[1..])); }
      }
    }
  }

  lemma {:induction false} UnderscoredJoins(vs: seq<string>, ws: seq<string>)
    requires vs != [] && ws != []
    ensures Underscored(vs + ws) == Underscored(vs) + "_" + Underscored(ws)
  {
    assert (vs + ws)[1..] == vs[1..] + ws;
    if |vs| > 1 {
      UnderscoredJoins(vs[1..], ws);
      Regroup(vs[0], "_", Underscored(vs[1..]), "_" + Underscored(ws));
      assert Underscored(vs[1..]) + "_" + Underscored(ws) == Underscored(vs[1..]) + ("_" + Underscored(ws));
      assert Underscored(vs) + "_" + Underscored(ws) == Underscored(vs) + ("_" + Underscored(ws));
    }
  }

  lemma Regroup(a: string, b: string, c: string, d: string)
    ensures a + b + (c + d) == a + b + c + d
  {}

  lemma Associated(a: string, b: string, c: string)
    ensures a + "_" + b + c == a + ("_" + b + c) && a + "_" + (b + c) == a + ("_" + b + c)
  {}

  lemma {:induction false} ArgsAreUnderscored(ws: seq<string>, args: seq<QName>)
    requires ws != []
    ensures Underscored(ws + ArgWords(args)) == Underscored(ws) + ArgsText(args)
    decreases args
  {
    if args == [] {
      assert ws + [] == ws && Underscored(ws) + "" == Underscored(ws);
    } else {
      var vs := WordsOf(DottedText(args[0]));
      SanitizedIsUnderscored(DottedText(args[0]));
      ArgsAreUnderscored(ws + vs, args[1..]);
      UnderscoredJoins(ws, vs);
      hide WordsOf, Underscored, Sanitize, DottedText, ArgWords, ArgsText;
      assert ws + vs + ArgWords(args[1..]) == ws + (vs + ArgWords(args[1..]));
      Associated(Underscored(ws), Underscored(vs), ArgsText(args[1..]));
    }
  }

  lemma NameIsUnderscored(k: Key)
    ensures InstanceName(k) == "__flow_inst_" + Underscored(KeyWords(k))
  {
    var ws := WordsOf(DottedText(k.template));
    SanitizedIsUnderscored(DottedText(k.template));
    ArgsAreUnderscored(ws, k.args);
    hide WordsOf, Underscored, Sanitize, DottedText, ArgsText, ArgWords;
    var p := "__flow_inst_";
    assert p + Underscored(ws) + ArgsText(k.args) == p + (Underscored(ws) + ArgsText(k.args));
  }

  // ---- And the words can be read off ----

  lemma {:induction false} WordsAreWords(s: string)
    ensures forall i :: 0 <= i < |WordsOf(s)| ==> IsWord(WordsOf(s)[i])
  {
    if s != "" { WordsAreWords(s[1..]); }
  }

  lemma {:induction false} ArgWordsAreWords(args: seq<QName>)
    ensures forall i :: 0 <= i < |ArgWords(args)| ==> IsWord(ArgWords(args)[i])
  {
    hide IsWord;
    if args != [] {
      WordsAreWords(DottedText(args[0]));
      ArgWordsAreWords(args[1..]);
    }
  }

  lemma {:induction false} WordFirst(w: string, rest: string)
    requires IsWord(w) && (rest == "" || rest[0] == '_')
    ensures WordsOf(w + rest) == if rest == "" then [w] else [w] + WordsOf(rest[1..])
  {
    if w == "" {
      assert w + rest == rest;
    } else {
      assert (w + rest)[1..] == w[1..] + rest;
      WordFirst(w[1..], rest);
      assert [w[0]] + w[1..] == w;
    }
  }

  lemma {:induction false} WordsReadOff(ws: seq<string>)
    requires ws != [] && forall i :: 0 <= i < |ws| ==> IsWord(ws[i])
    ensures WordsOf(Underscored(ws)) == ws
  {
    if |ws| == 1 {
      WordFirst(ws[0], "");
      assert ws[0] + "" == ws[0];
    } else {
      WordsReadOff(ws[1..]);
      var rest := "_" + Underscored(ws[1..]);
      WordFirst(ws[0], rest);
      assert ws[0] + rest == Underscored(ws) && rest[1..] == Underscored(ws[1..]);
    }
  }

  /** Two instances get one name exactly when their templates and arguments have the same words in a row. */
  lemma NamesAreEqualIff(j: Key, k: Key)
    ensures InstanceName(j) == InstanceName(k) <==> KeyWords(j) == KeyWords(k)
  {
    NameIsUnderscored(j);
    NameIsUnderscored(k);
    var p := "__flow_inst_";
    assert (p + Underscored(KeyWords(j)))[|p|..] == Underscored(KeyWords(j));
    assert (p + Underscored(KeyWords(k)))[|p|..] == Underscored(KeyWords(k));
    WordsAreWords(DottedText(j.template));
    WordsAreWords(DottedText(k.template));
    ArgWordsAreWords(j.args);
    ArgWordsAreWords(k.args);
    WordsReadOff(KeyWords(j));
    WordsReadOff(KeyWords(k));
  }

  /** The keys have different words, so that their instances have different names. */
  predicate WordsDiffer(ks: seq<Key>)
  {
    forall j, k :: j in ks && k in ks && KeyWords(j) == KeyWords(k) ==> j == k
  }

  predicate OneName(ks: seq<Key>)
  {
    forall j, k :: j in ks && k in ks && InstanceName(j) == InstanceName(k) ==> j == k
  }

  lemma NamesDifferIff(ks: seq<Key>)
    ensures OneName(ks) <==> WordsDiffer(ks)
  {
    forall j, k | j in ks && k in ks
      ensures InstanceName(j) == InstanceName(k) <==> KeyWords(j) == KeyWords(k)
    {
      NamesAreEqualIff(j, k);
    }
  }
}
