/**
 What patterns of plain words mean: a word with its metacharacters escaped matches itself and
 nothing else, and so does each word of an anchored group.
 */
module Escapes {
  import opened Wrappers
  import opened Paths
  import opened Patterns
  import opened Literals

  /** A backslash in front of every character that would mean something else. */
  function EscapedChar(c: char): string {
    if c in {'.', '*', '+', '?', '{', '}', '^', '$', '(', ')', '[', ']', '|', '\\'} then ['\\', c] else [c]
  }

  function Escaped(word: string): string {
    if word == "" then "" else EscapedChar(word[0]) + Escaped(word[1..])
  }

  function Lits(word: string): (ts: seq<Token>)
    ensures |ts| == |word|
  {
    seq(|word|, i requires 0 <= i < |word| => Lit(word[i]))
  }

  lemma CharRead(c: char, rest: string, offset: nat)
    ensures Tokens(EscapedChar(c) + rest) == [Lit(c)] + Tokens(rest)
    ensures Parens(EscapedChar(c) + rest, offset) == Parens(rest, offset + |EscapedChar(c)|)
  {
    var s := EscapedChar(c) + rest;
    if |EscapedChar(c)| == 2 {
      assert s[0] == '\\' && s[1] == c && s[2..] == rest;
    } else {
      assert s[0] == c && s[1..] == rest;
    }
  }

  lemma {:induction false} EscapedReads(word: string, offset: nat)
    ensures Tokens(Escaped(word)) == Lits(word) && Parens(Escaped(word), offset) == []
  {
    hide EscapedChar, Tokens, Parens;
    if word == "" {
      assert Tokens("") == [] && Parens("", offset) == [] by {
        NothingRead(offset);
      }
    } else {
      CharRead(word[0], Escaped(word[1..]), offset);
      EscapedReads(word[1..], offset + |EscapedChar(word[0])|);
      assert [Lit(word[0])] + Lits(word[1..]) == Lits(word);
    }
  }

  lemma NothingRead(offset: nat)
    ensures Tokens("") == [] && Parens("", offset) == []
  {
  }

  lemma {:induction false} LitsText(word: string)
    ensures LiteralText(Lits(word)) == Some(word)
  {
    if word != "" {
      LitsText(word[1..]);
      assert Lits(word)[1..] == Lits(word[1..]);
      assert [word[0]] + word[1..] == word;
    }
  }

  /** A question mark is never behind an opening parenthesis. */
  lemma {:induction false} NoLookaround(word: string, i: nat)
    requires i < |Escaped(word)| && Escaped(word)[i] == '?'
    ensures i > 0 && Escaped(word)[i - 1] == '\\'
  {
    var front := EscapedChar(word[0]);
    assert Escaped(word) == front + Escaped(word[1..]);
    if i >= |front| {
      NoLookaround(word[1..], i - |front|);
    }
  }

  lemma AnchoredTokens(inner: string)
    requires Other !in Tokens(inner)
    ensures Tokens("^" + inner + "$") == [Caret] + Tokens(inner) + [Dollar]
  {
    TokensConcat(inner, "$");
    assert "$"[1..] == "" && Tokens("$") == [Dollar];
    assert "^" + inner + "$" == "^" + (inner + "$");
    TokensStep('^', inner + "$");
    assert ['^'] + (inner + "$") == "^" + (inner + "$");
  }

  lemma EscapedLiterals(word: string)
    ensures LiteralsOf("^" + Escaped(word) + "$") == Some([word]) && !HasWordAssertion("^" + Escaped(word) + "$")
  {
    hide Tokens, Parens, Escaped, LiteralText, Lits;
    var inner := Escaped(word);
    var p := "^" + inner + "$";
    EscapedReads(word, 0);
    LitsText(word);
    Anchors(inner, p);
    assert !Mentions(p, "(?") by {
      NoGroupFlags(word, p);
    }
    assert forall t :: t in Tokens(inner) ==> t.Lit? by {
      LitsAreLits(word);
    }
    AnchoredTokens(inner);
  }

  lemma LitsAreLits(word: string)
    ensures forall t :: t in Lits(word) ==> t.Lit?
  {
  }

  lemma NoGroupFlags(word: string, p: string)
    requires p == "^" + Escaped(word) + "$"
    ensures !Mentions(p, "(?")
  {
    hide Escaped;
    forall i | 0 <= i <= |p| && "(?" <= p[i..] ensures false {
      assert p[i] == "(?"[0] && p[i + 1] == "(?"[1];
      NoLookaround(word, i);
    }
  }

  /** Whatever the word: escaped and anchored it is listed as itself, and matches itself and nothing else. */
  lemma EscapedMatchesItself(lib: RegexLib, word: string, s: string)
    ensures LiteralsOf("^" + Escaped(word) + "$") == Some([word])
    ensures IsMatch(lib, "^" + Escaped(word) + "$", s) <==> s == word
  {
    hide LiteralsOf, HasWordAssertion, IsMatch, Escaped;
    EscapedLiterals(word);
    LiteralsExact(lib, "^" + Escaped(word) + "$", s);
  }

  // ----- Groups of words -----

  /** Words without any character that needs escaping. */
  predicate Simple(word: string) {
    Escaped(word) == word
  }

  function Pattern(words: seq<string>): string {
    "^" + ("(" + Join(words, "|") + ")") + "$"
  }

  lemma {:induction false} SimpleHas(word: string, c: char)
    requires Simple(word) && c in word
    ensures c !in {'.', '*', '+', '?', '{', '}', '^', '$', '(', ')', '[', ']', '|', '\\'}
  {
    var front := EscapedChar(word[0]);
    EscapedLonger(word[1..]);
    assert |front| == 1;
    assert word == [word[0]] + word[1..] && Escaped(word) == front + Escaped(word[1..]);
    assert Escaped(word)[1..] == Escaped(word[1..]);
    if c != word[0] {
      SimpleHas(word[1..], c);
    }
  }

  lemma {:induction false} EscapedLonger(word: string)
    ensures |Escaped(word)| >= |word|
  {
    if word != "" {
      EscapedLonger(word[1..]);
    }
  }

  lemma {:induction false} JoinedHas(words: seq<string>, c: char)
    requires (forall i :: 0 <= i < |words| ==> Simple(words[i])) && c in Join(words, "|")
    ensures c !in {'.', '*', '+', '?', '{', '}', '^', '$', '(', ')', '[', ']', '\\'}
  {
    hide Simple;
    if |words| == 1 {
      SimpleHas(words[0], c);
    } else {
      assert Join(words, "|") == words[0] + "|" + Join(words[1..], "|");
      if c in words[0] {
        SimpleHas(words[0], c);
      } else if c != '|' {
        JoinedHas(words[1..], c);
      }
    }
  }

  lemma {:induction false} WordsDistribute(words: seq<string>)
    requires forall i :: 0 <= i < |words| ==> Simple(words[i])
    ensures Distribute("", words, "") == Some(words)
  {
    hide Tokens, LiteralText, Escaped, Lits;
    if words != [] {
      WordsDistribute(words[1..]);
      EscapedReads(words[0], 0);
      LitsText(words[0]);
      assert "" + words[0] + "" == words[0] && [words[0]] + words[1..] == words;
    }
  }

  lemma {:induction false} NoOther(s: string)
    requires forall c :: c in s ==> c !in {'.', '*', '+', '?', '{', '}', '^', '$', '(', ')', '[', ']', '\\'}
    ensures forall t :: t in Tokens(s) ==> t.Lit? || t == Bar
  {
    if s != "" {
      assert s[0] in s && forall c :: c in s[1..] ==> c in s;
      NoOther(s[1..]);
    }
  }

  lemma PatternTokens(words: seq<string>)
    requires forall c :: c in Join(words, "|") ==> c !in {'.', '*', '+', '?', '{', '}', '^', '$', '(', ')', '[', ']', '\\'}
    ensures !HasWordAssertion(Pattern(words))
  {
    hide Join;
    var body := Join(words, "|");
    NoOther(body);
    TokensConcat(body, ")");
    assert ")"[1..] == "" && Tokens(")") == [RParen];
    assert "(" + body + ")" == ['('] + (body + ")");
    TokensStep('(', body + ")");
    AnchoredTokens("(" + body + ")");
  }

  lemma PatternLiterals(words: seq<string>)
    requires words != [] && forall i :: 0 <= i < |words| ==> Simple(words[i])
    ensures LiteralsOf(Pattern(words)) == Some(words) && !HasWordAssertion(Pattern(words))
  {
    hide Simple, Tokens, LiteralsOf, Join, HasWordAssertion;
    var body := Join(words, "|");
    forall c | c in body ensures c !in {'.', '*', '+', '?', '{', '}', '^', '$', '(', ')', '[', ']', '\\'} {
      JoinedHas(words, c);
    }
    forall i | 0 <= i < |words| ensures '|' !in words[i] {
      if '|' in words[i] {
        SimpleHas(words[i], '|');
      }
    }
    SplitJoin(words, '|');
    WordsDistribute(words);
    NoOther(body);
    assert !Mentions(body, "\\|") by {
      NoEscapedBars(body);
    }
    GroupLiterals(body);
    PatternTokens(words);
  }

  lemma NoEscapedBars(body: string)
    requires '\\' !in body
    ensures !Mentions(body, "\\|")
  {
    assert forall i :: 0 <= i <= |body| && "\\|" <= body[i..] ==> body[i] == "\\|"[0];
  }

  /** An anchored group of plain words lists them in order, and matches them and nothing else. */
  lemma GroupMatchesItsWords(lib: RegexLib, words: seq<string>, s: string)
    requires words != [] && forall i :: 0 <= i < |words| ==> Simple(words[i])
    ensures LiteralsOf("^" + ("(" + Join(words, "|") + ")") + "$") == Some(words)
    ensures IsMatch(lib, "^" + ("(" + Join(words, "|") + ")") + "$", s) <==> s in words
  {
    hide Simple, LiteralsOf, HasWordAssertion, IsMatch, Join;
    PatternLiterals(words);
    LiteralsExact(lib, Pattern(words), s);
  }
}
