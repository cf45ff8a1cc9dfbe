/**
 Literal extraction: the finite list of strings a fully anchored pattern can match.

 The scanning loops are methods, each tied to a function of its input. What the list
 means is then proved against the pattern's denotation in `Patterns`.
 */
module Literals {
  import opened Wrappers
  import opened Patterns

  /** The character a token stands for once it is taken for a literal. */
  function TextOf(t: Token): Option<char> {
    match t
    case Lit(c) => Some(c)
    case WordStart => Some('<')
    case WordEnd => Some('>')
    case _ => None
  }

  function Prepend<T>(xs: seq<T>, o: Option<seq<T>>): (r: Option<seq<T>>)
    ensures xs == [] ==> r == o
    ensures o == Some([]) ==> r == Some(xs)
  {
    match o case Some(ys) => (assert xs + [] == xs && [] + ys == ys; Some(xs + ys)) case None => None
  }

  lemma PrependPrepend<T>(xs: seq<T>, ys: seq<T>, o: Option<seq<T>>)
    ensures Prepend(xs, Prepend(ys, o)) == Prepend(xs + ys, o)
  {
    if o.Some? {
      assert xs + (ys + o.value) == xs + ys + o.value;
    }
  }

  function LiteralText(ts: seq<Token>): Option<string> {
    if ts == [] then Some("")
    else
      var c :- TextOf(ts[0]);
      Prepend([c], LiteralText(ts[1..]))
  }

  /** Unescapes a fragment, giving up on any metacharacter or class escape. */
  method UnescapeLiteral(s: string) returns (r: Option<string>)
    ensures r == LiteralText(Tokens(s))
  {
    var out: string := "";
    var n := 0;
    assert s[0..] == s;
    while n < |s|
      invariant 0 <= n <= |s|
      invariant LiteralText(Tokens(s)) == Prepend(out, LiteralText(Tokens(s[n..])))
    {
      ghost var here := Tokens(s[n..]);
      assert s[n..][0] == s[n] && s[n..][1..] == s[n+1..];
      if s[n] == '\\' {
        if n + 1 == |s| {
          return None;
        }
        assert s[n..][1] == s[n+1] && s[n..][2..] == s[n+2..];
        if IsAsciiAlphanumeric(s[n+1]) {
          return None;
        }
        assert here[1..] == Tokens(s[n+2..]);
        PrependPrepend(out, [s[n+1]], LiteralText(here[1..]));
        out := out + [s[n+1]];
        n := n + 2;
      } else if IsMeta(s[n]) {
        return None;
      } else {
        assert here[1..] == Tokens(s[n+1..]);
        PrependPrepend(out, [s[n]], LiteralText(here[1..]));
        out := out + [s[n]];
        n := n + 1;
      }
    }
    r := Some(out);
  }

  /** Positions of the unescaped parentheses of `s`, counted from `offset`. */
  function Parens(s: string, offset: nat): seq<(nat, char)> {
    if s == "" then []
    else if s[0] == '\\' then
      if |s| == 1 then [] else Parens(s[2..], offset + 2)
    else (if s[0] == '(' || s[0] == ')' then [(offset, s[0])] else []) + Parens(s[1..], offset + 1)
  }

  method FindUnescapedParens(s: string) returns (positions: seq<(nat, char)>)
    ensures positions == Parens(s, 0)
  {
    positions := [];
    var escaped := false;
    ghost var rest := Parens(s, 0);
    assert s[0..] == s;
    for i := 0 to |s|
      invariant Parens(s, 0) == positions + rest
      invariant rest == if !escaped then Parens(s[i..], i) else if i < |s| then Parens(s[i+1..], i + 1) else []
    {
      assert s[i..][0] == s[i] && s[i..][1..] == s[i+1..];
      if escaped {
        escaped := false;
      } else if s[i] == '\\' {
        escaped := true;
        assert i + 1 < |s| ==> s[i..][2..] == s[i+2..];
      } else if s[i] == '(' || s[i] == ')' {
        assert rest == [(i, s[i])] + Parens(s[i+1..], i + 1);
        positions, rest := positions + [(i, s[i])], Parens(s[i+1..], i + 1);
      }
    }
  }

  lemma {:induction false} ParensPoint(s: string, offset: nat, n: nat)
    requires n < |Parens(s, offset)|
    ensures offset <= Parens(s, offset)[n].0 < offset + |s|
    ensures s[Parens(s, offset)[n].0 - offset] == Parens(s, offset)[n].1
    ensures n > 0 ==> Parens(s, offset)[n-1].0 < Parens(s, offset)[n].0
    decreases |s|
  {
    if s[0] == '\\' {
      ParensPoint(s[2..], offset + 2, n);
    } else if s[0] == '(' || s[0] == ')' {
      if n > 0 {
        ParensPoint(s[1..], offset + 1, n - 1);
      }
    } else {
      ParensPoint(s[1..], offset + 1, n);
    }
  }

  predicate Mentions(s: string, needle: string) {
    exists i :: 0 <= i <= |s| && needle <= s[i..]
  }

  /** Wraps each alternative in the shared prefix and suffix. */
  function Distribute(prefix: string, alts: seq<string>, suffix: string): (r: Option<seq<string>>)
    ensures r.Some? ==> |r.value| == |alts|
  {
    if alts == [] then Some([])
    else
      var alt :- LiteralText(Tokens(alts[0]));
      Prepend([prefix + alt + suffix], Distribute(prefix, alts[1..], suffix))
  }

  function LiteralsOf(p: string): Option<seq<string>> {
    if Mentions(p, "(?") || |p| < 2 || p[0] != '^' || p[|p|-1] != '$' then None
    else
      var inner := p[1..|p|-1];
      var parens := Parens(inner, 0);
      if parens == [] then
        var lit :- LiteralText(Tokens(inner));
        Some([lit])
      else if |parens| != 2 || parens[0].1 != '(' || parens[1].1 != ')' then None
      else
        ParensPoint(inner, 0, 0);
        ParensPoint(inner, 0, 1);
        var open, close := parens[0].0, parens[1].0;
        var prefix :- LiteralText(Tokens(inner[..open]));
        var suffix :- LiteralText(Tokens(inner[close+1..]));
        if Mentions(inner[open+1..close], "\\|") then None
        else Distribute(prefix, Split(inner[open+1..close], '|'), suffix)
  }

  method ExtractLiterals(p: string) returns (r: Option<seq<string>>)
    ensures r == LiteralsOf(p)
  {
    hide Tokens, LiteralText, Split, Parens, Mentions;
    if Mentions(p, "(?") || |p| == 0 || p[0] != '^' || |p| == 1 || p[|p|-1] != '$' {
      return None;
    }
    var inner := p[1..|p|-1];
    var parens := FindUnescapedParens(inner);
    if parens == [] {
      var lit := UnescapeLiteral(inner);
      return match lit case Some(l) => Some([l]) case None => None;
    }
    if |parens| != 2 || parens[0].1 != '(' || parens[1].1 != ')' {
      return None;
    }
    ParensPoint(inner, 0, 0);
    ParensPoint(inner, 0, 1);
    var open, close := parens[0].0, parens[1].0;
    var prefix := UnescapeLiteral(inner[..open]);
    if prefix.None? {
      return None;
    }
    var body := inner[open+1..close];
    var suffix := UnescapeLiteral(inner[close+1..]);
    if suffix.None? || Mentions(body, "\\|") {
      return None;
    }
    var alts := Split(body, '|');
    var literals: seq<string> := [];
    assert alts[0..] == alts;
    for i := 0 to |alts|
      invariant Distribute(prefix.value, alts, suffix.value) ==
                Prepend(literals, Distribute(prefix.value, alts[i..], suffix.value))
    {
      assert alts[i..][0] == alts[i] && alts[i..][1..] == alts[i+1..];
      var alt := UnescapeLiteral(alts[i]);
      if alt.None? {
        return None;
      }
      ghost var rest := Distribute(prefix.value, alts[i+1..], suffix.value);
      PrependPrepend(literals, [prefix.value + alt.value + suffix.value], rest);
      literals := literals + [prefix.value + alt.value + suffix.value];
    }
    r := Some(literals);
  }

  // ----- What the list means -----

  /** Whether `\<` or `\>` occurs in the pattern. */
  predicate HasWordAssertion(p: string) {
    WordStart in Tokens(p) || WordEnd in Tokens(p)
  }

  predicate Textual(ts: seq<Token>) {
    forall t :: t in ts ==> TextOf(t).Some?
  }

  predicate Plain(ts: seq<Token>) {
    forall t :: t in ts ==> t.Lit?
  }

  lemma {:induction false} LiteralTextTextual(ts: seq<Token>)
    ensures LiteralText(ts).Some? <==> Textual(ts)
    ensures LiteralText(ts).Some? ==> |LiteralText(ts).value| == |ts|
  {
    if ts != [] {
      LiteralTextTextual(ts[1..]);
      assert ts == [ts[0]] + ts[1..];
    }
  }

  lemma TokensStep(c: char, rest: string)
    requires c != '\\'
    ensures Tokens([c] + rest) == [PlainToken(c)] + Tokens(rest)
  {
    assert ([c] + rest)[1..] == rest;
  }

  lemma {:induction false} TokensConcat(a: string, b: string)
    requires Other !in Tokens(a)
    ensures Tokens(a + b) == Tokens(a) + Tokens(b)
    decreases |a|
  {
    hide EscapedToken, PlainToken;
    if a == "" {
      assert a + b == b;
    } else if a[0] == '\\' {
      TokensConcat(a[2..], b);
      assert (a + b)[2..] == a[2..] + b;
    } else {
      TokensConcat(a[1..], b);
      assert (a + b)[1..] == a[1..] + b;
    }
  }

  /** A run of text tokens in front of whatever else is parsed. */
  function Prefixed(ts: seq<Token>, re: Regex): Regex {
    if ts == [] then re else Cat(Atom(ts[0]), Prefixed(ts[1..], re))
  }

  lemma {:induction false} ParsePrefixed(ts: seq<Token>, tail: seq<Token>)
    requires Textual(ts)
    ensures ParseCat(ts + tail) ==
            match ParseCat(tail)
            case Some(r) => Some((Prefixed(ts, r.0), r.1))
            case None => None
  {
    if ts == [] {
      assert ts + tail == tail;
    } else {
      assert TextOf(ts[0]).Some?;
      assert (ts + tail)[1..] == ts[1..] + tail;
      ParsePrefixed(ts[1..], tail);
    }
  }

  /** The characters a token consumes: assertions consume none. */
  function Taken(t: Token): string {
    if t.Lit? then [t.c] else ""
  }

  function Bare(ts: seq<Token>): string {
    if ts == [] then "" else Taken(ts[0]) + Bare(ts[1..])
  }

  /** Whether every assertion of a run holds at its place, when the run begins at `i`. */
  predicate AssertionsHold(lib: RegexLib, ts: seq<Token>, s: string, i: nat) {
    ts == [] || (AssertionHolds(lib, ts[0], s, i) && AssertionsHold(lib, ts[1..], s, i + |Taken(ts[0])|))
  }

  predicate AssertionHolds(lib: RegexLib, t: Token, s: string, i: nat) {
    match t
    case Lit(_) => true
    case WordStart => !WordAt(lib, s, i - 1) && WordAt(lib, s, i)
    case WordEnd => WordAt(lib, s, i - 1) && !WordAt(lib, s, i)
    case _ => false
  }

  predicate Fits(lib: RegexLib, ts: seq<Token>, s: string, i: nat)
    requires i <= |s|
  {
    Bare(ts) <= s[i..] && AssertionsHold(lib, ts, s, i)
  }

  lemma EndsAtom(lib: RegexLib, t: Token, re: Regex, s: string, i: nat)
    requires TextOf(t).Some? && i <= |s|
    ensures Taken(t) <= s[i..] && AssertionHolds(lib, t, s, i) ==>
              i + |Taken(t)| <= |s| && Ends(lib, Cat(Atom(t), re), s, i) == Ends(lib, re, s, i + |Taken(t)|)
    ensures !(Taken(t) <= s[i..] && AssertionHolds(lib, t, s, i)) ==> Ends(lib, Cat(Atom(t), re), s, i) == {}
  {
    if t.Lit? {
      if i < |s| && s[i] == t.c {
        assert s[i..][0] == s[i];
      }
    }
  }

  lemma PrefixSplits(a: string, b: string, s: string, i: nat)
    requires i <= |s|
    ensures a + b <= s[i..] <==> a <= s[i..] && i + |a| <= |s| && b <= s[i + |a|..]
  {
    if a <= s[i..] {
      assert s[i..] == a + s[i + |a|..];
      if b <= s[i + |a|..] {
        assert s[i + |a|..] == b + s[i + |a|..][|b|..];
        assert a + (b + s[i + |a|..][|b|..]) == (a + b) + s[i + |a|..][|b|..];
      }
      if a + b <= s[i..] {
        assert s[i..][|a|..] == s[i + |a|..];
        assert s[i..] == a + b + s[i..][|a + b|..];
        assert s[i..][|a|..] == b + s[i..][|a + b|..];
      }
    }
  }

  /** A run of text tokens matches its bare text, where its assertions hold, and nothing else. */
  lemma {:induction false} EndsText(lib: RegexLib, ts: seq<Token>, re: Regex, s: string, i: nat)
    requires Textual(ts) && i <= |s|
    ensures Fits(lib, ts, s, i) ==> i + |Bare(ts)| <= |s|
    ensures Ends(lib, Prefixed(ts, re), s, i) == if Fits(lib, ts, s, i) then Ends(lib, re, s, i + |Bare(ts)|) else {}
  {
    hide Ends, AssertionHolds, Taken;
    if ts != [] {
      assert TextOf(ts[0]).Some?;
      EndsAtom(lib, ts[0], Prefixed(ts[1..], re), s, i);
      PrefixSplits(Taken(ts[0]), Bare(ts[1..]), s, i);
      if i + |Taken(ts[0])| <= |s| {
        EndsText(lib, ts[1..], re, s, i + |Taken(ts[0])|);
      }
    }
  }

  lemma {:induction false} BareConcat(a: seq<Token>, b: seq<Token>)
    ensures Bare(a + b) == Bare(a) + Bare(b)
  {
    hide Taken;
    if a == [] {
      assert a + b == b;
    } else {
      assert (a + b)[1..] == a[1..] + b;
      BareConcat(a[1..], b);
      Regroup(Taken(a[0]), Bare(a[1..]), Bare(b));
    }
  }

  lemma Regroup(a: string, b: string, c: string)
    ensures a + (b + c) == a + b + c
  {
  }

  lemma {:induction false} AssertionsConcat(lib: RegexLib, a: seq<Token>, b: seq<Token>, s: string, i: nat)
    ensures AssertionsHold(lib, a + b, s, i) <==> AssertionsHold(lib, a, s, i) && AssertionsHold(lib, b, s, i + |Bare(a)|)
  {
    if a == [] {
      assert a + b == b;
    } else {
      assert (a + b)[1..] == a[1..] + b;
      AssertionsConcat(lib, a[1..], b, s, i + |Taken(a[0])|);
    }
  }

  lemma {:induction false} LiteralConcat(a: seq<Token>, b: seq<Token>)
    requires Textual(a) && Textual(b)
    ensures Textual(a + b) && LiteralText(a).Some? && LiteralText(b).Some?
    ensures LiteralText(a + b) == Some(LiteralText(a).value + LiteralText(b).value)
  {
    LiteralTextTextual(a);
    LiteralTextTextual(b);
    if a == [] {
      assert a + b == b && "" + LiteralText(b).value == LiteralText(b).value;
    } else {
      assert (a + b)[1..] == a[1..] + b;
      assert TextOf(a[0]).Some? && Textual(a[1..]);
      LiteralConcat(a[1..], b);
      var w, w' := LiteralText(a[1..]).value, LiteralText(b).value;
      assert [TextOf(a[0]).value] + (w + w') == [TextOf(a[0]).value] + w + w';
    }
  }

  /** The bare text is the literal text exactly when the run holds no assertion, and shorter otherwise. */
  lemma {:induction false} BareAgainstLiteral(lib: RegexLib, ts: seq<Token>, s: string, i: nat)
    requires Textual(ts)
    ensures LiteralText(ts).Some?
    ensures Plain(ts) ==> Bare(ts) == LiteralText(ts).value && AssertionsHold(lib, ts, s, i)
    ensures !Plain(ts) ==> |Bare(ts)| < |LiteralText(ts).value|
  {
    LiteralTextTextual(ts);
    if ts != [] {
      assert TextOf(ts[0]).Some?;
      BareAgainstLiteral(lib, ts[1..], s, i + |Taken(ts[0])|);
      assert ts == [ts[0]] + ts[1..];
    }
  }

  // ----- The two accepted shapes -----

  predicate AllTextual(alts: seq<string>) {
    forall k :: 0 <= k < |alts| ==> Textual(Tokens(alts[k]))
  }

  function AltsTokens(alts: seq<string>): seq<Token>
    requires |alts| > 0
  {
    if |alts| == 1 then Tokens(alts[0]) else Tokens(alts[0]) + [Bar] + AltsTokens(alts[1..])
  }

  function AltsRegex(alts: seq<string>): Regex
    requires |alts| > 0
  {
    var here := Prefixed(Tokens(alts[0]), Empty);
    if |alts| == 1 then here else Alt(here, AltsRegex(alts[1..]))
  }

  lemma {:induction false} DistributeTextual(prefix: string, alts: seq<string>, suffix: string)
    requires Distribute(prefix, alts, suffix).Some?
    ensures AllTextual(alts)
  {
    if alts != [] {
      LiteralTextTextual(Tokens(alts[0]));
      DistributeTextual(prefix, alts[1..], suffix);
    }
  }

  lemma {:induction false} JoinTokens(alts: seq<string>)
    requires |alts| > 0 && AllTextual(alts)
    ensures Tokens(Join(alts, "|")) == AltsTokens(alts)
    ensures Other !in AltsTokens(alts)
  {
    hide Tokens;
    assert Textual(Tokens(alts[0]));
    assert Other !in Tokens(alts[0]);
    if |alts| > 1 {
      JoinTokens(alts[1..]);
      var rest := Join(alts[1..], "|");
      assert alts[0] + "|" + rest == alts[0] + ("|" + rest);
      TokensConcat(alts[0], "|" + rest);
      TokensStep('|', rest);
    }
  }

  lemma ParseStops(ts: seq<Token>)
    requires ts != [] && (ts[0] == Bar || ts[0] == RParen)
    ensures ParseCat(ts) == Some((Empty, ts))
  {
  }

  lemma {:induction false} ParseAlts(alts: seq<string>, tail: seq<Token>)
    requires |alts| > 0 && AllTextual(alts) && tail != [] && tail[0] == RParen
    ensures ParseAlt(AltsTokens(alts) + tail) == Some((AltsRegex(alts), tail))
  {
    hide Tokens, ParseCat;
    if |alts| == 1 {
      ParseStops(tail);
      ParsePrefixed(Tokens(alts[0]), tail);
    } else {
      var more := [Bar] + AltsTokens(alts[1..]) + tail;
      ParseStops(more);
      assert AltsTokens(alts) + tail == Tokens(alts[0]) + more;
      ParsePrefixed(Tokens(alts[0]), more);
      assert more[1..] == AltsTokens(alts[1..]) + tail;
      ParseAlts(alts[1..], tail);
    }
  }

  /** What is left of an accepted pattern once the anchors and the group are taken off. */
  datatype Shape = Single(text: string) | Group(prefix: string, alts: seq<string>, suffix: string)

  ghost predicate ShapeText(shape: Shape) {
    match shape
    case Single(text) => Textual(Tokens(text))
    case Group(prefix, alts, suffix) => Textual(Tokens(prefix)) && |alts| > 0 && AllTextual(alts) && Textual(Tokens(suffix))
  }

  ghost function ShapePattern(shape: Shape): string {
    match shape
    case Single(text) => "^" + (text + "$")
    case Group(prefix, alts, suffix) => "^" + (prefix + ("(" + (Join(alts, "|") + (")" + (suffix + "$")))))
  }

  const END: Regex := Cat(TextEnd, Empty)

  /** The tokens after the opening anchor. */
  ghost function ShapeTokens(shape: Shape): seq<Token>
    requires ShapeText(shape)
  {
    match shape
    case Single(text) => Tokens(text) + [Dollar]
    case Group(prefix, alts, suffix) =>
      Tokens(prefix) + ([LParen] + (AltsTokens(alts) + ([RParen] + (Tokens(suffix) + [Dollar]))))
  }

  ghost function ShapeRegex(shape: Shape): Regex
    requires ShapeText(shape)
  {
    match shape
    case Single(text) => Cat(TextStart, Prefixed(Tokens(text), END))
    case Group(prefix, alts, suffix) =>
      Cat(TextStart, Prefixed(Tokens(prefix), Cat(AltsRegex(alts), Prefixed(Tokens(suffix), END))))
  }

  ghost function ShapeLiterals(shape: Shape): Option<seq<string>> {
    match shape
    case Single(text) => (match LiteralText(Tokens(text)) case Some(lit) => Some([lit]) case None => None)
    case Group(prefix, alts, suffix) =>
      match (LiteralText(Tokens(prefix)), LiteralText(Tokens(suffix)))
      case (Some(p), Some(s)) => Distribute(p, alts, s)
      case _ => None
  }

  /** The shape of a pattern that yields literals. */
  function ShapeOf(p: string): Shape
    requires LiteralsOf(p).Some?
  {
    var inner := p[1..|p|-1];
    var parens := Parens(inner, 0);
    if parens == [] then Single(inner)
    else
      ParensPoint(inner, 0, 0);
      ParensPoint(inner, 0, 1);
      Group(inner[..parens[0].0], Split(inner[parens[0].0+1..parens[1].0], '|'), inner[parens[1].0+1..])
  }

  lemma AcceptedGroup(p: string, inner: string) returns (body: string)
    requires p == "^" + inner + "$" && LiteralsOf(p).Some? && Parens(inner, 0) != []
    ensures ShapeOf(p).Group? && ShapeOf(p).alts == Split(body, '|')
    ensures inner == ShapeOf(p).prefix + "(" + body + ")" + ShapeOf(p).suffix
    ensures ShapeLiterals(ShapeOf(p)) == LiteralsOf(p)
  {
    hide Tokens, LiteralText, Distribute, Split, Parens, Mentions;
    assert p[1..|p|-1] == inner;
    ParensPoint(inner, 0, 0);
    ParensPoint(inner, 0, 1);
    body := inner[Parens(inner, 0)[0].0+1..Parens(inner, 0)[1].0];
  }

  lemma GroupShapeText(prefix: string, alts: seq<string>, suffix: string)
    requires |alts| > 0 && ShapeLiterals(Group(prefix, alts, suffix)).Some?
    ensures ShapeText(Group(prefix, alts, suffix))
  {
    LiteralTextTextual(Tokens(prefix));
    LiteralTextTextual(Tokens(suffix));
    DistributeTextual(LiteralText(Tokens(prefix)).value, alts, LiteralText(Tokens(suffix)).value);
  }

  lemma PatternRegrouped(prefix: string, body: string, suffix: string)
    ensures "^" + (prefix + "(" + body + ")" + suffix) + "$" == "^" + (prefix + ("(" + (body + (")" + (suffix + "$")))))
  {
  }

  /** Every pattern that yields literals is that of its shape. */
  lemma AcceptedShape(p: string)
    requires LiteralsOf(p).Some?
    ensures ShapeText(ShapeOf(p)) && ShapePattern(ShapeOf(p)) == p && ShapeLiterals(ShapeOf(p)) == LiteralsOf(p)
  {
    hide Tokens, LiteralText, Distribute, Split, Parens, Mentions, Join;
    var inner := p[1..|p|-1];
    assert p == "^" + inner + "$";
    if Parens(inner, 0) == [] {
      LiteralTextTextual(Tokens(inner));
    } else {
      var body := AcceptedGroup(p, inner);
      var shape := ShapeOf(p);
      GroupShapeText(shape.prefix, shape.alts, shape.suffix);
      JoinSplit(body, '|');
      PatternRegrouped(shape.prefix, body, shape.suffix);
    }
  }

  lemma GroupTokens(prefix: string, body: string, suffix: string)
    requires Other !in Tokens(prefix) && Other !in Tokens(body) && Other !in Tokens(suffix)
    ensures Tokens(prefix + ("(" + (body + (")" + (suffix + "$"))))) ==
            Tokens(prefix) + ([LParen] + (Tokens(body) + ([RParen] + (Tokens(suffix) + [Dollar]))))
  {
    assert Tokens("$") == [Dollar];
    hide Tokens;
    var afterBody := ")" + (suffix + "$");
    var afterPrefix := "(" + (body + afterBody);
    TokensConcat(prefix, afterPrefix);
    TokensStep('(', body + afterBody);
    TokensConcat(body, afterBody);
    TokensStep(')', suffix + "$");
    TokensConcat(suffix, "$");
  }

  lemma ShapeTokensAre(shape: Shape)
    requires ShapeText(shape)
    ensures Tokens(ShapePattern(shape)) == [Caret] + ShapeTokens(shape)
  {
    assert Tokens("$") == [Dollar];
    hide Tokens, Join, AltsTokens;
    match shape
    case Single(text) =>
      TokensStep('^', text + "$");
      TokensConcat(text, "$");
    case Group(prefix, alts, suffix) =>
      var body := Join(alts, "|");
      var rest := prefix + ("(" + (body + (")" + (suffix + "$"))));
      TokensStep('^', rest);
      JoinTokens(alts);
      GroupTokens(prefix, body, suffix);
  }

  lemma ParseAnchored(ts: seq<Token>, re: Regex)
    requires ParseCat(ts) == Some((re, []))
    ensures ParseAlt([Caret] + ts) == Some((Cat(TextStart, re), []))
  {
    assert ([Caret] + ts)[1..] == ts;
  }

  lemma ParseGroup(body: seq<Token>, group: Regex, rest: seq<Token>, re: Regex)
    requires ParseAlt(body + ([RParen] + rest)) == Some((group, [RParen] + rest))
    requires ParseCat(rest) == Some((re, []))
    ensures ParseCat([LParen] + (body + ([RParen] + rest))) == Some((Cat(group, re), []))
  {
    assert ([LParen] + (body + ([RParen] + rest)))[1..] == body + ([RParen] + rest);
    assert ([RParen] + rest)[1..] == rest;
  }

  lemma ShapeParses(shape: Shape)
    requires ShapeText(shape)
    ensures ParsePattern(ShapePattern(shape)) == Some(ShapeRegex(shape))
  {
    ShapeTokensAre(shape);
    var end: seq<Token> := [Dollar];
    assert ParseCat(end) == Some((Cat(TextEnd, Empty), []));
    hide Tokens, ParseCat, ParseAlt, Prefixed, AltsTokens, AltsRegex, Join;
    match shape
    case Single(text) =>
      ParsePrefixed(Tokens(text), end);
      ParseAnchored(Tokens(text) + end, Prefixed(Tokens(text), END));
    case Group(prefix, alts, suffix) =>
      var tail := Tokens(suffix) + end;
      ParsePrefixed(Tokens(suffix), end);
      ParseAlts(alts, [RParen] + tail);
      ParseGroup(AltsTokens(alts), AltsRegex(alts), tail, Prefixed(Tokens(suffix), END));
      var group := [LParen] + (AltsTokens(alts) + ([RParen] + tail));
      ParsePrefixed(Tokens(prefix), group);
      ParseAnchored(Tokens(prefix) + group, ShapeRegex(shape).second);
  }

  // ----- The language of an accepted pattern -----

  /** The token runs an accepted pattern chooses between: one for each alternative, whole. */
  function RunsOf(shape: Shape): (runs: seq<seq<Token>>) {
    match shape
    case Single(text) => [Tokens(text)]
    case Group(prefix, alts, suffix) =>
      seq(|alts|, k requires 0 <= k < |alts| => Tokens(prefix) + Tokens(alts[k]) + Tokens(suffix))
  }

  /** The one string a run matches, if its assertions hold in it. */
  function Reading(lib: RegexLib, run: seq<Token>): Option<string> {
    if AssertionsHold(lib, run, Bare(run), 0) then Some(Bare(run)) else None
  }

  lemma EndsCat(lib: RegexLib, a: Regex, b: Regex, s: string, i: nat, k: nat, j: nat)
    requires i <= |s| && k in Ends(lib, a, s, i) && j in Ends(lib, b, s, k)
    ensures j in Ends(lib, Cat(a, b), s, i)
  {
  }

  lemma CatSplits(lib: RegexLib, a: Regex, b: Regex, s: string, i: nat, j: nat) returns (k: nat)
    requires i <= |s| && j in Ends(lib, Cat(a, b), s, i)
    ensures k <= |s| && k in Ends(lib, a, s, i) && j in Ends(lib, b, s, k)
  {
    k :| k in Ends(lib, a, s, i) && j in Ends(lib, b, s, k);
  }

  lemma FoundAnchored(lib: RegexLib, re: Regex, s: string)
    ensures Found(lib, Cat(TextStart, re), s) <==> Ends(lib, re, s, 0) != {}
  {
    if e :| e in Ends(lib, re, s, 0) {
      EndsCat(lib, TextStart, re, s, 0, 0, e);
    }
    if Found(lib, Cat(TextStart, re), s) {
      var i :| 0 <= i <= |s| && Ends(lib, Cat(TextStart, re), s, i) != {};
      var e :| e in Ends(lib, Cat(TextStart, re), s, i);
      var k := CatSplits(lib, TextStart, re, s, i, e);
    }
  }

  /** An alternative of the group that fits at `i` and ends at `j`. */
  predicate Picks(lib: RegexLib, alts: seq<string>, k: nat, s: string, i: nat, j: nat)
    requires i <= |s|
  {
    k < |alts| && Fits(lib, Tokens(alts[k]), s, i) && j == i + |Bare(Tokens(alts[k]))|
  }

  lemma {:induction false} EndsAlts(lib: RegexLib, alts: seq<string>, s: string, i: nat, j: nat)
    requires |alts| > 0 && AllTextual(alts) && i <= |s|
    ensures j in Ends(lib, AltsRegex(alts), s, i) <==> exists k: nat :: Picks(lib, alts, k, s, i, j)
  {
    hide Tokens, Prefixed, Fits;
    EndsText(lib, Tokens(alts[0]), Empty, s, i);
    assert j in Ends(lib, Prefixed(Tokens(alts[0]), Empty), s, i) <==> Picks(lib, alts, 0, s, i, j);
    if |alts| > 1 {
      EndsAlts(lib, alts[1..], s, i, j);
      if k: nat :| Picks(lib, alts[1..], k, s, i, j) {
        assert Picks(lib, alts, k + 1, s, i, j);
      }
      if k: nat :| Picks(lib, alts, k, s, i, j) && k > 0 {
        assert Picks(lib, alts[1..], k - 1, s, i, j);
      }
    }
  }

  lemma EndsTail(lib: RegexLib, ts: seq<Token>, s: string, j: nat)
    requires Textual(ts) && j <= |s|
    ensures Ends(lib, Prefixed(ts, END), s, j) != {} <==> s[j..] == Bare(ts) && AssertionsHold(lib, ts, s, j)
  {
    EndsText(lib, ts, END, s, j);
    if j + |Bare(ts)| == |s| {
      EndsCat(lib, TextEnd, Empty, s, |s|, |s|, |s|);
    }
  }

  lemma SingleMatch(lib: RegexLib, text: string, s: string)
    requires Textual(Tokens(text))
    ensures Found(lib, ShapeRegex(Single(text)), s) <==> Reading(lib, Tokens(text)) == Some(s)
  {
    FoundAnchored(lib, Prefixed(Tokens(text), END), s);
    EndsTail(lib, Tokens(text), s, 0);
    assert s[0..] == s;
  }

  lemma ReadingIs(lib: RegexLib, run: seq<Token>, s: string)
    ensures Reading(lib, run) == Some(s) <==> s == Bare(run) && AssertionsHold(lib, run, s, 0)
  {
  }

  lemma ThreeBare(pre: seq<Token>, mid: seq<Token>, suf: seq<Token>)
    ensures Bare(pre + mid + suf) == Bare(pre) + Bare(mid) + Bare(suf)
  {
    hide Bare;
    BareConcat(pre, mid);
    BareConcat(pre + mid, suf);
  }

  lemma ThreeHold(lib: RegexLib, pre: seq<Token>, mid: seq<Token>, suf: seq<Token>, s: string)
    ensures AssertionsHold(lib, pre + mid + suf, s, 0) <==>
            && AssertionsHold(lib, pre, s, 0) && AssertionsHold(lib, mid, s, |Bare(pre)|)
            && AssertionsHold(lib, suf, s, |Bare(pre)| + |Bare(mid)|)
  {
    hide AssertionsHold, Bare;
    BareConcat(pre, mid);
    var i, j := |Bare(pre)|, |Bare(pre + mid)|;
    assert j == i + |Bare(mid)|;
    AssertionsConcat(lib, pre, mid, s, 0);
    AssertionsConcat(lib, pre + mid, suf, s, 0);
  }

  /** A whole run is read exactly if its three parts fit one behind the other. */
  lemma RunReads(lib: RegexLib, pre: seq<Token>, mid: seq<Token>, suf: seq<Token>, s: string)
    ensures Reading(lib, pre + mid + suf) == Some(s) <==>
            && s == Bare(pre) + Bare(mid) + Bare(suf)
            && AssertionsHold(lib, pre, s, 0) && AssertionsHold(lib, mid, s, |Bare(pre)|)
            && AssertionsHold(lib, suf, s, |Bare(pre)| + |Bare(mid)|)
  {
    hide AssertionsHold, Bare, Reading;
    ReadingIs(lib, pre + mid + suf, s);
    ThreeBare(pre, mid, suf);
    ThreeHold(lib, pre, mid, suf, s);
  }

  lemma GroupMatches(lib: RegexLib, shape: Shape, k: nat, s: string)
    requires shape.Group? && ShapeText(shape) && k < |shape.alts| && Reading(lib, RunsOf(shape)[k]) == Some(s)
    ensures Found(lib, ShapeRegex(shape), s)
  {
    hide Tokens, Ends, Prefixed, AltsRegex, AssertionsHold, Bare, Reading;
    var tp, ta, ts := Tokens(shape.prefix), Tokens(shape.alts[k]), Tokens(shape.suffix);
    var tail := Prefixed(ts, END);
    var middle := Cat(AltsRegex(shape.alts), tail);
    RunReads(lib, tp, ta, ts, s);
    var i, j := |Bare(tp)|, |Bare(tp)| + |Bare(ta)|;
    assert s[0..] == s && s[i..] == Bare(ta) + Bare(ts) && s[j..] == Bare(ts);
    EndsText(lib, tp, middle, s, 0);
    assert Picks(lib, shape.alts, k, s, i, j);
    EndsAlts(lib, shape.alts, s, i, j);
    EndsTail(lib, ts, s, j);
    var e :| e in Ends(lib, tail, s, j);
    EndsCat(lib, AltsRegex(shape.alts), tail, s, i, j, e);
    FoundAnchored(lib, Prefixed(tp, middle), s);
  }

  lemma GroupMatched(lib: RegexLib, shape: Shape, s: string) returns (k: nat)
    requires shape.Group? && ShapeText(shape) && Found(lib, ShapeRegex(shape), s)
    ensures k < |shape.alts| && Reading(lib, RunsOf(shape)[k]) == Some(s)
  {
    hide Tokens, Ends, Prefixed, AltsRegex, AssertionsHold, Bare, Reading;
    var tp, ts := Tokens(shape.prefix), Tokens(shape.suffix);
    var tail := Prefixed(ts, END);
    var middle := Cat(AltsRegex(shape.alts), tail);
    FoundAnchored(lib, Prefixed(tp, middle), s);
    EndsText(lib, tp, middle, s, 0);
    var i := |Bare(tp)|;
    assert s[0..] == s;
    var e :| e in Ends(lib, middle, s, i);
    var j := CatSplits(lib, AltsRegex(shape.alts), tail, s, i, e);
    EndsAlts(lib, shape.alts, s, i, j);
    k :| Picks(lib, shape.alts, k, s, i, j);
    EndsTail(lib, ts, s, j);
    assert s == s[..i] + s[i..j] + s[j..];
    RunReads(lib, tp, Tokens(shape.alts[k]), ts, s);
  }

  /** Every accepted pattern matches exactly the readings of its runs. */
  lemma PatternLanguage(lib: RegexLib, p: string, s: string)
    requires LiteralsOf(p).Some?
    ensures IsMatch(lib, p, s) <==> exists run :: run in RunsOf(ShapeOf(p)) && Reading(lib, run) == Some(s)
  {
    hide Tokens, LiteralsOf, Reading, ShapeRegex, ShapePattern, ShapeText, ParsePattern, Found;
    AcceptedShape(p);
    var shape := ShapeOf(p);
    ShapeParses(shape);
    TextualShape(shape);
    match shape
    case Single(text) =>
      SingleMatch(lib, text, s);
      assert Tokens(text) in RunsOf(shape);
    case Group(_, alts, _) =>
      if run :| run in RunsOf(shape) && Reading(lib, run) == Some(s) {
        var k: nat :| k < |alts| && RunsOf(shape)[k] == run;
        GroupMatches(lib, shape, k, s);
      }
      if Found(lib, ShapeRegex(shape), s) {
        var k := GroupMatched(lib, shape, s);
        assert RunsOf(shape)[k] in RunsOf(shape);
      }
  }

  lemma TextualShape(shape: Shape)
    requires ShapeText(shape)
    ensures shape.Single? ==> Textual(Tokens(shape.text))
  {
  }

  // ----- The list against the language -----

  /** The list is what the runs say when their assertions are taken for characters. */
  lemma ListedRuns(shape: Shape)
    requires ShapeText(shape) && ShapeLiterals(shape).Some?
    ensures |ShapeLiterals(shape).value| == |RunsOf(shape)|
    ensures forall k :: 0 <= k < |RunsOf(shape)| ==>
              Textual(RunsOf(shape)[k]) && LiteralText(RunsOf(shape)[k]) == Some(ShapeLiterals(shape).value[k])
  {
    hide Tokens, LiteralText;
    match shape
    case Single(text) =>
    case Group(prefix, alts, suffix) =>
      forall k | 0 <= k < |alts|
        ensures Textual(RunsOf(shape)[k]) && LiteralText(RunsOf(shape)[k]) == Some(ShapeLiterals(shape).value[k])
      {
        LiteralConcat(Tokens(prefix), Tokens(alts[k]));
        LiteralConcat(Tokens(prefix) + Tokens(alts[k]), Tokens(suffix));
        DistributeAt(LiteralText(Tokens(prefix)).value, alts, LiteralText(Tokens(suffix)).value, k);
      }
  }

  lemma {:induction false} DistributeAt(prefix: string, alts: seq<string>, suffix: string, k: nat)
    requires Distribute(prefix, alts, suffix).Some? && k < |alts|
    ensures LiteralText(Tokens(alts[k])).Some?
    ensures Distribute(prefix, alts, suffix).value[k] == prefix + LiteralText(Tokens(alts[k])).value + suffix
  {
    hide LiteralText, Tokens;
    if k > 0 {
      DistributeAt(prefix, alts[1..], suffix, k - 1);
    }
  }

  /** Nothing is missing from the list: every run whose assertions hold reads to a listed string. */
  predicate Covers(lib: RegexLib, p: string)
    requires LiteralsOf(p).Some?
  {
    forall run :: run in RunsOf(ShapeOf(p)) && Reading(lib, run).Some? ==> Reading(lib, run).value in LiteralsOf(p).value
  }

  /** Nothing is too much in it: every listed string is the reading of some run. */
  predicate Justifies(lib: RegexLib, p: string)
    requires LiteralsOf(p).Some?
  {
    forall lit :: lit in LiteralsOf(p).value ==> exists run :: run in RunsOf(ShapeOf(p)) && Reading(lib, run) == Some(lit)
  }

  /** No match is missing from the list if and only if the list covers the pattern's readings. */
  lemma CoversIff(lib: RegexLib, p: string)
    requires LiteralsOf(p).Some?
    ensures (forall s :: IsMatch(lib, p, s) ==> s in LiteralsOf(p).value) <==> Covers(lib, p)
  {
    hide LiteralsOf, IsMatch, Reading, RunsOf, ShapeOf;
    forall s ensures IsMatch(lib, p, s) <==> exists run :: run in RunsOf(ShapeOf(p)) && Reading(lib, run) == Some(s) {
      PatternLanguage(lib, p, s);
    }
    if forall s :: IsMatch(lib, p, s) ==> s in LiteralsOf(p).value {
      forall run | run in RunsOf(ShapeOf(p)) && Reading(lib, run).Some? ensures Reading(lib, run).value in LiteralsOf(p).value {
        assert IsMatch(lib, p, Reading(lib, run).value);
      }
    }
  }

  /**
   For every accepted pattern: the list is its language if and only if the list covers the
   readings, and each listed string is one. Both are finite checks on the pattern.
   */
  lemma LiteralsExactIff(lib: RegexLib, p: string)
    requires LiteralsOf(p).Some?
    ensures (forall s :: IsMatch(lib, p, s) <==> s in LiteralsOf(p).value) <==> Covers(lib, p) && Justifies(lib, p)
  {
    hide LiteralsOf, IsMatch, Reading, RunsOf, ShapeOf, Covers;
    CoversIff(lib, p);
    forall s ensures IsMatch(lib, p, s) <==> exists run :: run in RunsOf(ShapeOf(p)) && Reading(lib, run) == Some(s) {
      PatternLanguage(lib, p, s);
    }
  }

  lemma AbsentFromParts(t: Token, a: seq<Token>, b: seq<Token>, c: seq<Token>)
    requires t !in a + ([LParen] + (b + ([RParen] + (c + [Dollar]))))
    ensures t !in a && t !in b && t !in c
  {
  }

  lemma PlainRun(ts: seq<Token>)
    requires Textual(ts) && WordStart !in ts && WordEnd !in ts
    ensures Plain(ts)
  {
    assert forall t :: t in ts ==> TextOf(t).Some?;
  }

  lemma ShapePlain(shape: Shape)
    requires ShapeText(shape) && !HasWordAssertion(ShapePattern(shape))
    ensures forall run :: run in RunsOf(shape) ==> Plain(run)
  {
    hide Tokens, ShapePattern, AltsTokens, TextOf, Textual;
    ShapeTokensAre(shape);
    if shape.Group? {
      var ta, tb, tc := Tokens(shape.prefix), AltsTokens(shape.alts), Tokens(shape.suffix);
      AbsentFromParts(WordStart, ta, tb, tc);
      AbsentFromParts(WordEnd, ta, tb, tc);
      PlainRun(ta);
      PlainRun(tc);
      AltsPlain(shape.alts);
    } else {
      PlainRun(Tokens(shape.text));
    }
  }

  lemma {:induction false} AltsPlain(alts: seq<string>)
    requires |alts| > 0 && AllTextual(alts) && WordStart !in AltsTokens(alts) && WordEnd !in AltsTokens(alts)
    ensures forall k :: 0 <= k < |alts| ==> Plain(Tokens(alts[k]))
  {
    assert Textual(Tokens(alts[0]));
    assert forall t :: t in Tokens(alts[0]) ==> t in AltsTokens(alts) && TextOf(t).Some?;
    if |alts| > 1 {
      AltsPlain(alts[1..]);
    }
  }

  /** Without `\<` and `\>` in the pattern both always hold. */
  lemma PlainIsExact(lib: RegexLib, p: string)
    requires LiteralsOf(p).Some? && !HasWordAssertion(p)
    ensures Covers(lib, p) && Justifies(lib, p)
  {
    hide LiteralsOf, ShapePattern, Tokens, ShapeOf, RunsOf;
    AcceptedShape(p);
    var runs := RunsOf(ShapeOf(p));
    ShapePlain(ShapeOf(p));
    ListedRuns(ShapeOf(p));
    forall k | 0 <= k < |runs| ensures Reading(lib, runs[k]) == Some(LiteralsOf(p).value[k]) {
      assert runs[k] in runs;
      BareAgainstLiteral(lib, runs[k], Bare(runs[k]), 0);
    }
    forall lit | lit in LiteralsOf(p).value ensures exists run :: run in runs && Reading(lib, run) == Some(lit) {
      var k :| 0 <= k < |runs| && LiteralsOf(p).value[k] == lit;
      assert runs[k] in runs;
    }
  }

  /** So the list of a pattern without assertions is its language. */
  lemma LiteralsExact(lib: RegexLib, p: string, s: string)
    requires LiteralsOf(p).Some? && !HasWordAssertion(p)
    ensures IsMatch(lib, p, s) <==> s in LiteralsOf(p).value
  {
    hide LiteralsOf, IsMatch, Covers, Justifies;
    PlainIsExact(lib, p);
    LiteralsExactIff(lib, p);
  }


  // ----- Where the list and the language part -----

  lemma {:induction false} Longest(words: seq<string>) returns (k: nat)
    requires |words| > 0
    ensures k < |words| && forall i :: 0 <= i < |words| ==> |words[i]| <= |words[k]|
  {
    if |words| == 1 {
      k := 0;
    } else {
      var k' := Longest(words[1..]);
      assert forall i :: 1 <= i < |words| ==> words[i] == words[1..][i-1];
      k := if |words[0]| >= |words[k' + 1]| then 0 else k' + 1;
    }
  }

  /** Whether every word-boundary assertion of an accepted shape lies between its parentheses. */
  predicate AssertionsOnlyInGroup(shape: Shape) {
    match shape
    case Single(text) => !HasWordAssertion(text)
    case Group(prefix, _, suffix) => !HasWordAssertion(prefix) && !HasWordAssertion(suffix)
  }

  /**
   An assertion outside the group always makes the list wrong: the longest string of the
   list, in which the assertion was read as a character, is not matched by the pattern.
   */
  lemma AssertionOutsideGroupIsInexact(lib: RegexLib, p: string) returns (s: string)
    requires LiteralsOf(p).Some? && !AssertionsOnlyInGroup(ShapeOf(p))
    ensures s in LiteralsOf(p).value && !IsMatch(lib, p, s)
  {
    hide LiteralsOf, Tokens, ShapeOf, ShapePattern, IsMatch;
    AcceptedShape(p);
    var runs, list := RunsOf(ShapeOf(p)), LiteralsOf(p).value;
    ListedRuns(ShapeOf(p));
    var k := Longest(list);
    s := list[k];
    PatternLanguage(lib, p, s);
    forall run | run in runs ensures Reading(lib, run) != Some(s) {
      var j :| 0 <= j < |runs| && runs[j] == run;
      assert !Plain(run) by {
        assert exists t: Token :: !t.Lit? && t in run;
      }
      BareAgainstLiteral(lib, run, s, 0);
      assert |list[j]| <= |s|;
    }
  }

  lemma TokensOfExamples()
    ensures Tokens("\\<a") == [WordStart, Lit('a')]
    ensures Tokens("<a") == [Lit('<'), Lit('a')]
    ensures Tokens("a") == [Lit('a')]
  {
    assert "\\<a"[2..] == "a" && "<a"[1..] == "a";
  }

  lemma TextOfExamples()
    ensures LiteralText([Lit('a')]) == Some("a")
    ensures LiteralText([Lit('<'), Lit('a')]) == Some("<a") == LiteralText([WordStart, Lit('a')])
  {
    assert [WordStart, Lit('a')][1..] == [Lit('a')] == [Lit('<'), Lit('a')][1..];
    assert ['<'] + "a" == "<a";
    assert LiteralText([Lit('a')]) == Some("a");
  }

  lemma ReadingOfExamples(lib: RegexLib)
    requires lib.isWord('a')
    ensures Reading(lib, [WordStart, Lit('a')]) == Some("a") == Reading(lib, [Lit('a')])
    ensures Reading(lib, [Lit('<'), Lit('a')]) == Some("<a")
  {
    assert [WordStart, Lit('a')][1..] == [Lit('a')] == [Lit('<'), Lit('a')][1..];
    assert [Lit('a')][1..] == [];
    assert Bare([Lit('a')]) == "a" && Bare([WordStart, Lit('a')]) == "a" && Bare([Lit('<'), Lit('a')]) == "<a";
    assert AssertionsHold(lib, [Lit('a')], "a", 0) && AssertionsHold(lib, [Lit('a')], "<a", 1);
  }

  /** Text without parentheses adds none, whatever follows it. */
  lemma {:induction false} NoParens(s: string, rest: string, offset: nat)
    requires '(' !in s && ')' !in s && Other !in Tokens(s)
    ensures Parens(s + rest, offset) == Parens(rest, offset + |s|)
    decreases |s|
  {
    if s == "" {
      assert s + rest == rest;
    } else if s[0] == '\\' {
      assert (s + rest)[2..] == s[2..] + rest;
      NoParens(s[2..], rest, offset + 2);
    } else {
      assert (s + rest)[1..] == s[1..] + rest;
      NoParens(s[1..], rest, offset + 1);
    }
  }

  lemma SingleLiterals(inner: string)
    requires '(' !in inner && ')' !in inner && LiteralText(Tokens(inner)).Some?
    ensures LiteralsOf("^" + inner + "$") == Some([LiteralText(Tokens(inner)).value])
    ensures ShapeOf("^" + inner + "$") == Single(inner)
  {
    hide Tokens, LiteralText;
    var p := "^" + inner + "$";
    assert p[1..|p|-1] == inner && inner + "" == inner;
    LiteralTextTextual(Tokens(inner));
    NoParens(inner, "", 0);
    assert forall i :: 0 <= i <= |p| && "(?" <= p[i..] ==> p[i] == '(';
  }

  lemma GroupParens(body: string)
    requires '(' !in body && ')' !in body && Other !in Tokens(body)
    ensures Parens("(" + body + ")", 0) == [(0, '('), (|body| + 1, ')')]
  {
    hide Tokens;
    assert ("(" + body + ")")[1..] == body + ")";
    NoParens(body, ")", 1);
    assert Parens(")", |body| + 1) == [(|body| + 1, ')')];
  }

  lemma NoQuestion(p: string)
    requires '?' !in p
    ensures !Mentions(p, "(?")
  {
    assert forall i :: 0 <= i <= |p| && "(?" <= p[i..] ==> p[i + 1] == "(?"[1];
  }

  lemma Anchors(inner: string, p: string)
    requires p == "^" + inner + "$"
    ensures |p| >= 2 && p[0] == '^' && p[|p|-1] == '$' && p[1..|p|-1] == inner
  {
  }

  lemma GroupSlices(body: string, inner: string)
    requires inner == "(" + body + ")"
    ensures |inner| == |body| + 2 && inner[..0] == "" && inner[1..|body|+1] == body && inner[|body|+2..] == ""
  {
  }

  lemma GroupRead(p: string, inner: string, body: string)
    requires !Mentions(p, "(?") && |p| >= 2 && p[0] == '^' && p[|p|-1] == '$' && p[1..|p|-1] == inner
    requires |inner| == |body| + 2 && inner[..0] == "" && inner[1..|body|+1] == body && inner[|body|+2..] == ""
    requires Parens(inner, 0) == [(0, '('), (|body| + 1, ')')] && !Mentions(body, "\\|")
    requires Distribute("", Split(body, '|'), "").Some?
    ensures LiteralsOf(p) == Distribute("", Split(body, '|'), "") && ShapeOf(p) == Group("", Split(body, '|'), "")
  {
    assert Tokens("") == [] && LiteralText([]) == Some("");
    hide Tokens, LiteralText, Distribute, Split, Parens, Mentions;
  }

  lemma GroupLiterals(body: string)
    requires '(' !in body && ')' !in body && '?' !in body && Other !in Tokens(body) && !Mentions(body, "\\|")
    requires Distribute("", Split(body, '|'), "").Some?
    ensures LiteralsOf("^" + ("(" + body + ")") + "$") == Distribute("", Split(body, '|'), "")
    ensures ShapeOf("^" + ("(" + body + ")") + "$") == Group("", Split(body, '|'), "")
  {
    hide Tokens, LiteralText, Distribute, Split, Parens, Mentions, LiteralsOf, ShapeOf;
    var inner := "(" + body + ")";
    NoQuestion("^" + inner + "$");
    Anchors(inner, "^" + inner + "$");
    GroupParens(body);
    GroupSlices(body, inner);
    GroupRead("^" + inner + "$", inner, body);
  }

  /** The failing family in its smallest form: `^\<a$` matches "a", and the list says "<a". */
  lemma WordStartCounterexample(lib: RegexLib)
    requires lib.isWord('a')
    ensures LiteralsOf("^\\<a$") == Some(["<a"])
    ensures IsMatch(lib, "^\\<a$", "a") && !IsMatch(lib, "^\\<a$", "<a")
  {
    TokensOfExamples();
    TextOfExamples();
    ReadingOfExamples(lib);
    hide Tokens, LiteralText, LiteralsOf, IsMatch, Reading, ShapeOf;
    assert "^\\<a$" == "^" + "\\<a" + "$";
    SingleLiterals("\\<a");
    assert [WordStart, Lit('a')] in RunsOf(Single("\\<a"));
    PatternLanguage(lib, "^\\<a$", "a");
    PatternLanguage(lib, "^\\<a$", "<a");
  }

  lemma {:induction false} SplitFirst(word: string, rest: string)
    requires '|' !in word
    ensures Split(word, '|') == [word]
    ensures Split(word + "|" + rest, '|') == [word] + Split(rest, '|')
  {
    if word == "" {
      assert (word + "|" + rest)[1..] == rest;
    } else {
      assert (word + "|" + rest)[1..] == word[1..] + "|" + rest;
      SplitFirst(word[1..], rest);
      assert [word[0]] + word[1..] == word;
    }
  }

  lemma ExampleAlternatives()
    ensures Split("\\<a|<a|a", '|') == ["\\<a", "<a", "a"]
    ensures Distribute("", ["\\<a", "<a", "a"], "") == Some(["<a", "<a", "a"])
  {
    hide Split, Tokens, LiteralText;
    assert "\\<a|<a|a" == "\\<a" + "|" + "<a|a" && "<a|a" == "<a" + "|" + "a";
    SplitFirst("\\<a", "<a|a");
    SplitFirst("<a", "a");
    SplitFirst("a", "");
    TokensOfExamples();
    TextOfExamples();
    assert "" + "a" + "" == "a" && "" + "<a" + "" == "<a";
    assert ["<a", "a"][1..] == ["a"] && ["\\<a", "<a", "a"][1..] == ["<a", "a"];
    assert Distribute("", ["a"], "") == Some(["a"]);
    assert ["<a"] + ["a"] == ["<a", "a"] && ["<a"] + ["<a", "a"] == ["<a", "<a", "a"];
    assert Distribute("", ["<a", "a"], "") == Some(["<a", "a"]);
  }

  lemma {:induction false} JoinedTokens(word: string, rest: string)
    requires Other !in Tokens(word) && Other !in Tokens(rest)
    ensures Other !in Tokens(word + ("|" + rest))
  {
    hide Tokens;
    TokensConcat(word, "|" + rest);
    TokensStep('|', rest);
  }

  lemma ExampleTokens()
    ensures Other !in Tokens("\\<a|<a|a")
  {
    TokensOfExamples();
    hide Tokens;
    JoinedTokens("<a", "a");
    assert "<a" + ("|" + "a") == "<a|a";
    JoinedTokens("\\<a", "<a|a");
    assert "\\<a" + ("|" + "<a|a") == "\\<a|<a|a";
  }

  lemma ExampleAssertion(rest: string)
    ensures HasWordAssertion("^" + ("(" + ("\\<" + rest)))
  {
    assert ("\\<" + rest)[2..] == rest;
    assert Tokens("\\<" + rest)[0] == WordStart;
    hide Tokens;
    TokensStep('(', "\\<" + rest);
    TokensStep('^', "(" + ("\\<" + rest));
  }

  lemma EscapedBarAt(s: string, i: nat)
    requires i <= |s| && "\\|" <= s[i..]
    ensures i + 1 < |s| && s[i] == '\\' && s[i + 1] == '|'
  {
    assert s[i] == s[i..][0] == "\\|"[0];
    assert s[i + 1] == s[i..][1] == "\\|"[1];
  }

  lemma NoEscapedBar(s: string)
    requires forall i :: 0 <= i && i + 1 < |s| && s[i] == '\\' ==> s[i + 1] != '|'
    ensures !Mentions(s, "\\|")
  {
    if i: nat :| i <= |s| && "\\|" <= s[i..] {
      EscapedBarAt(s, i);
    }
  }

  lemma ExampleRuns(lib: RegexLib)
    requires lib.isWord('a')
    ensures RunsOf(Group("", ["\\<a", "<a", "a"], "")) == [[WordStart, Lit('a')], [Lit('<'), Lit('a')], [Lit('a')]]
  {
    TokensOfExamples();
    assert Tokens("") == [];
    hide Tokens;
    assert forall ts: seq<Token> :: [] + ts + [] == ts;
  }

  lemma ExamplePattern()
    ensures LiteralsOf("^(\\<a|<a|a)$") == Some(["<a", "<a", "a"])
    ensures ShapeOf("^(\\<a|<a|a)$") == Group("", ["\\<a", "<a", "a"], "")
  {
    hide Tokens, Split, Distribute, LiteralsOf, ShapeOf, Mentions, HasWordAssertion;
    var body := "\\<a|<a|a";
    ExampleAlternatives();
    ExampleTokens();
    NoEscapedBar(body);
    assert "^(\\<a|<a|a)$" == "^" + ("(" + body + ")") + "$";
    GroupLiterals(body);
  }

  /**
   Inside the group it depends: `^(\<a|<a|a)$` is exact all the same, because what its
   assertion stands for and what it is read as are both alternatives anyway.
   */
  lemma AssertionInsideGroupMayBeExact(lib: RegexLib, s: string)
    requires lib.isWord('a')
    ensures HasWordAssertion("^(\\<a|<a|a)$") && LiteralsOf("^(\\<a|<a|a)$") == Some(["<a", "<a", "a"])
    ensures IsMatch(lib, "^(\\<a|<a|a)$", s) <==> s in ["<a", "<a", "a"]
  {
    hide LiteralsOf, ShapeOf, RunsOf, Reading, Tokens, IsMatch, HasWordAssertion;
    ExampleAssertion("a|<a|a)$");
    assert "^" + ("(" + ("\\<" + "a|<a|a)$")) == "^(\\<a|<a|a)$";
    ExamplePattern();
    ExampleRuns(lib);
    ReadingOfExamples(lib);
    LiteralsExactIff(lib, "^(\\<a|<a|a)$");
  }
}
