/**
 The fragment of the regular-expression language that rule patterns are indexed by.

 A pattern is read into tokens and parsed into a `Regex`, whose meaning is the usual one:
 which spans of a subject string it matches. A pattern outside the fragment is left to
 the regex library, as the uninterpreted predicate `RegexLib.other`.
 */
module Patterns {
  import opened Wrappers

  /** What the model takes from the regex library without looking inside. */
  datatype RegexLib = RegexLib(compiles: string -> bool, isWord: char -> bool, other: (string, string) -> bool)

  datatype Token = Lit(c: char) | WordStart | WordEnd | LParen | RParen | Bar | Caret | Dollar | Other

  predicate IsAsciiAlphanumeric(c: char) {
    '0' <= c <= '9' || 'A' <= c <= 'Z' || 'a' <= c <= 'z'
  }

  predicate IsMeta(c: char) {
    c in {'.', '*', '+', '?', '{', '}', '^', '$', '(', ')', '[', ']', '|'}
  }

  /** A character behind a backslash: `\<` and `\>` are word-boundary assertions. */
  function EscapedToken(c: char): Token {
    if IsAsciiAlphanumeric(c) then Other
    else if c == '<' then WordStart
    else if c == '>' then WordEnd
    else Lit(c)
  }

  function PlainToken(c: char): Token
    requires c != '\\'
  {
    match c
    case '(' => LParen
    case ')' => RParen
    case '|' => Bar
    case '^' => Caret
    case '$' => Dollar
    case _ => if IsMeta(c) then Other else Lit(c)
  }

  function Tokens(p: string): seq<Token> {
    if p == "" then []
    else if p[0] == '\\' then
      if |p| == 1 then [Other] else [EscapedToken(p[1])] + Tokens(p[2..])
    else [PlainToken(p[0])] + Tokens(p[1..])
  }

  datatype Regex =
    | Empty
    | Char(c: char)
    | TextStart
    | TextEnd
    | AtWordStart
    | AtWordEnd
    | Cat(first: Regex, second: Regex)
    | Alt(left: Regex, right: Regex)

  /** Alternatives separated by `|`, up to the end or an unmatched `)`. */
  function ParseAlt(ts: seq<Token>): (r: Option<(Regex, seq<Token>)>)
    ensures r.Some? ==> |r.value.1| <= |ts|
    decreases |ts|, 1
  {
    var (re, rest) :- ParseCat(ts);
    if rest != [] && rest[0] == Bar then
      var (re', rest') :- ParseAlt(rest[1..]);
      Some((Alt(re, re'), rest'))
    else Some((re, rest))
  }

  /** A run of atoms, up to the end, a `|` or an unmatched `)`. */
  function ParseCat(ts: seq<Token>): (r: Option<(Regex, seq<Token>)>)
    ensures r.Some? ==> |r.value.1| <= |ts|
    decreases |ts|, 0
  {
    if ts == [] || ts[0] == Bar || ts[0] == RParen then Some((Empty, ts))
    else if ts[0] == Other then None
    else if ts[0] == LParen then
      var (group, rest) :- ParseAlt(ts[1..]);
      if rest == [] || rest[0] != RParen then None
      else
        var (re, rest') :- ParseCat(rest[1..]);
        Some((Cat(group, re), rest'))
    else
      var (re, rest) :- ParseCat(ts[1..]);
      Some((Cat(Atom(ts[0]), re), rest))
  }

  function Atom(t: Token): Regex {
    match t
    case Lit(c) => Char(c)
    case WordStart => AtWordStart
    case WordEnd => AtWordEnd
    case Caret => TextStart
    case Dollar => TextEnd
    case _ => Empty
  }

  /** The pattern as a regular expression, or `None` outside the fragment. */
  function ParsePattern(p: string): Option<Regex> {
    var (re, rest) :- ParseAlt(Tokens(p));
    if rest == [] then Some(re) else None
  }

  predicate WordAt(lib: RegexLib, s: string, i: int) {
    0 <= i < |s| && lib.isWord(s[i])
  }

  /** Where a match of `re` that begins at position `i` of `s` can end. */
  function Ends(lib: RegexLib, re: Regex, s: string, i: nat): (ends: set<nat>)
    requires i <= |s|
    ensures forall j :: j in ends ==> i <= j <= |s|
  {
    match re
    case Empty => {i}
    case Char(c) => if i < |s| && s[i] == c then {i + 1} else {}
    case TextStart => if i == 0 then {i} else {}
    case TextEnd => if i == |s| then {i} else {}
    case AtWordStart => if !WordAt(lib, s, i - 1) && WordAt(lib, s, i) then {i} else {}
    case AtWordEnd => if WordAt(lib, s, i - 1) && !WordAt(lib, s, i) then {i} else {}
    case Cat(a, b) => set k, j | k in Ends(lib, a, s, i) && j in Ends(lib, b, s, k) :: j
    case Alt(a, b) => Ends(lib, a, s, i) + Ends(lib, b, s, i)
  }

  /** Unanchored search, as `Regex::is_match` does it. */
  predicate Found(lib: RegexLib, re: Regex, s: string) {
    exists i :: 0 <= i <= |s| && Ends(lib, re, s, i) != {}
  }

  predicate IsMatch(lib: RegexLib, p: string, s: string) {
    match ParsePattern(p)
    case Some(re) => Found(lib, re, s)
    case None => lib.other(p, s)
  }
}
