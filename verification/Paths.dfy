/** Field paths, and what they resolve to in a parsed record. */
module Paths {
  import opened Wrappers
  import opened Json

  datatype Segment = Key(name: string) | Index(i: nat) | Wildcard

  type Path = seq<Segment>

  /** Every scalar a path reaches, in visiting order. */
  function Values(v: Value, path: Path): seq<string>
    decreases |path|, 0
  {
    if path == [] then
      match ScalarText(v) case Some(s) => [s] case None => []
    else
      match (path[0], v)
      case (Key(name), VObject(fields)) => if name in fields then Values(fields[name], path[1..]) else []
      case (Index(i), VArray(items)) => if i < |items| then Values(items[i], path[1..]) else []
      case (Wildcard, VArray(items)) => ValuesOfAll(items, path[1..])
      case _ => []
  }

  function ValuesOfAll(items: seq<Value>, path: Path): seq<string>
    decreases |path|, 1 + |items|
  {
    if items == [] then [] else Values(items[0], path) + ValuesOfAll(items[1..], path)
  }

  /** Existential visit: stops at the first scalar `f` accepts. */
  predicate Walk(v: Value, path: Path, f: string -> bool)
    decreases |path|, 0
  {
    if path == [] then
      match ScalarText(v) case Some(s) => f(s) case None => false
    else
      match (path[0], v)
      case (Key(name), VObject(fields)) => name in fields && Walk(fields[name], path[1..], f)
      case (Index(i), VArray(items)) => i < |items| && Walk(items[i], path[1..], f)
      case (Wildcard, VArray(items)) => WalkAny(items, path[1..], f)
      case _ => false
  }

  predicate WalkAny(items: seq<Value>, path: Path, f: string -> bool)
    decreases |path|, 1 + |items|
  {
    items != [] && (Walk(items[0], path, f) || WalkAny(items[1..], path, f))
  }

  lemma {:induction false} WalkIsExistential(v: Value, path: Path, f: string -> bool)
    ensures Walk(v, path, f) <==> exists s :: s in Values(v, path) && f(s)
    decreases |path|, 0
  {
    if path != [] {
      match (path[0], v)
      case (Key(name), VObject(fields)) =>
        if name in fields {
          WalkIsExistential(fields[name], path[1..], f);
        }
      case (Index(i), VArray(items)) =>
        if i < |items| {
          WalkIsExistential(items[i], path[1..], f);
        }
      case (Wildcard, VArray(items)) =>
        WalkAnyIsExistential(items, path[1..], f);
      case _ =>
    }
  }

  lemma {:induction false} WalkAnyIsExistential(items: seq<Value>, path: Path, f: string -> bool)
    ensures WalkAny(items, path, f) <==> exists s :: s in ValuesOfAll(items, path) && f(s)
    decreases |path|, 1 + |items|
  {
    if items != [] {
      WalkIsExistential(items[0], path, f);
      WalkAnyIsExistential(items[1..], path, f);
    }
  }

  predicate Fixed(path: Path) {
    Wildcard !in path
  }

  /** The one scalar a wildcard-free path can reach. */
  function Slot(v: Value, path: Path): Option<string> {
    if Values(v, path) == [] then None else Some(Values(v, path)[0])
  }

  lemma {:induction false} FixedReachesAtMostOne(v: Value, path: Path)
    requires Fixed(path)
    ensures |Values(v, path)| <= 1
  {
    if path != [] {
      assert path[0] != Wildcard;
      match (path[0], v)
      case (Key(name), VObject(fields)) =>
        if name in fields {
          FixedReachesAtMostOne(fields[name], path[1..]);
        }
      case (Index(i), VArray(items)) =>
        if i < |items| {
          FixedReachesAtMostOne(items[i], path[1..]);
        }
      case _ =>
    }
  }

  /** A wildcard-free visit asks its question of the slot alone. */
  lemma FixedWalk(v: Value, path: Path, f: string -> bool)
    requires Fixed(path)
    ensures Walk(v, path, f) <==> Slot(v, path).Some? && f(Slot(v, path).value)
  {
    WalkIsExistential(v, path, f);
    FixedReachesAtMostOne(v, path);
  }

  // ----- Dotted names -----

  /** A version 1 field name: every dotted part a literal key. */
  function LiteralPath(name: string): Path {
    KeyPath(Split(name, '.'))
  }

  function KeyPath(parts: seq<string>): (path: Path)
    ensures Fixed(path)
  {
    if parts == [] then [] else [Key(parts[0])] + KeyPath(parts[1..])
  }

  method Resolve(v: Value, name: string) returns (r: Option<string>)
    ensures r == Slot(v, LiteralPath(name))
  {
    var parts := Split(name, '.');
    var current := v;
    assert parts[0..] == parts;
    for n := 0 to |parts|
      invariant Values(v, LiteralPath(name)) == Values(current, KeyPath(parts[n..]))
    {
      var rest := parts[n..];
      assert rest[0] == parts[n] && rest[1..] == parts[n+1..];
      assert KeyPath(rest)[1..] == KeyPath(parts[n+1..]);
      match current
      case VObject(fields) =>
        if parts[n] in fields {
          current := fields[parts[n]];
        } else {
          return None;
        }
      case _ =>
        return None;
    }
    r := ScalarText(current);
  }

  // ----- Parsing -----

  function DigitValue(c: char): nat
    requires '0' <= c <= '9'
  {
    c as int - '0' as int
  }

  predicate AllDigits(s: string) {
    forall i :: 0 <= i < |s| ==> '0' <= s[i] <= '9'
  }

  function Decimal(digits: string): nat
    requires AllDigits(digits)
  {
    if digits == "" then 0 else Decimal(digits[..|digits| - 1]) * 10 + DigitValue(digits[|digits| - 1])
  }

  const USIZE_LIMIT: nat := 0x1_0000_0000_0000_0000

  /** `str::parse::<usize>`: an optional `+`, then digits that fit 64 bits. */
  function ParseUsize(s: string): Option<nat> {
    var digits := if |s| > 1 && s[0] == '+' then s[1..] else s;
    if digits == "" || !AllDigits(digits) || Decimal(digits) >= USIZE_LIMIT then None else Some(Decimal(digits))
  }

  /** Position of the first `c`, or the length when there is none. */
  function Find(s: string, c: char): (i: nat)
    ensures i <= |s|
    ensures forall j :: 0 <= j < i ==> s[j] != c
    ensures i < |s| ==> s[i] == c
  {
    if s == "" || s[0] == c then 0 else 1 + Find(s[1..], c)
  }

  function Subscript(inner: string): Option<Segment> {
    if inner == "*" then Some(Wildcard)
    else
      var i :- ParseUsize(inner);
      Some(Index(i))
  }

  function Subscripts(rest: string): Option<Path> {
    if rest == "" then Some([])
    else if rest[0] != '[' then None
    else
      var close := Find(rest, ']');
      if close == |rest| then None
      else
        var segment :- Subscript(rest[1..close]);
        var more :- Subscripts(rest[close+1..]);
        Some([segment] + more)
  }

  function Part(part: string): Option<Path> {
    var open := Find(part, '[');
    if open == 0 then None
    else
      var subscripts :- Subscripts(part[open..]);
      Some([Key(part[..open])] + subscripts)
  }

  function Parts(parts: seq<string>): Option<Path> {
    if parts == [] then Some([])
    else
      var head :- Part(parts[0]);
      var tail :- Parts(parts[1..]);
      Some(head + tail)
  }

  function Parsed(s: string): Option<Path> {
    if s == "" then None else Parts(Split(s, '.'))
  }

  /** A path parsed so far, with whatever the rest of the text adds. */
  function Append(segments: Path, more: Option<Path>): Option<Path> {
    match more case Some(path) => Some(segments + path) case None => None
  }

  lemma AppendAppend(a: Path, b: Path, more: Option<Path>)
    ensures Append(a, Append(b, more)) == Append(a + b, more)
  {
    if more.Some? {
      assert a + (b + more.value) == a + b + more.value;
    }
  }

  lemma AppendEmpty(a: Path, more: Option<Path>)
    ensures Append(a, Some([])) == Some(a)
    ensures Append([], more) == more
  {
    assert a + [] == a;
    if more.Some? {
      assert [] + more.value == more.value;
    }
  }

  /** Array subscripts behind a name: `[0][*]`. */
  method ParseSubscripts(text: string) returns (r: Option<Path>)
    ensures r == Subscripts(text)
  {
    var segments: Path, rest := [], text;
    AppendEmpty([], Subscripts(text));
    while rest != ""
      invariant Subscripts(text) == Append(segments, Subscripts(rest))
      decreases |rest|
    {
      if rest[0] != '[' {
        return None;
      }
      var close := Find(rest, ']');
      if close == |rest| {
        return None;
      }
      var segment := Subscript(rest[1..close]);
      if segment.None? {
        return None;
      }
      AppendAppend(segments, [segment.value], Subscripts(rest[close+1..]));
      segments, rest := segments + [segment.value], rest[close+1..];
    }
    AppendEmpty(segments, None);
    r := Some(segments);
  }

  method ParsePath(s: string) returns (r: Option<Path>)
    ensures r == Parsed(s)
  {
    if s == "" {
      return None;
    }
    var parts := Split(s, '.');
    var segments: Path := [];
    assert parts[0..] == parts;
    AppendEmpty([], Parts(parts));
    for n := 0 to |parts|
      invariant Parts(parts) == Append(segments, Parts(parts[n..]))
    {
      assert parts[n..][0] == parts[n] && parts[n..][1..] == parts[n+1..];
      var open := Find(parts[n], '[');
      if open == 0 {
        return None;
      }
      var subscripts := ParseSubscripts(parts[n][open..]);
      if subscripts.None? {
        return None;
      }
      AppendAppend(segments, [Key(parts[n][..open])] + subscripts.value, Parts(parts[n+1..]));
      segments := segments + ([Key(parts[n][..open])] + subscripts.value);
    }
    AppendEmpty(segments, None);
    r := Some(segments);
  }

  lemma {:induction false} SplitPlain(s: string, sep: char)
    requires sep !in s
    ensures Split(s, sep) == [s]
  {
    if s != "" {
      SplitPlain(s[1..], sep);
      assert [s[0]] + s[1..] == s;
    }
  }

  /** A name without dots or brackets means the same single key in both rule versions. */
  lemma PlainName(s: string)
    requires s != "" && '.' !in s && '[' !in s
    ensures Parsed(s) == Some([Key(s)]) && LiteralPath(s) == [Key(s)]
  {
    SplitPlain(s, '.');
    assert Find(s, '[') == |s|;
    assert s[..|s|] == s && s[|s|..] == "";
    assert [Key(s)] + [] == [Key(s)];
    assert Part(s) == Some([Key(s)]);
    var one := [s];
    assert one[1..] == [];
    assert Parts(one[1..]) == Some([]) && KeyPath(one[1..]) == [];
    assert Parts(one) == Some([Key(s)] + []) && KeyPath(one) == [Key(s)] + [];
  }

  // ----- Writing a path out -----

  /** One dot-separated part of a path: a name, and the subscripts behind it. */
  datatype Group = Group(name: string, subscripts: Path) {
    /** What the syntax can express: a name without dots or opening brackets, subscripts within 64 bits. */
    predicate Writable() {
      && name != "" && '.' !in name && '[' !in name
      && forall i :: 0 <= i < |subscripts| ==> !subscripts[i].Key? && (subscripts[i].Index? ==> subscripts[i].i < USIZE_LIMIT)
    }
  }

  function Digits(n: nat): (s: string)
    ensures s != "" && AllDigits(s)
  {
    var digit := [('0' as int + n % 10) as char];
    if n < 10 then digit else Digits(n / 10) + digit
  }

  function WrittenSubscript(segment: Segment): string
    requires !segment.Key?
  {
    if segment.Wildcard? then "[*]" else "[" + Digits(segment.i) + "]"
  }

  function WrittenSubscripts(subscripts: Path): string
    requires forall i :: 0 <= i < |subscripts| ==> !subscripts[i].Key?
  {
    if subscripts == [] then "" else WrittenSubscript(subscripts[0]) + WrittenSubscripts(subscripts[1..])
  }

  function WrittenGroup(g: Group): string
    requires g.Writable()
  {
    g.name + WrittenSubscripts(g.subscripts)
  }

  function WrittenGroups(groups: seq<Group>): (parts: seq<string>)
    requires forall i :: 0 <= i < |groups| ==> groups[i].Writable()
    ensures |parts| == |groups|
  {
    seq(|groups|, i requires 0 <= i < |groups| => WrittenGroup(groups[i]))
  }

  function Flatten(groups: seq<Group>): Path {
    if groups == [] then [] else [Key(groups[0].name)] + groups[0].subscripts + Flatten(groups[1..])
  }

  lemma {:induction false} DecimalDigits(n: nat)
    ensures Decimal(Digits(n)) == n
  {
    var s := Digits(n);
    if n >= 10 {
      DecimalDigits(n / 10);
      assert s[..|s| - 1] == Digits(n / 10);
    }
  }

  lemma {:induction false} FindBehind(a: string, b: string, c: char)
    requires c !in a && (b == "" || b[0] == c)
    ensures Find(a + b, c) == |a|
  {
    if a == "" {
      assert a + b == b;
    } else {
      assert (a + b)[1..] == a[1..] + b;
      FindBehind(a[1..], b, c);
    }
  }

  lemma SubscriptReads(segment: Segment, inner: string)
    requires !segment.Key? && (segment.Index? ==> segment.i < USIZE_LIMIT)
    requires inner == if segment.Wildcard? then "*" else Digits(segment.i)
    ensures Subscript(inner) == Some(segment) && ']' !in inner && '.' !in inner
  {
    if segment.Index? {
      DecimalDigits(segment.i);
      assert '0' <= inner[0] <= '9';
    }
  }

  /** A closed subscript in front of others is read off first. */
  lemma FrontSubscript(inner: string, rest: string)
    requires ']' !in inner && Subscript(inner).Some? && Subscripts(rest).Some?
    ensures Subscripts("[" + inner + ("]" + rest)) == Some([Subscript(inner).value] + Subscripts(rest).value)
  {
    hide Subscript;
    var s := "[" + inner + ("]" + rest);
    FindBehind("[" + inner, "]" + rest, ']');
    assert s[0] == '[' && s[1..|inner| + 1] == inner && s[|inner| + 2..] == rest;
  }

  lemma {:induction false} SubscriptsRead(subscripts: Path)
    requires forall i :: 0 <= i < |subscripts| ==> !subscripts[i].Key? && (subscripts[i].Index? ==> subscripts[i].i < USIZE_LIMIT)
    ensures Subscripts(WrittenSubscripts(subscripts)) == Some(subscripts) && '.' !in WrittenSubscripts(subscripts)
    ensures subscripts != [] ==> WrittenSubscripts(subscripts) != "" && WrittenSubscripts(subscripts)[0] == '['
  {
    hide Subscript, Find, Digits, Subscripts, WrittenSubscripts;
    NothingWritten();
    if subscripts == [] {
      NoSubscripts();
    } else {
      var segment, rest := subscripts[0], WrittenSubscripts(subscripts[1..]);
      var inner := if segment.Wildcard? then "*" else Digits(segment.i);
      SubscriptReads(segment, inner);
      SubscriptsRead(subscripts[1..]);
      FrontSubscript(inner, rest);
      WrittenFront(subscripts, inner);
      NoDots(inner, rest);
      assert [segment] + subscripts[1..] == subscripts;
    }
  }

  lemma WrittenFront(subscripts: Path, inner: string)
    requires subscripts != [] && forall i :: 0 <= i < |subscripts| ==> !subscripts[i].Key?
    requires inner == if subscripts[0].Wildcard? then "*" else Digits(subscripts[0].i)
    ensures WrittenSubscripts(subscripts) == "[" + inner + ("]" + WrittenSubscripts(subscripts[1..]))
  {
    hide Digits, WrittenSubscripts;
    OneWritten(subscripts[0], inner);
    NextWritten(subscripts);
    Assoc("[", inner, "]", WrittenSubscripts(subscripts[1..]));
  }

  lemma OneWritten(segment: Segment, inner: string)
    requires !segment.Key? && inner == if segment.Wildcard? then "*" else Digits(segment.i)
    ensures WrittenSubscript(segment) == "[" + inner + "]"
  {
    hide Digits;
    if segment.Wildcard? {
      assert "[*]" == "[" + "*" + "]";
    }
  }

  lemma NextWritten(subscripts: Path)
    requires subscripts != [] && forall i :: 0 <= i < |subscripts| ==> !subscripts[i].Key?
    ensures WrittenSubscripts(subscripts) == WrittenSubscript(subscripts[0]) + WrittenSubscripts(subscripts[1..])
  {
    hide WrittenSubscript;
  }

  lemma Assoc(a: string, b: string, c: string, d: string)
    ensures a + b + c + d == a + b + (c + d)
  {
  }

  lemma NoDots(inner: string, rest: string)
    requires '.' !in inner && '.' !in rest
    ensures '.' !in "[" + inner + ("]" + rest)
  {
  }

  lemma NoSubscripts()
    ensures Subscripts("") == Some([])
  {
  }

  lemma NothingWritten()
    ensures WrittenSubscripts([]) == ""
  {
  }

  lemma GroupReads(g: Group)
    requires g.Writable()
    ensures Part(WrittenGroup(g)) == Some([Key(g.name)] + g.subscripts) && '.' !in WrittenGroup(g)
  {
    SubscriptsRead(g.subscripts);
    FindBehind(g.name, WrittenSubscripts(g.subscripts), '[');
    var s := WrittenGroup(g);
    assert s[..|g.name|] == g.name && s[|g.name|..] == WrittenSubscripts(g.subscripts);
  }

  lemma {:induction false} SplitBehind(a: string, b: string, sep: char)
    requires sep !in a
    ensures Split(a + [sep] + b, sep) == [a] + Split(b, sep)
  {
    if a == "" {
      assert a + [sep] + b == [sep] + b;
      assert ([sep] + b)[1..] == b;
    } else {
      assert (a + [sep] + b)[1..] == a[1..] + [sep] + b;
      SplitBehind(a[1..], b, sep);
      assert [a[0]] + a[1..] == a;
    }
  }

  lemma {:induction false} SplitJoin(pieces: seq<string>, sep: char)
    requires pieces != [] && forall i :: 0 <= i < |pieces| ==> sep !in pieces[i]
    ensures Split(Join(pieces, [sep]), sep) == pieces
  {
    if |pieces| == 1 {
      SplitPlain(pieces[0], sep);
    } else {
      SplitBehind(pieces[0], Join(pieces[1..], [sep]), sep);
      SplitJoin(pieces[1..], sep);
    }
  }

  lemma {:induction false} PartsRead(groups: seq<Group>)
    requires forall i :: 0 <= i < |groups| ==> groups[i].Writable()
    ensures Parts(WrittenGroups(groups)) == Some(Flatten(groups))
    ensures forall i :: 0 <= i < |groups| ==> '.' !in WrittenGroups(groups)[i]
  {
    hide Part, WrittenGroup, Find;
    if groups != [] {
      GroupReads(groups[0]);
      PartsRead(groups[1..]);
      var parts := WrittenGroups(groups);
      assert parts[1..] == WrittenGroups(groups[1..]);
      assert Parts(parts) == Some([Key(groups[0].name)] + groups[0].subscripts + Flatten(groups[1..]));
      forall i | 0 <= i < |groups| ensures '.' !in parts[i] {
        assert i > 0 ==> parts[i] == parts[1..][i - 1];
      }
    }
  }

  /** Every path the syntax can express, written out with dots and subscripts, parses back to itself. */
  lemma WrittenPathsParse(groups: seq<Group>)
    requires groups != [] && forall i :: 0 <= i < |groups| ==> groups[i].Writable()
    ensures Parsed(Join(WrittenGroups(groups), ".")) == Some(Flatten(groups))
  {
    PartsRead(groups);
    SplitJoin(WrittenGroups(groups), '.');
    JoinNonempty(WrittenGroups(groups), ".");
  }

  lemma JoinNonempty(pieces: seq<string>, sep: string)
    requires pieces != [] && pieces[0] != ""
    ensures Join(pieces, sep) != ""
  {
  }
}
