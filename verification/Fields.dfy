/**
 What a condition says, in the terms of whoever writes rules: which values a field name reads in
 each version of the rules, and how the operators relate to each other.
 */
module Fields {
  import opened Wrappers
  import opened Json
  import opened Paths
  import opened Patterns
  import opened Engines
  import Envelopes

  // ----- Names -----

  /** The keys of these names, one below the other. */
  function KeysNamed(names: seq<string>): (path: Path)
    ensures |path| == |names|
  {
    seq(|names|, i requires 0 <= i < |names| => Key(names[i]))
  }

  lemma {:induction false} KeyPathIsKeys(names: seq<string>)
    ensures KeyPath(names) == KeysNamed(names)
  {
    if names != [] {
      KeyPathIsKeys(names[1..]);
      assert KeysNamed(names) == [Key(names[0])] + KeysNamed(names[1..]);
    }
  }

  /**
   Version 1: a field is read as the names between its dots, whatever characters they hold, a
   bracket or none; only its pattern can keep a condition from compiling.
   */
  lemma VersionOneReads(lib: RegexLib, names: seq<string>, op: Op, negate: bool, v: Value)
    requires names != [] && forall i :: 0 <= i < |names| ==> '.' !in names[i]
    ensures var c := Condition(Join(names, "."), op, negate);
            && (Compiles(lib, 1, c) <==> (op.Matches? ==> lib.compiles(op.pattern)))
            && (ConditionHolds(lib, 1, c, v) <==> Holds(lib, KeysNamed(names), op, negate, v))
  {
    hide Holds, KeyPath, Split, KeysNamed, Join;
    SplitJoin(names, '.');
    KeyPathIsKeys(names);
  }

  /** Every other version: a field is read as the path it spells, subscripts and wildcards included. */
  lemma OtherVersionsRead(lib: RegexLib, major: nat, groups: seq<Group>, op: Op, negate: bool, v: Value)
    requires major != 1 && groups != [] && forall i :: 0 <= i < |groups| ==> groups[i].Writable()
    ensures var c := Condition(Join(WrittenGroups(groups), "."), op, negate);
            && (Compiles(lib, major, c) <==> (op.Matches? ==> lib.compiles(op.pattern)))
            && (ConditionHolds(lib, major, c, v) <==> Holds(lib, Flatten(groups), op, negate, v))
  {
    hide Holds, Parsed, Flatten, WrittenGroups, Join, Group.Writable;
    WrittenPathsParse(groups);
  }

  lemma {:induction false} SubscriptsUnclosed(before: string, inner: string)
    requires ']' !in inner
    ensures Subscripts(before + "[" + inner) == None
    decreases |before|
  {
    hide Subscript;
    var rest := before + "[" + inner;
    var close := Find(rest, ']');
    if rest[0] == '[' && close < |rest| {
      assert close < |before|;
      assert rest[close + 1..] == before[close + 1..] + "[" + inner;
      SubscriptsUnclosed(before[close + 1..], inner);
    }
  }

  lemma PartUnclosed(before: string, inner: string)
    requires ']' !in inner
    ensures Part(before + "[" + inner) == None
  {
    hide Subscripts;
    var part := before + "[" + inner;
    var open := Find(part, '[');
    assert part[|before|] == '[';
    if open < |before| {
      assert part[open..] == before[open..] + "[" + inner;
      SubscriptsUnclosed(before[open..], inner);
    } else {
      assert part[open..] == "" + "[" + inner;
      SubscriptsUnclosed("", inner);
    }
  }

  /** The last part of a split text, with dotless text behind it. */
  lemma {:induction false} SplitLast(before: string, more: string) returns (head: string)
    requires '.' !in more
    ensures var parts := Split(before + more, '.'); parts[|parts| - 1] == head + more
  {
    if before == "" {
      assert before + more == more;
      SplitPlain(more, '.');
      head := "";
      assert "" + more == more;
    } else {
      head := SplitLast(before[1..], more);
      assert (before + more)[1..] == before[1..] + more;
      var rest := Split(before[1..] + more, '.');
      if before[0] != '.' && |rest| == 1 {
        head := [before[0]] + head;
      }
    }
  }

  lemma {:induction false} OnePartFails(parts: seq<string>, i: nat)
    requires i < |parts| && Part(parts[i]) == None
    ensures Parts(parts) == None
  {
    hide Part;
    if i > 0 {
      OnePartFails(parts[1..], i - 1);
    }
  }

  /** There a bracket that is never closed keeps the ruleset from compiling; in version 1 it is part of a key. */
  lemma UnclosedIsRefused(lib: RegexLib, major: nat, before: string, inner: string, op: Op, negate: bool)
    requires major != 1 && ']' !in inner && '.' !in inner
    ensures !Compiles(lib, major, Condition(before + "[" + inner, op, negate))
  {
    hide Part, Split, Parts;
    assert before + ("[" + inner) == before + "[" + inner;
    var head := SplitLast(before, "[" + inner);
    var parts := Split(before + "[" + inner, '.');
    assert head + ("[" + inner) == head + "[" + inner;
    PartUnclosed(head, inner);
    OnePartFails(parts, |parts| - 1);
  }

  lemma DigitsWritten()
    ensures Digits(0) == "0" && Digits(12) == "12"
  {
    assert Digits(1) == "1";
  }

  lemma OneGroup(name: string, subscript: Segment)
    requires !subscript.Key? && Group(name, [subscript]).Writable()
    ensures WrittenGroup(Group(name, [subscript])) == name + WrittenSubscript(subscript)
  {
    assert [subscript][1..] == [];
    assert WrittenSubscripts([subscript]) == WrittenSubscript(subscript) + "";
  }

  lemma TwoParts(a: string, b: string)
    ensures Join([a, b], ".") == a + "." + b
  {
    assert [a, b][1..] == [b];
  }

  lemma ArnWritten(first: Group, second: Group)
    requires first == Group("resources", [Index(0)]) && second == Group("ARN", []) && first.Writable() && second.Writable()
    ensures Join(WrittenGroups([first, second]), ".") == "resources[0].ARN"
  {
    hide Digits, Join, WrittenGroup, Group.Writable, WrittenSubscripts;
    DigitsWritten();
    assert WrittenGroup(first) == "resources[0]" by {
      OneGroup("resources", Index(0));
      assert "resources" + ("[" + "0" + "]") == "resources[0]";
    }
    assert WrittenGroup(second) == "ARN" by {
      NothingBehind(second);
    }
    assert WrittenGroups([first, second]) == ["resources[0]", "ARN"];
    TwoParts("resources[0]", "ARN");
    assert "resources[0]" + "." + "ARN" == "resources[0].ARN";
  }

  lemma NothingBehind(g: Group)
    requires g.Writable() && g.subscripts == []
    ensures WrittenGroup(g) == g.name
  {
    assert g.name + "" == g.name;
  }

  lemma ArnReads()
    ensures Parsed("resources[0].ARN") == Some([Key("resources"), Index(0), Key("ARN")])
  {
    hide Parsed, Digits, Join, WrittenGroups, WrittenGroup;
    var first, second := Group("resources", [Index(0)]), Group("ARN", []);
    ArnWritten(first, second);
    WrittenPathsParse([first, second]);
    assert [first, second][1..] == [second] && [second][1..] == [];
    assert Flatten([second]) == [Key("ARN")];
    assert Flatten([first, second]) == [Key("resources")] + [Index(0)] + [Key("ARN")];
    assert [Key("resources")] + [Index(0)] + [Key("ARN")] == [Key("resources"), Index(0), Key("ARN")];
  }

  lemma SubscriptsExamples()
    ensures Subscript("*") == Some(Wildcard) && Subscript("12") == Some(Index(12)) && Subscript("+7") == Some(Index(7))
    ensures Subscript("") == None && Subscript("-1") == None
  {
    assert Decimal("1") == 1 && Decimal("12") == 12 && "12"[..1] == "1" && "1"[..0] == "";
    assert "+7"[1..] == "7" && "7"[..0] == "" && Decimal("7") == 7;
  }

  /** A position is read if it is below 2^64. */
  lemma PositionsFit(n: nat)
    ensures Subscript(Digits(n)) == if n <= 18446744073709551615 then Some(Index(n)) else None
  {
    DecimalDigits(n);
    assert '0' <= Digits(n)[0] <= '9';
  }

  /** Written out: brackets hold a star, or a decimal position that may bear a plus but no minus. */
  lemma PathExamples()
    ensures Parsed("resources[0].ARN") == Some([Key("resources"), Index(0), Key("ARN")])
    ensures LiteralPath("resources[0].ARN") == [Key("resources[0]"), Key("ARN")]
    ensures Subscript("*") == Some(Wildcard) && Subscript("12") == Some(Index(12)) && Subscript("+7") == Some(Index(7))
    ensures Subscript("") == None && Subscript("-1") == None
  {
    hide Parsed, Split, Join, KeyPath, Subscript;
    ArnReads();
    TwoParts("resources[0]", "ARN");
    assert "resources[0]" + "." + "ARN" == "resources[0].ARN";
    var names := ["resources[0]", "ARN"];
    SplitJoin(names, '.');
    KeyPathIsKeys(names);
    SubscriptsExamples();
  }

  // ----- Values -----

  /** A record that holds one value at one place: objects of one key, arrays with nulls in front. */
  function Placed(path: Path, inner: Value): Value {
    if path == [] then inner
    else
      match path[0]
      case Key(name) => VObject(map[name := Placed(path[1..], inner)])
      case Index(i) => VArray(seq(i, _ => VNull) + [Placed(path[1..], inner)])
      case Wildcard => VArray([Placed(path[1..], inner)])
  }

  lemma {:induction false} NullHoldsNothing(path: Path)
    ensures Values(VNull, path) == []
  {
  }

  /** A scalar is read at its place, and at no other of the same length. */
  lemma {:induction false} PlacedReads(path: Path, inner: Value, q: Path)
    requires Fixed(path) && Fixed(q) && |q| == |path|
    ensures Values(Placed(path, inner), q) == if q == path then Values(inner, []) else []
  {
    if path != [] {
      assert path == [path[0]] + path[1..] && q == [q[0]] + q[1..];
      PlacedReads(path[1..], inner, q[1..]);
      if path[0].Index? {
        if q[0].Index? && q[0].i < path[0].i {
          NullHoldsNothing(q[1..]);
        }
      }
    }
  }

  /** What scalars are compared as: their text, or for strings what they spell; other values are no scalars. */
  lemma ScalarForms(path: Path, text: string, items: seq<Value>, fields: map<string, Value>)
    requires Fixed(path)
    ensures Values(Placed(path, VString(text)), path) == [text] && Values(Placed(path, VNumber(text)), path) == [text]
    ensures Values(Placed(path, VBool(true)), path) == ["true"] && Values(Placed(path, VBool(false)), path) == ["false"]
    ensures Values(Placed(path, VNull), path) == []
    ensures Values(Placed(path, VArray(items)), path) == [] && Values(Placed(path, VObject(fields)), path) == []
  {
    hide Placed, Fixed;
    PlacedReads(path, VString(text), path);
    PlacedReads(path, VNumber(text), path);
    PlacedReads(path, VBool(true), path);
    PlacedReads(path, VBool(false), path);
    PlacedReads(path, VNull, path);
    PlacedReads(path, VArray(items), path);
    PlacedReads(path, VObject(fields), path);
  }

  lemma {:induction false} AllHolds(items: seq<Value>, path: Path, s: string)
    ensures s in ValuesOfAll(items, path) <==> exists i: nat :: i < |items| && s in Values(items[i], path)
  {
    hide Values;
    if items != [] {
      AllHolds(items[1..], path, s);
      if i: nat :| i < |items[1..]| && s in Values(items[1..][i], path) {
        assert s in Values(items[i + 1], path);
      }
      if i: nat :| i < |items| && s in Values(items[i], path) {
        assert i > 0 ==> items[i] == items[1..][i - 1];
      }
    }
  }

  /** A wildcard reads whatever some position in its place reads. */
  lemma {:induction false} WildcardIsAnyIndex(v: Value, before: Path, after: Path, s: string)
    requires Fixed(before)
    ensures s in Values(v, before + [Wildcard] + after) <==> exists i: nat :: s in Values(v, before + [Index(i)] + after)
  {
    if before == [] {
      FrontOf([], Wildcard, after);
      forall i: nat ensures Values(v, [] + [Index(i)] + after) == if v.VArray? && i < |v.items| then Values(v.items[i], after) else [] {
        FrontOf([], Index(i), after);
      }
      if v.VArray? {
        AllHolds(v.items, after, s);
        if i: nat :| i < |v.items| && s in Values(v.items[i], after) {
          assert s in Values(v, [] + [Index(i)] + after);
        }
      }
    } else {
      Inside(v, before, Wildcard, after);
      forall i: nat
        ensures Values(v, before + [Index(i)] + after) ==
                match Child(v, before[0]) case None => [] case Some(w) => Values(w, before[1..] + [Index(i)] + after)
      {
        Inside(v, before, Index(i), after);
      }
      if Child(v, before[0]).Some? {
        WildcardIsAnyIndex(Child(v, before[0]).value, before[1..], after, s);
      }
    }
  }

  /** One step down. */
  function Child(v: Value, segment: Segment): Option<Value> {
    match (segment, v)
    case (Key(name), VObject(fields)) => if name in fields then Some(fields[name]) else None
    case (Index(i), VArray(items)) => if i < |items| then Some(items[i]) else None
    case _ => None
  }

  lemma FrontOf(before: Path, segment: Segment, after: Path)
    ensures before == [] ==> before + [segment] + after == [segment] + after && (before + [segment] + after)[1..] == after
    ensures before != [] ==> (before + [segment] + after)[1..] == before[1..] + [segment] + after
  {
  }

  lemma Inside(v: Value, before: Path, segment: Segment, after: Path)
    requires before != [] && Fixed(before)
    ensures Values(v, before + [segment] + after) ==
            match Child(v, before[0]) case None => [] case Some(w) => Values(w, before[1..] + [segment] + after)
  {
    FrontOf(before, segment, after);
    assert before[0] in before;
  }

  // ----- Operators -----

  /**
   What the operators say, by what they say of single strings: a list is any of its members, a
   pattern any of its matches, absence is equality with nothing, and negation the contrary of all
   of these.
   */
  lemma OperatorLaws(lib: RegexLib, path: Path, v: Value, pattern: string, members: set<string>, s: string)
    ensures Holds(lib, path, Equals(s), false, v) <==> s in Values(v, path)
    ensures Holds(lib, path, AnyOf(members), false, v) <==> exists t :: t in members && Holds(lib, path, Equals(t), false, v)
    ensures Holds(lib, path, Matches(pattern), false, v) <==>
            exists t :: IsMatch(lib, pattern, t) && Holds(lib, path, Equals(t), false, v)
    ensures Holds(lib, path, Absent(true), false, v) <==> forall t :: !Holds(lib, path, Equals(t), false, v)
    ensures Holds(lib, path, Absent(false), false, v) <==> exists t :: Holds(lib, path, Equals(t), false, v)
    ensures forall op :: Holds(lib, path, op, true, v) <==> !Holds(lib, path, op, false, v)
  {
    hide Values, IsMatch;
    forall t ensures Holds(lib, path, Equals(t), false, v) <==> t in Values(v, path) {
      if t in Values(v, path) {
        assert Accepts(lib, Equals(t), t);
      }
    }
    if Values(v, path) != [] {
      assert Holds(lib, path, Equals(Values(v, path)[0]), false, v);
    }
    if t :| t in Values(v, path) && t in members {
      assert Accepts(lib, AnyOf(members), t);
    }
    if t :| t in Values(v, path) && IsMatch(lib, pattern, t) {
      assert Accepts(lib, Matches(pattern), t);
    }
  }

  // ----- Rules -----

  /**
   A rule without conditions always holds, and one of more conditions when all of them do; an
   empty ruleset keeps everything, and a further rule decides only what no rule before it did.
   */
  lemma RulesetLaws(
      lib: RegexLib, major: nat, name: string, a: seq<Condition>, b: seq<Condition>, rules: seq<Rule>, rule: Rule,
      v: Value, d: Decision)
    ensures RuleHolds(lib, major, Rule(name, []), v)
    ensures RuleHolds(lib, major, Rule(name, a + b), v) <==> RuleHolds(lib, major, Rule(name, a), v) && RuleHolds(lib, major, Rule(name, b), v)
    ensures Decides(lib, RuleSet(major, []), v, d) <==> d == Keep
    ensures Decides(lib, RuleSet(major, rules + [rule]), v, d) <==>
            if !Decides(lib, RuleSet(major, rules), v, Keep) then Decides(lib, RuleSet(major, rules), v, d)
            else d == if RuleHolds(lib, major, rule, v) then Drop(|rules|) else Keep
  {
    hide ConditionHolds;
    assert forall c :: c in a + b <==> c in a || c in b;
    DecidesMore(lib, major, rules, rule, v, d);
  }

  lemma DecidesMore(lib: RegexLib, major: nat, rules: seq<Rule>, rule: Rule, v: Value, d: Decision)
    ensures Decides(lib, RuleSet(major, rules + [rule]), v, d) <==>
            if !Decides(lib, RuleSet(major, rules), v, Keep) then Decides(lib, RuleSet(major, rules), v, d)
            else d == if RuleHolds(lib, major, rule, v) then Drop(|rules|) else Keep
  {
    hide RuleHolds;
    var all := rules + [rule];
    assert all[|rules|] == rule && forall i :: 0 <= i < |rules| ==> all[i] == rules[i];
    assert Decides(lib, RuleSet(major, all), v, Keep) <==> Decides(lib, RuleSet(major, rules), v, Keep) && !RuleHolds(lib, major, rule, v);
  }

  /** What sits there does not decode. */
  predicate FailsAt(doc: Doc, path: seq<Envelopes.Step>) {
    Envelopes.BadAt(doc, path)
  }

  /** A record parses if nothing follows it and nothing anywhere in it fails to decode. */
  lemma ParsesIff(text: Text)
    ensures Parse(text).Some? <==> !text.trailing && forall path :: !FailsAt(text.root, path)
  {
    if Decodes(text.root) {
      forall path ensures !FailsAt(text.root, path) {
        Envelopes.NoBadLeaf(text.root, path);
      }
    } else {
      var path := Envelopes.BadLeaf(text.root);
      assert FailsAt(text.root, path);
    }
  }
}
