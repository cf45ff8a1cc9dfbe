/**
 Rule evaluation: a ruleset is compiled once, then every record is evaluated against it,
 in one of three ways that must agree.

 The meaning of a ruleset is given on the source rules (`RuleHolds`, `Decides`): AND
 within a rule, OR across rules, the first matching rule named.
 */
module Engines {
  import opened Wrappers
  import opened Json
  import opened Paths
  import opened Patterns
  import opened Literals
  import opened RuleIndex
  import opened Projection

  datatype Op = Matches(pattern: string) | Equals(s: string) | AnyOf(members: set<string>) | Absent(wanted: bool)

  datatype Condition = Condition(field: string, op: Op, negate: bool)

  datatype Rule = Rule(name: string, conditions: seq<Condition>)

  datatype RuleSet = RuleSet(major: nat, rules: seq<Rule>)

  datatype Decision = Keep | Drop(ruleIdx: nat)

  // ----- What a ruleset means -----

  function FieldPath(major: nat, field: string): Option<Path> {
    if major == 1 then Some(LiteralPath(field)) else Parsed(field)
  }

  predicate Compiles(lib: RegexLib, major: nat, c: Condition) {
    (c.op.Matches? ==> lib.compiles(c.op.pattern)) && FieldPath(major, c.field).Some?
  }

  predicate Accepts(lib: RegexLib, op: Op, s: string)
    requires !op.Absent?
  {
    match op
    case Matches(pattern) => IsMatch(lib, pattern, s)
    case Equals(want) => s == want
    case AnyOf(members) => s in members
  }

  /**
   A condition whose path reaches nothing is false for every operator but `Absent(true)`;
   `negate` inverts the whole clause, that rule included.
   */
  ghost predicate Holds(lib: RegexLib, path: Path, op: Op, negate: bool, v: Value) {
    var holds :=
      if op.Absent? then (Values(v, path) == []) == op.wanted
      else exists s :: s in Values(v, path) && Accepts(lib, op, s);
    holds != negate
  }

  ghost predicate ConditionHolds(lib: RegexLib, major: nat, c: Condition, v: Value) {
    FieldPath(major, c.field).Some? && Holds(lib, FieldPath(major, c.field).value, c.op, c.negate, v)
  }

  ghost predicate RuleHolds(lib: RegexLib, major: nat, rule: Rule, v: Value) {
    forall c :: c in rule.conditions ==> ConditionHolds(lib, major, c, v)
  }

  /** First match wins: the decision names the first rule that holds, or keeps the record. */
  ghost predicate Decides(lib: RegexLib, ruleSet: RuleSet, v: Value, d: Decision) {
    match d
    case Keep => forall i :: 0 <= i < |ruleSet.rules| ==> !RuleHolds(lib, ruleSet.major, ruleSet.rules[i], v)
    case Drop(n) =>
      n < |ruleSet.rules| && RuleHolds(lib, ruleSet.major, ruleSet.rules[n], v) &&
      forall i :: 0 <= i < n ==> !RuleHolds(lib, ruleSet.major, ruleSet.rules[i], v)
  }

  // ----- Compiled rules -----

  datatype CompiledMatch = CompiledMatch(path: Path, op: Op, negate: bool, pathId: nat)

  datatype CompiledRule = CompiledRule(name: string, matches: seq<CompiledMatch>)

  predicate MatchFires(lib: RegexLib, m: CompiledMatch, record: Value) {
    var holds :=
      match m.op
      case Matches(pattern) => Walk(record, m.path, s => IsMatch(lib, pattern, s))
      case Equals(want) => Walk(record, m.path, s => s == want)
      case AnyOf(members) => Walk(record, m.path, s => s in members)
      case Absent(wanted) => Walk(record, m.path, s => true) != wanted;
    holds != m.negate
  }

  predicate MatchFiresProjected(lib: RegexLib, m: CompiledMatch, slots: seq<Option<string>>)
    requires m.pathId < |slots|
  {
    var value := slots[m.pathId];
    var holds :=
      match m.op
      case Matches(pattern) => value.Some? && IsMatch(lib, pattern, value.value)
      case Equals(want) => value == Some(want)
      case AnyOf(members) => value.Some? && value.value in members
      case Absent(wanted) => value.Some? != wanted;
    holds != m.negate
  }

  predicate AllFire(lib: RegexLib, matches: seq<CompiledMatch>, record: Value) {
    forall i :: 0 <= i < |matches| ==> MatchFires(lib, matches[i], record)
  }

  /** The code's visit-with-a-callback form of a condition is its meaning. */
  lemma MatchFiresHolds(lib: RegexLib, m: CompiledMatch, v: Value)
    ensures MatchFires(lib, m, v) <==> Holds(lib, m.path, m.op, m.negate, v)
  {
    match m.op
    case Matches(pattern) => WalkIsExistential(v, m.path, s => IsMatch(lib, pattern, s));
    case Equals(want) => WalkIsExistential(v, m.path, s => s == want);
    case AnyOf(members) => WalkIsExistential(v, m.path, s => s in members);
    case Absent(_) =>
      WalkIsExistential(v, m.path, s => true);
      if Values(v, m.path) != [] {
        assert Values(v, m.path)[0] in Values(v, m.path);
      }
  }

  /** On a wildcard-free path the slot answers as the record does. */
  lemma ProjectedAgrees(lib: RegexLib, m: CompiledMatch, v: Value, slots: seq<Option<string>>)
    requires Fixed(m.path) && m.pathId < |slots| && slots[m.pathId] == Slot(v, m.path)
    ensures MatchFiresProjected(lib, m, slots) <==> MatchFires(lib, m, v)
  {
    match m.op
    case Matches(pattern) => FixedWalk(v, m.path, s => IsMatch(lib, pattern, s));
    case Equals(want) => FixedWalk(v, m.path, s => s == want);
    case AnyOf(members) => FixedWalk(v, m.path, s => s in members);
    case Absent(_) => FixedWalk(v, m.path, s => true);
  }

  predicate AllFireProjected(lib: RegexLib, matches: seq<CompiledMatch>, slots: seq<Option<string>>)
    requires forall i :: 0 <= i < |matches| ==> matches[i].pathId < |slots|
  {
    forall i :: 0 <= i < |matches| ==> MatchFiresProjected(lib, matches[i], slots)
  }

  ghost predicate Interned(matches: seq<CompiledMatch>, paths: seq<Path>) {
    forall i :: 0 <= i < |matches| ==> matches[i].pathId < |paths| && paths[matches[i].pathId] == matches[i].path
  }

  lemma AllFireProjectedAgrees(
      lib: RegexLib, matches: seq<CompiledMatch>, paths: seq<Path>, v: Value, slots: seq<Option<string>>)
    requires Interned(matches, paths) && |slots| == |paths|
    requires forall id :: 0 <= id < |paths| ==> Fixed(paths[id]) && slots[id] == Slot(v, paths[id])
    ensures AllFireProjected(lib, matches, slots) <==> AllFire(lib, matches, v)
  {
    hide MatchFires, MatchFiresProjected, Slot, Fixed;
    forall i | 0 <= i < |matches|
      ensures MatchFiresProjected(lib, matches[i], slots) <==> MatchFires(lib, matches[i], v)
    {
      ProjectedAgrees(lib, matches[i], v, slots);
    }
  }

  // ----- Index keys -----

  predicate OnField(m: CompiledMatch, field: string) {
    !m.negate && m.path == [Key(field)]
  }

  /** The condition a rule is indexed by: the first positive one on exactly this field. */
  function KeyMatch(matches: seq<CompiledMatch>, field: string): (m: Option<CompiledMatch>)
    ensures m.Some? ==> m.value in matches && OnField(m.value, field)
  {
    if matches == [] then None
    else if OnField(matches[0], field) then Some(matches[0])
    else KeyMatch(matches[1..], field)
  }

  /** Strings in the order of their characters. */
  predicate Before(a: string, b: string) {
    b != "" && (a == "" || a[0] < b[0] || (a[0] == b[0] && Before(a[1..], b[1..])))
  }

  lemma {:induction false} BeforeTotal(a: string, b: string)
    requires a != b
    ensures Before(a, b) || Before(b, a)
  {
    if a != "" && b != "" && a[0] == b[0] {
      assert a == [a[0]] + a[1..] && b == [b[0]] + b[1..];
      BeforeTotal(a[1..], b[1..]);
    }
  }

  lemma {:induction false} BeforeTransitive(a: string, b: string, c: string)
    requires Before(a, b) && Before(b, c)
    ensures Before(a, c)
  {
    if a != "" && a[0] == b[0] == c[0] {
      BeforeTransitive(a[1..], b[1..], c[1..]);
    }
  }

  predicate Ascending(v: seq<string>) {
    forall i, j :: 0 <= i < j < |v| ==> Before(v[i], v[j])
  }

  method InsertInOrder(v: seq<string>, s: string) returns (w: seq<string>)
    requires Ascending(v) && s !in v
    ensures Ascending(w) && forall x :: x in w <==> x in v || x == s
  {
    hide Before;
    var k := 0;
    while k < |v| && Before(v[k], s)
      invariant k <= |v| && forall j :: 0 <= j < k ==> Before(v[j], s)
    {
      k := k + 1;
    }
    forall j | k <= j < |v| ensures Before(s, v[j]) {
      BeforeTotal(v[k], s);
      if k < j {
        BeforeTransitive(s, v[k], v[j]);
      }
    }
    w := v[..k] + [s] + v[k..];
    assert v == v[..k] + v[k..];
  }

  /** What that condition is reduced to. */
  ghost predicate ReducesTo(matches: seq<CompiledMatch>, field: string, key: Option<seq<string>>) {
    match KeyMatch(matches, field)
    case None => key.None?
    case Some(m) =>
      match m.op
      case Matches(pattern) => key == LiteralsOf(pattern)
      case Equals(s) => key == Some([s])
      case AnyOf(members) => key.Some? && Ascending(key.value) && forall s :: s in key.value <==> s in members
      case Absent(_) => key.None?
  }

  method IndexLiterals(matches: seq<CompiledMatch>, field: string) returns (key: Option<seq<string>>)
    ensures ReducesTo(matches, field, key)
  {
    var i := 0;
    assert matches[0..] == matches;
    while i < |matches| && !OnField(matches[i], field)
      invariant 0 <= i <= |matches|
      invariant KeyMatch(matches, field) == KeyMatch(matches[i..], field)
    {
      assert matches[i..][1..] == matches[i+1..];
      i := i + 1;
    }
    if i == |matches| {
      return None;
    }
    match matches[i].op
    case Matches(pattern) =>
      key := ExtractLiterals(pattern);
    case Equals(s) =>
      key := Some([s]);
    case AnyOf(members) =>
      var listed: seq<string>, todo := [], members;
      while todo != {}
        invariant todo <= members && Ascending(listed) && forall s :: s in listed <==> s in members && s !in todo
      {
        var s :| s in todo;
        listed := InsertInOrder(listed, s);
        todo := todo - {s};
      }
      key := Some(listed);
    case Absent(_) =>
      key := None;
  }

  ghost predicate KeysReduce(matches: seq<CompiledMatch>, keys: RuleKeys) {
    ReducesTo(matches, "eventSource", keys.eventSource) && ReducesTo(matches, "eventName", keys.eventName)
  }

  method KeysOf(rules: seq<CompiledRule>) returns (keys: seq<RuleKeys>)
    ensures |keys| == |rules|
    ensures forall i :: 0 <= i < |rules| ==> KeysReduce(rules[i].matches, keys[i])
  {
    hide ReducesTo;
    keys := [];
    for i := 0 to |rules|
      invariant |keys| == i
      invariant forall k :: 0 <= k < i ==> KeysReduce(rules[k].matches, keys[k])
    {
      var source := IndexLiterals(rules[i].matches, "eventSource");
      var name := IndexLiterals(rules[i].matches, "eventName");
      keys := keys + [RuleKeys(source, name)];
    }
  }

  /** No match of the pattern a rule is indexed by on one field, if any, is missing from its list. */
  predicate CoveredKey(lib: RegexLib, matches: seq<CompiledMatch>, field: string) {
    match KeyMatch(matches, field)
    case Some(m) => m.op.Matches? && LiteralsOf(m.op.pattern).Some? ==> Covers(lib, m.op.pattern)
    case None => true
  }

  ghost predicate KeyFires(lib: RegexLib, matches: seq<CompiledMatch>, field: string, v: Value) {
    KeyMatch(matches, field).Some? && MatchFires(lib, KeyMatch(matches, field).value, v)
  }

  lemma TopLevelSlot(v: Value, field: string)
    ensures Values(v, [Key(field)]) == match Slot(v, [Key(field)]) case Some(s) => [s] case None => []
  {
    FixedReachesAtMostOne(v, [Key(field)]);
  }

  /** The record that has one string field. */
  function OneField(field: string, s: string): Value {
    VObject(map[field := VString(s)])
  }

  lemma OneFieldSlots(field: string, s: string, other: string)
    ensures Slot(OneField(field, s), [Key(other)]) == if other == field then Some(s) else None
    ensures other == field ==> Values(OneField(field, s), [Key(field)]) == [s]
  {
    assert [Key(other)][1..] == [];
    assert Values(VString(s), []) == [s];
  }

  /** The condition a rule is indexed by, when it fires, reads a value the key admits: given coverage. */
  lemma KeyFiresAdmits(lib: RegexLib, matches: seq<CompiledMatch>, field: string, key: Option<seq<string>>, v: Value)
    requires ReducesTo(matches, field, key) && CoveredKey(lib, matches, field) && KeyFires(lib, matches, field, v)
    ensures Admits(key, Slot(v, [Key(field)]))
  {
    hide LiteralsOf, Covers, Slot, MatchFires, IsMatch, KeyMatch;
    if key.Some? && Slot(v, [Key(field)]).Some? {
      var m := KeyMatch(matches, field).value;
      MatchFiresHolds(lib, m, v);
      TopLevelSlot(v, field);
      var s :| s in Values(v, [Key(field)]) && Accepts(lib, m.op, s);
      if m.op.Matches? {
        CoversIff(lib, m.op.pattern);
      }
    }
  }

  /** A key admits whatever its own condition fires on if and only if it is covered. */
  lemma KeyIff(lib: RegexLib, matches: seq<CompiledMatch>, field: string, key: Option<seq<string>>)
    requires ReducesTo(matches, field, key)
    ensures CoveredKey(lib, matches, field) <==>
            forall v :: KeyFires(lib, matches, field, v) ==> Admits(key, Slot(v, [Key(field)]))
  {
    hide LiteralsOf, Covers, Slot, MatchFires, IsMatch, KeyMatch, Values;
    if CoveredKey(lib, matches, field) {
      forall v | KeyFires(lib, matches, field, v) ensures Admits(key, Slot(v, [Key(field)])) {
        KeyFiresAdmits(lib, matches, field, key, v);
      }
    } else {
      var m := KeyMatch(matches, field).value;
      CoversIff(lib, m.op.pattern);
      var s :| IsMatch(lib, m.op.pattern, s) && s !in LiteralsOf(m.op.pattern).value;
      OneFieldSlots(field, s, field);
      MatchFiresHolds(lib, m, OneField(field, s));
      assert Accepts(lib, m.op, s) && s in Values(OneField(field, s), [Key(field)]);
      assert KeyFires(lib, matches, field, OneField(field, s));
    }
  }

  /** A rule that fires is never excluded by its own index key, if no match is missing from it. */
  lemma KeySound(lib: RegexLib, matches: seq<CompiledMatch>, field: string, key: Option<seq<string>>, v: Value)
    requires ReducesTo(matches, field, key) && CoveredKey(lib, matches, field)
    requires AllFire(lib, matches, v)
    ensures Admits(key, Slot(v, [Key(field)]))
  {
    hide LiteralsOf, Covers, Slot, MatchFires, IsMatch, KeyMatch;
    if KeyMatch(matches, field).Some? {
      KeyFiresAdmits(lib, matches, field, key, v);
    }
  }

  // ----- Compilation -----

  /** An anchored literal is tried before a pattern that opens with a wildcard run. */
  function SelectivityRank(op: Op): nat {
    if op.Matches? && (".*" <= op.pattern || "^.*" <= op.pattern) then 1 else 0
  }

  function OfRank(matches: seq<CompiledMatch>, rank: nat): seq<CompiledMatch> {
    if matches == [] then []
    else (if SelectivityRank(matches[0].op) == rank then [matches[0]] else []) + OfRank(matches[1..], rank)
  }

  /** Stable sort by rank. */
  function BySelectivity(matches: seq<CompiledMatch>): seq<CompiledMatch> {
    OfRank(matches, 0) + OfRank(matches, 1)
  }

  lemma {:induction false} OfRankMembers(matches: seq<CompiledMatch>, rank: nat, m: CompiledMatch)
    ensures m in OfRank(matches, rank) <==> m in matches && SelectivityRank(m.op) == rank
  {
    if matches != [] {
      OfRankMembers(matches[1..], rank, m);
      assert matches == [matches[0]] + matches[1..];
    }
  }

  /** Sorting changes the order of a rule's conditions and nothing else. */
  lemma BySelectivityMembers(matches: seq<CompiledMatch>, m: CompiledMatch)
    ensures m in BySelectivity(matches) <==> m in matches
  {
    OfRankMembers(matches, 0, m);
    OfRankMembers(matches, 1, m);
  }

  lemma RankAt(matches: seq<CompiledMatch>, k: nat)
    requires k < |BySelectivity(matches)|
    ensures SelectivityRank(BySelectivity(matches)[k].op) == if k < |OfRank(matches, 0)| then 0 else 1
  {
    var m, n := BySelectivity(matches)[k], |OfRank(matches, 0)|;
    OfRankMembers(matches, 0, m);
    OfRankMembers(matches, 1, m);
    assert if k < n then m == OfRank(matches, 0)[k] else m == OfRank(matches, 1)[k - n];
  }

  /** A pattern that opens with a wildcard run is tried after every other condition. */
  lemma WildPatternsLast(matches: seq<CompiledMatch>, i: nat, j: nat)
    requires i < j < |BySelectivity(matches)| && BySelectivity(matches)[i].op.Matches?
    requires ".*" <= BySelectivity(matches)[i].op.pattern || "^.*" <= BySelectivity(matches)[i].op.pattern
    ensures var op := BySelectivity(matches)[j].op; op.Matches? && (".*" <= op.pattern || "^.*" <= op.pattern)
  {
    hide BySelectivity;
    RankAt(matches, i);
    RankAt(matches, j);
  }

  ghost predicate SameCondition(major: nat, c: Condition, m: CompiledMatch) {
    FieldPath(major, c.field) == Some(m.path) && m.op == c.op && m.negate == c.negate
  }

  lemma SameOp(major: nat, c: Condition, m: CompiledMatch)
    requires SameCondition(major, c, m)
    ensures c.op == m.op
  {
  }

  ghost predicate SameRule(major: nat, rule: Rule, compiled: CompiledRule) {
    compiled.name == rule.name &&
    (forall c :: c in rule.conditions ==> exists m :: m in compiled.matches && SameCondition(major, c, m)) &&
    (forall m :: m in compiled.matches ==> exists c :: c in rule.conditions && SameCondition(major, c, m))
  }

  lemma SameConditionMeaning(lib: RegexLib, major: nat, c: Condition, m: CompiledMatch, v: Value)
    requires SameCondition(major, c, m)
    ensures MatchFires(lib, m, v) <==> ConditionHolds(lib, major, c, v)
  {
    hide FieldPath, Holds, MatchFires;
    MatchFiresHolds(lib, m, v);
  }

  /** A compiled rule fires exactly when the rule it came from holds. */
  lemma SameRuleMeaning(lib: RegexLib, major: nat, rule: Rule, compiled: CompiledRule, v: Value)
    requires SameRule(major, rule, compiled)
    ensures AllFire(lib, compiled.matches, v) <==> RuleHolds(lib, major, rule, v)
  {
    hide ConditionHolds, MatchFires, SameCondition;
    if AllFire(lib, compiled.matches, v) {
      forall c | c in rule.conditions ensures ConditionHolds(lib, major, c, v) {
        var m :| m in compiled.matches && SameCondition(major, c, m);
        SameConditionMeaning(lib, major, c, m, v);
      }
    }
    if RuleHolds(lib, major, rule, v) {
      forall i | 0 <= i < |compiled.matches| ensures MatchFires(lib, compiled.matches[i], v) {
        var m := compiled.matches[i];
        assert m in compiled.matches;
        var c :| c in rule.conditions && SameCondition(major, c, m);
        SameConditionMeaning(lib, major, c, m, v);
      }
    }
  }

  method CompileRule(lib: RegexLib, major: nat, rule: Rule) returns (r: Option<CompiledRule>)
    ensures r.Some? <==> forall c :: c in rule.conditions ==> Compiles(lib, major, c)
    ensures r.Some? ==> SameRule(major, rule, r.value)
  {
    var matches: seq<CompiledMatch> := [];
    for i := 0 to |rule.conditions|
      invariant |matches| == i
      invariant forall k :: 0 <= k < i ==> Compiles(lib, major, rule.conditions[k])
      invariant forall k :: 0 <= k < i ==> SameCondition(major, rule.conditions[k], matches[k])
    {
      var c := rule.conditions[i];
      assert c in rule.conditions;
      if c.op.Matches? && !lib.compiles(c.op.pattern) {
        return None;
      }
      var path: Option<Path>;
      if major == 1 {
        path := Some(LiteralPath(c.field));
      } else {
        path := ParsePath(c.field);
      }
      if path.None? {
        return None;
      }
      matches := matches + [CompiledMatch(path.value, c.op, c.negate, 0)];
    }
    forall m ensures m in BySelectivity(matches) <==> m in matches {
      BySelectivityMembers(matches, m);
    }
    forall c | c in rule.conditions ensures exists m :: m in BySelectivity(matches) && SameCondition(major, c, m) {
      var k :| 0 <= k < |rule.conditions| && rule.conditions[k] == c;
      assert matches[k] in BySelectivity(matches);
    }
    r := Some(CompiledRule(rule.name, BySelectivity(matches)));
  }

  method CompileRules(lib: RegexLib, ruleSet: RuleSet) returns (r: Option<seq<CompiledRule>>)
    ensures r.Some? <==> forall i, c :: 0 <= i < |ruleSet.rules| && c in ruleSet.rules[i].conditions ==> Compiles(lib, ruleSet.major, c)
    ensures r.Some? ==> |r.value| == |ruleSet.rules|
    ensures r.Some? ==> forall i :: 0 <= i < |ruleSet.rules| ==> SameRule(ruleSet.major, ruleSet.rules[i], r.value[i])
  {
    hide Compiles, SameRule;
    var compiled: seq<CompiledRule> := [];
    for i := 0 to |ruleSet.rules|
      invariant |compiled| == i
      invariant forall k, c :: 0 <= k < i && c in ruleSet.rules[k].conditions ==> Compiles(lib, ruleSet.major, c)
      invariant forall k :: 0 <= k < i ==> SameRule(ruleSet.major, ruleSet.rules[k], compiled[k])
    {
      var rule := CompileRule(lib, ruleSet.major, ruleSet.rules[i]);
      if rule.None? {
        return None;
      }
      compiled := compiled + [rule.value];
    }
    r := Some(compiled);
  }

  /** Reading a version 1 name cannot fail. */
  lemma VersionOneCompiles(lib: RegexLib, c: Condition)
    ensures Compiles(lib, 1, c) <==> (c.op.Matches? ==> lib.compiles(c.op.pattern))
  {
    hide LiteralPath;
  }

  lemma VersionOneAccepts(lib: RegexLib, ruleSet: RuleSet)
    ensures (forall i, c :: 0 <= i < |ruleSet.rules| && c in ruleSet.rules[i].conditions ==> Compiles(lib, 1, c)) <==>
            (forall i, c :: 0 <= i < |ruleSet.rules| && c in ruleSet.rules[i].conditions && c.op.Matches? ==> lib.compiles(c.op.pattern))
  {
    hide Compiles;
    forall c ensures Compiles(lib, 1, c) <==> (c.op.Matches? ==> lib.compiles(c.op.pattern)) {
      VersionOneCompiles(lib, c);
    }
  }

  /** The condition was written with a wildcard. */
  predicate IsWild(major: nat, c: Condition) {
    FieldPath(major, c.field).Some? && Wildcard in FieldPath(major, c.field).value
  }

  lemma LiteralIsFixed(c: Condition)
    ensures !IsWild(1, c)
  {
    hide Split;
    assert Fixed(LiteralPath(c.field));
  }

  // ----- Interning paths -----

  ghost predicate Distinct(paths: seq<Path>) {
    forall i, j :: 0 <= i < j < |paths| ==> paths[i] != paths[j]
  }

  /** The two lists differ in path ids alone. */
  ghost predicate SameButIds(before: seq<CompiledMatch>, after: seq<CompiledMatch>) {
    |before| == |after| && forall i :: 0 <= i < |before| ==> after[i] == before[i].(pathId := after[i].pathId)
  }

  method Intern(paths: seq<Path>, path: Path) returns (grown: seq<Path>, id: nat)
    requires Distinct(paths)
    ensures Distinct(grown) && paths <= grown && id < |grown| && grown[id] == path
    ensures grown == if path in paths then paths else paths + [path]
    ensures forall p :: p in grown <==> p in paths || p == path
  {
    for n := 0 to |paths|
      invariant path !in paths[..n]
    {
      if paths[n] == path {
        return paths, n;
      }
      assert paths[..n+1] == paths[..n] + [paths[n]];
    }
    assert paths[..|paths|] == paths;
    grown, id := paths + [path], |paths|;
  }

  /** Some condition reads this path. */
  ghost predicate NamedIn(matches: seq<CompiledMatch>, path: Path) {
    exists j :: 0 <= j < |matches| && matches[j].path == path
  }

  lemma NamedAfter(before: seq<CompiledMatch>, after: seq<CompiledMatch>, path: Path)
    requires SameButIds(before, after) && NamedIn(before, path)
    ensures NamedIn(after, path)
  {
    var j :| 0 <= j < |before| && before[j].path == path;
    assert after[j].path == path;
  }

  method InternMatches(
      known: seq<Path>, before: seq<CompiledMatch>) returns (paths: seq<Path>, after: seq<CompiledMatch>)
    requires Distinct(known)
    ensures Distinct(paths) && known <= paths
    ensures SameButIds(before, after) && Interned(after, paths)
    ensures forall p :: p in paths ==> p in known || NamedIn(before, p)
  {
    paths, after := known, [];
    for j := 0 to |before|
      invariant Distinct(paths) && known <= paths
      invariant SameButIds(before[..j], after) && Interned(after, paths)
      invariant forall p :: p in paths ==> p in known || NamedIn(before, p)
    {
      var grown, id := Intern(paths, before[j].path);
      assert NamedIn(before, before[j].path);
      paths, after := grown, after + [before[j].(pathId := id)];
    }
    assert before[..|before|] == before;
  }

  lemma InternedGrows(matches: seq<CompiledMatch>, paths: seq<Path>, grown: seq<Path>)
    requires Interned(matches, paths) && paths <= grown
    ensures Interned(matches, grown)
  {
  }

  ghost predicate InternedRule(before: CompiledRule, after: CompiledRule, paths: seq<Path>) {
    after.name == before.name && SameButIds(before.matches, after.matches) && Interned(after.matches, paths)
  }

  method InternAll(rules: seq<CompiledRule>) returns (interned: seq<CompiledRule>, paths: seq<Path>)
    ensures Distinct(paths) && |interned| == |rules|
    ensures forall i :: 0 <= i < |rules| ==> InternedRule(rules[i], interned[i], paths)
    ensures forall p :: p in paths ==> exists i :: 0 <= i < |interned| && NamedIn(interned[i].matches, p)
  {
    hide Distinct, Interned, SameButIds, NamedIn;
    interned, paths := [], [];
    DistinctEmpty();
    for i := 0 to |rules|
      invariant Distinct(paths) && |interned| == i
      invariant forall k :: 0 <= k < i ==> InternedRule(rules[k], interned[k], paths)
      invariant forall p :: p in paths ==> exists k :: 0 <= k < |interned| && NamedIn(interned[k].matches, p)
    {
      var grown, matches := InternMatches(paths, rules[i].matches);
      ghost var after := interned + [CompiledRule(rules[i].name, matches)];
      forall p | p in grown ensures exists k :: 0 <= k < |after| && NamedIn(after[k].matches, p) {
        if p in paths {
          var k :| 0 <= k < |interned| && NamedIn(interned[k].matches, p);
          assert after[k] == interned[k];
        } else {
          NamedAfter(rules[i].matches, matches, p);
          assert after[|interned|].matches == matches;
        }
      }
      forall k | 0 <= k < i ensures InternedRule(rules[k], interned[k], grown) {
        InternedGrows(interned[k].matches, paths, grown);
      }
      paths, interned := grown, interned + [CompiledRule(rules[i].name, matches)];
    }
  }

  lemma DistinctEmpty()
    ensures Distinct([])
  {
  }

  lemma IdIsNoCondition(major: nat, c: Condition, before: CompiledMatch, after: CompiledMatch)
    requires after == before.(pathId := after.pathId)
    ensures SameCondition(major, c, after) <==> SameCondition(major, c, before)
  {
    hide FieldPath;
  }

  lemma SameButIdsSameRule(major: nat, rule: Rule, before: CompiledRule, after: CompiledRule)
    requires SameRule(major, rule, before) && after.name == before.name && SameButIds(before.matches, after.matches)
    ensures SameRule(major, rule, after)
  {
    hide SameCondition;
    forall c | c in rule.conditions ensures exists m :: m in after.matches && SameCondition(major, c, m) {
      var m :| m in before.matches && SameCondition(major, c, m);
      RenumberedHas(major, before.matches, after.matches, c, m);
    }
    forall m | m in after.matches ensures exists c :: c in rule.conditions && SameCondition(major, c, m) {
      var m' := RenumberedFrom(major, before.matches, after.matches, m);
      var c :| c in rule.conditions && SameCondition(major, c, m');
    }
  }

  lemma RenumberedHas(major: nat, before: seq<CompiledMatch>, after: seq<CompiledMatch>, c: Condition, m: CompiledMatch)
    requires SameButIds(before, after) && m in before && SameCondition(major, c, m)
    ensures exists m' :: m' in after && SameCondition(major, c, m')
  {
    hide SameCondition;
    var i :| 0 <= i < |before| && before[i] == m;
    IdIsNoCondition(major, c, before[i], after[i]);
    assert after[i] in after;
  }

  lemma RenumberedFrom(major: nat, before: seq<CompiledMatch>, after: seq<CompiledMatch>, m: CompiledMatch)
    returns (m': CompiledMatch)
    requires SameButIds(before, after) && m in after
    ensures m' in before && forall c :: SameCondition(major, c, m') ==> SameCondition(major, c, m)
  {
    hide SameCondition;
    var i :| 0 <= i < |after| && after[i] == m;
    m' := before[i];
    forall c | SameCondition(major, c, m') ensures SameCondition(major, c, m) {
      IdIsNoCondition(major, c, m', m);
    }
  }

  // ----- A rule of one pattern -----

  lemma {:induction false} KeyMatchFinds(matches: seq<CompiledMatch>, field: string, m: CompiledMatch)
    requires m in matches && OnField(m, field)
    ensures KeyMatch(matches, field).Some?
  {
    if !OnField(matches[0], field) {
      KeyMatchFinds(matches[1..], field, m);
    }
  }

  lemma FieldPathOfEvent(major: nat, field: string)
    requires field == "eventSource" || field == "eventName"
    ensures FieldPath(major, field) == Some([Key(field)])
  {
    hide Parsed, LiteralPath;
    EventPaths();
  }

  lemma CompiledFrom(major: nat, rule: Rule, compiled: CompiledRule, c: Condition) returns (m: CompiledMatch)
    requires SameRule(major, rule, compiled) && c in rule.conditions
    ensures m in compiled.matches && SameCondition(major, c, m)
  {
    hide SameCondition;
    m :| m in compiled.matches && SameCondition(major, c, m);
  }

  /** A rule of one positive pattern is indexed through that pattern. */
  lemma OnlyPatternIsKey(major: nat, rule: Rule, compiled: CompiledRule, c: Condition, key: Option<seq<string>>)
    requires rule.conditions == [c] && c.op.Matches? && !c.negate && (c.field == "eventSource" || c.field == "eventName")
    requires SameRule(major, rule, compiled) && ReducesTo(compiled.matches, c.field, key)
    ensures key == LiteralsOf(c.op.pattern)
  {
    hide LiteralsOf, FieldPath, KeyMatch, SameRule;
    FieldPathOfEvent(major, c.field);
    var m := CompiledFrom(major, rule, compiled, c);
    KeyMatchFinds(compiled.matches, c.field, m);
    OnlyConditionMatch(major, rule, compiled, c, KeyMatch(compiled.matches, c.field).value);
  }

  lemma OnlyPatternCovered(lib: RegexLib, major: nat, rule: Rule, compiled: CompiledRule, c: Condition, field: string)
    requires rule.conditions == [c] && SameRule(major, rule, compiled)
    requires c.op.Matches? && (LiteralsOf(c.op.pattern).Some? ==> Covers(lib, c.op.pattern))
    ensures CoveredKey(lib, compiled.matches, field)
  {
    hide LiteralsOf, Covers, KeyMatch, SameRule;
    if KeyMatch(compiled.matches, field).Some? {
      OnlyConditionMatch(major, rule, compiled, c, KeyMatch(compiled.matches, field).value);
    }
  }

  lemma OnlyConditionMatch(major: nat, rule: Rule, compiled: CompiledRule, c: Condition, m: CompiledMatch)
    requires rule.conditions == [c] && SameRule(major, rule, compiled) && m in compiled.matches
    ensures m.op == c.op
  {
    hide FieldPath;
    assert forall c' :: c' in rule.conditions ==> c' == c;
    var c' :| c' in rule.conditions && SameCondition(major, c', m);
  }

  lemma WildMatch(major: nat, rule: Rule, compiled: CompiledRule, path: Path)
    requires SameRule(major, rule, compiled) && NamedIn(compiled.matches, path) && !Fixed(path)
    ensures exists c :: c in rule.conditions && IsWild(major, c)
  {
    hide SameCondition, IsWild, Fixed;
    var j :| 0 <= j < |compiled.matches| && compiled.matches[j].path == path;
    assert compiled.matches[j] in compiled.matches;
    var c :| c in rule.conditions && SameCondition(major, c, compiled.matches[j]);
    WildTogether(major, c, compiled.matches[j]);
  }

  lemma WildTogether(major: nat, c: Condition, m: CompiledMatch)
    requires SameCondition(major, c, m)
    ensures IsWild(major, c) <==> !Fixed(m.path)
  {
    hide FieldPath;
  }

  lemma WildSlot(major: nat, rule: Rule, compiled: CompiledRule, c: Condition, paths: seq<Path>) returns (n: nat)
    requires SameRule(major, rule, compiled) && Interned(compiled.matches, paths) && c in rule.conditions && IsWild(major, c)
    ensures n < |paths| && !Fixed(paths[n])
  {
    hide FieldPath, SameRule, Interned;
    var m := CompiledFrom(major, rule, compiled, c);
    InternedAt(compiled.matches, paths, m);
    n := m.pathId;
  }

  lemma InternedAt(matches: seq<CompiledMatch>, paths: seq<Path>, m: CompiledMatch)
    requires Interned(matches, paths) && m in matches
    ensures m.pathId < |paths| && paths[m.pathId] == m.path
  {
  }

  // ----- The engine -----

  const EVENT_SOURCE: Path := [Key("eventSource")]
  const EVENT_NAME: Path := [Key("eventName")]

  lemma EventsAreFixed()
    ensures Fixed(EVENT_SOURCE) && Fixed(EVENT_NAME)
  {
  }

  lemma EventPaths()
    ensures Parsed("eventSource") == Some(EVENT_SOURCE) && LiteralPath("eventSource") == EVENT_SOURCE
    ensures Parsed("eventName") == Some(EVENT_NAME) && LiteralPath("eventName") == EVENT_NAME
  {
    hide Parsed, LiteralPath;
    PlainName("eventSource");
    PlainName("eventName");
  }

  /** Dedicated slots for the two indexed fields, shared with the rules that name them. */
  method InternEventPaths(known: seq<Path>) returns (paths: seq<Path>, sourceSlot: nat, nameSlot: nat)
    requires Distinct(known)
    ensures Distinct(paths) && known <= paths
    ensures sourceSlot < |paths| && paths[sourceSlot] == EVENT_SOURCE
    ensures nameSlot < |paths| && paths[nameSlot] == EVENT_NAME
    ensures forall p :: p in paths ==> p in known || p == EVENT_SOURCE || p == EVENT_NAME
  {
    hide Parsed, Distinct;
    EventPaths();
    var sourcePath := ParsePath("eventSource");
    var namePath := ParsePath("eventName");
    var withSource, slot := Intern(known, sourcePath.value);
    sourceSlot := slot;
    paths, nameSlot := Intern(withSource, namePath.value);
  }

  method ResolveEvent(record: Value) returns (eventSource: Option<string>, eventName: Option<string>)
    ensures eventSource == Slot(record, EVENT_SOURCE) && eventName == Slot(record, EVENT_NAME)
  {
    hide LiteralPath, Slot;
    eventSource := Resolve(record, "eventSource");
    eventName := Resolve(record, "eventName");
    EventPaths();
  }

  /**
   Immutable once built. `ruleSet`, `paths` and `keys` are what it was built from, kept so
   that the rest can be stated against them.
   */
  datatype Engine = Engine(
    lib: RegexLib, ruleSet: RuleSet, paths: seq<Path>, keys: seq<RuleKeys>,
    rules: seq<CompiledRule>, index: Index, projection: Projection, eventSourceSlot: nat, eventNameSlot: nat)
  {
    ghost predicate FromRules() {
      |rules| == |ruleSet.rules| && |keys| == |rules| &&
      (forall i :: 0 <= i < |rules| ==> SameRule(ruleSet.major, ruleSet.rules[i], rules[i])) &&
      (forall i :: 0 <= i < |rules| ==> Interned(rules[i].matches, paths)) &&
      (forall i :: 0 <= i < |rules| ==> KeysReduce(rules[i].matches, keys[i])) &&
      eventSourceSlot < |paths| && paths[eventSourceSlot] == EVENT_SOURCE &&
      eventNameSlot < |paths| && paths[eventNameSlot] == EVENT_NAME &&
      forall p :: p in paths ==> Needed(p)
    }

    /** A rule reads it, or the index does. */
    ghost predicate Needed(path: Path) {
      path == EVENT_SOURCE || path == EVENT_NAME || exists i :: 0 <= i < |rules| && NamedIn(rules[i].matches, path)
    }

    ghost predicate Valid()
      reads index.Frame(), index.source, index.name, projection.root, projection.root.Repr
    {
      FromRules() && index.Exact(keys) && projection.Covers(paths)
    }

    /** No rule is indexed through a list that misses a match of its pattern. */
    predicate CoveredKeys() {
      forall i :: 0 <= i < |rules| ==>
        CoveredKey(lib, rules[i].matches, "eventSource") && CoveredKey(lib, rules[i].matches, "eventName")
    }

    // ----- Evaluation -----

    /** The first rule that fires among those the index permits. */
    ghost predicate FirstCandidate(v: Value, d: Decision)
      reads index.Frame(), index.source, index.name
    {
      match d
      case Keep => forall i :: 0 <= i < |rules| ==> !Fires(i, v)
      case Drop(n) => n < |rules| && Fires(n, v) && forall i :: 0 <= i < n ==> !Fires(i, v)
    }

    ghost predicate Fires(i: nat, v: Value)
      requires i < |rules|
      reads index.Frame(), index.source, index.name
    {
      index.Permits(i, Slot(v, EVENT_SOURCE), Slot(v, EVENT_NAME)) && AllFire(lib, rules[i].matches, v)
    }

    lemma SizesAgree()
      requires Valid()
      ensures |rules| == |ruleSet.rules| == index.ruleCount
    {
      hide SameRule, KeysReduce, Interned, Index.Permits, Needed;
    }

    lemma PathsInterned(i: nat)
      requires FromRules() && i < |rules|
      ensures Interned(rules[i].matches, paths)
    {
      hide SameRule, KeysReduce, Interned, Needed;
    }

    lemma EventSlots()
      requires FromRules()
      ensures eventSourceSlot < |paths| && paths[eventSourceSlot] == EVENT_SOURCE
      ensures eventNameSlot < |paths| && paths[eventNameSlot] == EVENT_NAME
    {
      hide SameRule, KeysReduce, Interned, Needed;
    }

    lemma RuleMeaning(i: nat, v: Value)
      requires FromRules() && i < |rules|
      ensures AllFire(lib, rules[i].matches, v) <==> RuleHolds(lib, ruleSet.major, ruleSet.rules[i], v)
    {
      hide SameRule, AllFire, RuleHolds;
      SameRuleMeaning(lib, ruleSet.major, ruleSet.rules[i], rules[i], v);
    }

    /** The oracle: every rule in order, no index. */
    method EvaluateLinear(record: Value) returns (d: Decision)
      requires Valid()
      ensures Decides(lib, ruleSet, record, d)
    {
      hide FromRules, AllFire, RuleHolds, Node.Valid, Index.Exact;
      SizesAgree();
      for ruleIdx := 0 to |rules|
        invariant forall i :: 0 <= i < ruleIdx ==> !RuleHolds(lib, ruleSet.major, ruleSet.rules[i], record)
      {
        RuleMeaning(ruleIdx, record);
        if AllFire(lib, rules[ruleIdx].matches, record) {
          return Drop(ruleIdx);
        }
      }
      d := Keep;
    }

    /** Only the candidates the index selects, in the same order. */
    method Evaluate(record: Value) returns (d: Decision)
      requires Valid()
      ensures FirstCandidate(record, d)
    {
      hide FromRules, AllFire, Node.Valid, Index.Exact, Index.Permits, Slot;
      SizesAgree();
      var eventSource, eventName := ResolveEvent(record);
      for ruleIdx := 0 to index.ruleCount
        invariant forall i :: 0 <= i < ruleIdx ==> !Fires(i, record)
      {
        if index.Permits(ruleIdx, eventSource, eventName) && AllFire(lib, rules[ruleIdx].matches, record) {
          return Drop(ruleIdx);
        }
      }
      d := Keep;
    }

    /** From the raw text, without building the record unless a wildcard path forces it. */
    method EvaluateRaw(text: Text) returns (r: Option<Decision>)
      requires Valid()
      ensures r.Some? <==> Parse(text).Some?
      ensures r.Some? ==> FirstCandidate(Parse(text).value, r.value)
    {
      hide FromRules, AllFire, Node.Valid, Index.Exact, Index.Permits, MatchFires, MatchFiresProjected, Slot;
      SizesAgree();
      if projection.hasWildcard {
        var value := Parse(text);
        if value.None? {
          return None;
        }
        var d := Evaluate(value.value);
        return Some(d);
      }
      var slots := Project(text, projection, paths);
      if slots.None? {
        return None;
      }
      ghost var v := Parse(text).value;
      EventSlots();
      var eventSource, eventName := slots.value[eventSourceSlot], slots.value[eventNameSlot];
      for ruleIdx := 0 to index.ruleCount
        invariant forall i :: 0 <= i < ruleIdx ==> !Fires(i, v)
      {
        PathsInterned(ruleIdx);
        AllFireProjectedAgrees(lib, rules[ruleIdx].matches, paths, v, slots.value);
        if index.Permits(ruleIdx, eventSource, eventName) && AllFireProjected(lib, rules[ruleIdx].matches, slots.value) {
          return Some(Drop(ruleIdx));
        }
      }
      r := Some(Keep);
    }

    lemma CandidateUnique(v: Value, d: Decision, d': Decision)
      requires FirstCandidate(v, d) && FirstCandidate(v, d')
      ensures d == d'
    {
    }

    /** The index never excludes a rule that fires. */
    lemma FiresAll(i: nat, v: Value)
      requires Valid() && i < |rules|
      requires CoveredKey(lib, rules[i].matches, "eventSource") && CoveredKey(lib, rules[i].matches, "eventName")
      ensures Fires(i, v) <==> RuleHolds(lib, ruleSet.major, ruleSet.rules[i], v)
    {
      hide AllFire, RuleHolds, ReducesTo, CoveredKey, SameRule, Node.Valid, Slot;
      RuleMeaning(i, v);
      if AllFire(lib, rules[i].matches, v) {
        KeySound(lib, rules[i].matches, "eventSource", keys[i].eventSource, v);
        KeySound(lib, rules[i].matches, "eventName", keys[i].eventName, v);
      }
    }

    /** So the narrowed walk decides as the oracle does. */
    lemma IndexedIsExact(v: Value, d: Decision)
      requires Valid() && CoveredKeys()
      ensures FirstCandidate(v, d) <==> Decides(lib, ruleSet, v, d)
    {
      hide Fires, RuleHolds, CoveredKey, SameRule, Node.Valid;
      forall i | 0 <= i < |rules| ensures Fires(i, v) <==> RuleHolds(lib, ruleSet.major, ruleSet.rules[i], v) {
        FiresAll(i, v);
      }
    }

    /** A ruleset whose patterns hold no word-boundary assertion is such a one. */
    lemma PlainRulesAreCovered()
      requires Valid()
      requires forall rule, c :: rule in ruleSet.rules && c in rule.conditions && c.op.Matches? ==> !HasWordAssertion(c.op.pattern)
      ensures CoveredKeys()
    {
      hide LiteralsOf, Covers, Justifies, HasWordAssertion, KeyMatch, KeysReduce, Interned, Node.Valid, Index.Exact,
           SameCondition, Needed;
      forall i, field | 0 <= i < |rules| ensures CoveredKey(lib, rules[i].matches, field) {
        var key := KeyMatch(rules[i].matches, field);
        if key.Some? && key.value.op.Matches? && LiteralsOf(key.value.op.pattern).Some? {
          var c :| c in ruleSet.rules[i].conditions && SameCondition(ruleSet.major, c, key.value);
          SameOp(ruleSet.major, c, key.value);
          assert ruleSet.rules[i] in ruleSet.rules;
          PlainIsExact(lib, c.op.pattern);
        }
      }
    }

    /**
     The raw evaluation falls back to a full parse exactly if some condition was written with a
     wildcard, which no version 1 name is.
     */
    lemma FallsBackIff()
      requires Valid()
      ensures projection.hasWildcard <==>
              exists i, c :: 0 <= i < |ruleSet.rules| && c in ruleSet.rules[i].conditions && IsWild(ruleSet.major, c)
      ensures ruleSet.major == 1 ==> !projection.hasWildcard
    {
      hide SameRule, KeysReduce, Interned, Index.Exact, Node.Valid, Needed, NamedIn, IsWild;
      if projection.hasWildcard {
        var n :| 0 <= n < |paths| && !Fixed(paths[n]);
        assert paths[n] in paths;
        var i := WildPath(paths[n]);
      }
      if i, c :| 0 <= i < |ruleSet.rules| && c in ruleSet.rules[i].conditions && IsWild(ruleSet.major, c) {
        WildCondition(i, c);
      }
      if ruleSet.major == 1 {
        forall c ensures !IsWild(1, c) {
          LiteralIsFixed(c);
        }
      }
    }

    lemma WildPath(path: Path) returns (i: nat)
      requires FromRules() && path in paths && !Fixed(path)
      ensures i < |ruleSet.rules| && exists c :: c in ruleSet.rules[i].conditions && IsWild(ruleSet.major, c)
    {
      hide KeysReduce, Interned, FieldPath, Fixed, SameRule, NamedIn, IsWild;
      assert Needed(path) && Fixed(EVENT_SOURCE) && Fixed(EVENT_NAME) by {
        EventsAreFixed();
      }
      i :| 0 <= i < |rules| && NamedIn(rules[i].matches, path);
      WildMatch(ruleSet.major, ruleSet.rules[i], rules[i], path);
    }

    lemma WildCondition(i: nat, c: Condition)
      requires FromRules() && projection.Covers(paths) && i < |ruleSet.rules| && c in ruleSet.rules[i].conditions && IsWild(ruleSet.major, c)
      ensures projection.hasWildcard
    {
      hide KeysReduce, FieldPath, Needed, Node.Valid, Fixed, SameRule, IsWild, Interned;
      var n := WildSlot(ruleSet.major, ruleSet.rules[i], rules[i], c, paths);
    }

    /** The rule is one positive pattern on a field the index reads. */
    predicate OnePattern(i: nat, c: Condition)
      requires i < |ruleSet.rules|
    {
      ruleSet.rules[i].conditions == [c] && c.op.Matches? && !c.negate && (c.field == "eventSource" || c.field == "eventName")
    }

    lemma OnePatternKeys(i: nat, c: Condition)
      requires Valid() && i < |rules| && OnePattern(i, c)
      ensures c.field == "eventSource" ==> keys[i].eventSource == LiteralsOf(c.op.pattern)
      ensures c.field == "eventName" ==> keys[i].eventName == LiteralsOf(c.op.pattern)
      ensures (LiteralsOf(c.op.pattern).Some? ==> Covers(lib, c.op.pattern)) ==>
                CoveredKey(lib, rules[i].matches, "eventSource") && CoveredKey(lib, rules[i].matches, "eventName")
    {
      hide LiteralsOf, Covers, KeyMatch, ReducesTo, SameRule, Node.Valid, Index.Exact, Interned;
      assert KeysReduce(rules[i].matches, keys[i]) && SameRule(ruleSet.major, ruleSet.rules[i], rules[i]);
      var key := if c.field == "eventSource" then keys[i].eventSource else keys[i].eventName;
      OnlyPatternIsKey(ruleSet.major, ruleSet.rules[i], rules[i], c, key);
      if LiteralsOf(c.op.pattern).Some? ==> Covers(lib, c.op.pattern) {
        OnlyPatternCovered(lib, ruleSet.major, ruleSet.rules[i], rules[i], c, "eventSource");
        OnlyPatternCovered(lib, ruleSet.major, ruleSet.rules[i], rules[i], c, "eventName");
      }
    }

    /** A match that is not listed: the record holding just it is one the rule means and the index hides. */
    lemma MissedRecord(i: nat, c: Condition) returns (v: Value)
      requires Valid() && i < |rules| && OnePattern(i, c)
      requires LiteralsOf(c.op.pattern).Some? && !Covers(lib, c.op.pattern)
      ensures RuleHolds(lib, ruleSet.major, ruleSet.rules[i], v) && !Fires(i, v)
    {
      hide LiteralsOf, Covers, IsMatch, AllFire, SameRule, KeysReduce, Interned, Node.Valid, Values, Slot, Parsed,
           LiteralPath;
      CoversIff(lib, c.op.pattern);
      var s :| IsMatch(lib, c.op.pattern, s) && s !in LiteralsOf(c.op.pattern).value;
      v := OneField(c.field, s);
      OneFieldSlots(c.field, s, c.field);
      OnePatternKeys(i, c);
      EventPaths();
      assert Accepts(lib, c.op, s) && s in Values(v, [Key(c.field)]);
      assert ConditionHolds(lib, ruleSet.major, c, v);
    }

    /**
     A rule of one positive pattern, in any ruleset: the index hides it from no record it holds of
     if and only if the pattern is indexed through nothing or through a list that covers it.
     */
    lemma OnePatternIff(i: nat, c: Condition)
      requires Valid() && i < |rules| && OnePattern(i, c)
      ensures (forall v :: RuleHolds(lib, ruleSet.major, ruleSet.rules[i], v) ==> Fires(i, v)) <==>
              (LiteralsOf(c.op.pattern).Some? ==> Covers(lib, c.op.pattern))
    {
      hide LiteralsOf, Covers, Fires, RuleHolds, SameRule, Node.Valid, CoveredKey;
      if LiteralsOf(c.op.pattern).Some? ==> Covers(lib, c.op.pattern) {
        OnePatternKeys(i, c);
        forall v ensures Fires(i, v) <==> RuleHolds(lib, ruleSet.major, ruleSet.rules[i], v) {
          FiresAll(i, v);
        }
      } else {
        var v := MissedRecord(i, c);
      }
    }

    /** And when it is the only rule, that is exactly when the indexed decisions are the oracle's. */
    lemma OneRuleIff(c: Condition)
      requires Valid() && |rules| == 1 && OnePattern(0, c)
      ensures (forall v, d :: FirstCandidate(v, d) <==> Decides(lib, ruleSet, v, d)) <==>
              (LiteralsOf(c.op.pattern).Some? ==> Covers(lib, c.op.pattern))
    {
      hide LiteralsOf, Covers, Fires, RuleHolds, SameRule, Node.Valid, CoveredKey;
      OnePatternIff(0, c);
      SizesAgree();
      if LiteralsOf(c.op.pattern).Some? ==> Covers(lib, c.op.pattern) {
        OnePatternKeys(0, c);
        forall v, d ensures FirstCandidate(v, d) <==> Decides(lib, ruleSet, v, d) {
          IndexedIsExact(v, d);
        }
      } else {
        var v := MissedRecord(0, c);
        assert FirstCandidate(v, Keep) && !Decides(lib, ruleSet, v, Keep);
      }
    }
  }

  /** Compiles a ruleset; `None` when a pattern or a field path does not compile. */
  method New(lib: RegexLib, ruleSet: RuleSet) returns (r: Option<Engine>)
    ensures r.Some? <==> forall i, c :: 0 <= i < |ruleSet.rules| && c in ruleSet.rules[i].conditions ==> Compiles(lib, ruleSet.major, c)
    ensures r.Some? ==> r.value.Valid() && r.value.lib == lib && r.value.ruleSet == ruleSet
    ensures ruleSet.major == 1 ==>
              (r.Some? <==> forall i, c :: 0 <= i < |ruleSet.rules| && c in ruleSet.rules[i].conditions && c.op.Matches? ==>
                              lib.compiles(c.op.pattern))
  {
    if ruleSet.major == 1 {
      VersionOneAccepts(lib, ruleSet);
    }
    hide Compiles, FieldPath, SameRule, SameButIds, Interned, KeysReduce, Node.Valid, Index.Exact, Distinct, Parsed,
         Projection.Covers, AllFire, NamedIn;
    var compiled := CompileRules(lib, ruleSet);
    if compiled.None? {
      return None;
    }
    var rules, rulePaths := InternAll(compiled.value);
    var paths, eventSourceSlot, eventNameSlot := InternEventPaths(rulePaths);
    var projection := Build(paths);
    var keys := KeysOf(rules);
    var index := new Index(keys);
    forall i | 0 <= i < |rules|
      ensures SameRule(ruleSet.major, ruleSet.rules[i], rules[i]) && Interned(rules[i].matches, paths)
    {
      SameButIdsSameRule(ruleSet.major, ruleSet.rules[i], compiled.value[i], rules[i]);
      InternedGrows(rules[i].matches, rulePaths, paths);
    }
    r := Some(Engine(lib, ruleSet, paths, keys, rules, index, projection, eventSourceSlot, eventNameSlot));
  }

  // ----- The one way the index is wrong -----

  const WORD_PATTERN: string := "^\\<a$"
  const WORD_RULES: RuleSet := RuleSet(1, [Rule("words", [Condition("eventName", Matches(WORD_PATTERN), false)])])
  const WORD_RECORD: Value := OneField("eventName", "a")

  /**
   A rule indexed through `^\<a$` holds for a record whose name is "a", and the oracle drops
   that record; the index looks the name up in ["<a"] and keeps it.
   */
  lemma IndexMissesWordAssertion(e: Engine)
    requires e.Valid() && e.ruleSet == WORD_RULES && e.lib.isWord('a')
    ensures Decides(e.lib, e.ruleSet, WORD_RECORD, Drop(0))
    ensures e.FirstCandidate(WORD_RECORD, Keep)
  {
    hide LiteralsOf, Parsed, LiteralPath, IsMatch, AllFire, SameRule, KeysReduce, Interned, Node.Valid, Values, Slot,
         Covers, CoveredKey;
    WordStartCounterexample(e.lib);
    OneFieldSlots("eventName", "a", "eventName");
    EventPaths();
    e.SizesAgree();
    var c := Condition("eventName", Matches(WORD_PATTERN), false);
    assert WORD_RULES.rules[0].conditions == [c] && c.op.Matches? && !c.negate && c.field == "eventName";
    assert |e.rules| == 1 && e.OnePattern(0, c);
    e.OnePatternKeys(0, c);
    assert Accepts(e.lib, c.op, "a") && "a" in Values(WORD_RECORD, EVENT_NAME);
    assert ConditionHolds(e.lib, 1, c, WORD_RECORD);
    assert RuleHolds(e.lib, 1, WORD_RULES.rules[0], WORD_RECORD);
    assert "a" !in ["<a"];
  }
}
