/**
 Record counters: tallied per object, published as one unit once the object's fate is
 decided, and read out as a snapshot that balances.
 */
module Tally {
  import opened Wrappers
  import opened Engines

  // ----- Sums over counters keyed by rule -----

  ghost function Sum<K(!new)>(m: map<K, nat>): nat
    decreases m.Keys
  {
    if m == map[] then 0
    else
      var k :| k in m;
      m[k] + Sum(m - {k})
  }

  lemma {:induction false} SumRemove<K(!new)>(m: map<K, nat>, k: K)
    requires k in m
    ensures Sum(m) == m[k] + Sum(m - {k})
    decreases m.Keys
  {
    var k' :| k' in m && Sum(m) == m[k'] + Sum(m - {k'});
    if k' != k {
      SumRemove(m - {k'}, k);
      SumRemove(m - {k}, k');
      assert m - {k'} - {k} == m - {k} - {k'};
    }
  }

  function Get<K>(m: map<K, nat>, k: K): nat {
    if k in m then m[k] else 0
  }

  lemma SumBump<K(!new)>(m: map<K, nat>, k: K, n: nat)
    ensures Sum(m[k := Get(m, k) + n]) == Sum(m) + n
  {
    var bumped := m[k := Get(m, k) + n];
    SumRemove(bumped, k);
    if k in m {
      SumRemove(m, k);
      assert bumped - {k} == m - {k};
    } else {
      assert bumped - {k} == m;
    }
  }

  /** The drops of the rules that bear one name. */
  ghost function Named(drops: map<nat, nat>, names: seq<string>, name: string): map<nat, nat> {
    map rule | rule in drops && rule < |names| && names[rule] == name :: drops[rule]
  }

  ghost function DropsNamed(drops: map<nat, nat>, names: seq<string>, name: string): nat {
    Sum(Named(drops, names, name))
  }

  lemma DropsNamedRemove(drops: map<nat, nat>, names: seq<string>, name: string, rule: nat)
    requires rule in drops && rule < |names|
    ensures DropsNamed(drops, names, name) ==
            DropsNamed(drops - {rule}, names, name) + if names[rule] == name then drops[rule] else 0
  {
    assert Named(drops - {rule}, names, name) == Named(drops, names, name) - {rule};
    if names[rule] == name {
      SumRemove<nat>(Named(drops, names, name), rule);
    } else {
      assert Named(drops, names, name) - {rule} == Named(drops, names, name);
    }
  }

  // ----- One object's tally -----

  datatype Counts = Counts(recordsIn: nat, kept: nat, parseErrors: nat, ruleDrops: map<nat, nat>)

  const ZERO: Counts := Counts(0, 0, 0, map[])

  /** What one evaluated record adds: a record that does not parse is kept, and counted. */
  function Count(c: Counts, verdict: Option<Decision>): Counts {
    match verdict
    case Some(Keep) => c.(recordsIn := c.recordsIn + 1, kept := c.kept + 1)
    case Some(Drop(rule)) => c.(recordsIn := c.recordsIn + 1, ruleDrops := c.ruleDrops[rule := Get(c.ruleDrops, rule) + 1])
    case None => c.(recordsIn := c.recordsIn + 1, kept := c.kept + 1, parseErrors := c.parseErrors + 1)
  }

  function CountAll(verdicts: seq<Option<Decision>>): Counts {
    if verdicts == [] then ZERO
    else Count(CountAll(verdicts[..|verdicts| - 1]), verdicts[|verdicts| - 1])
  }

  predicate Survives(verdict: Option<Decision>) {
    verdict != None ==> verdict.value == Keep
  }

  /** Every record is kept or attributed to exactly one rule. */
  ghost predicate Balanced(c: Counts) {
    c.kept <= c.recordsIn && Sum(c.ruleDrops) == c.recordsIn - c.kept && c.parseErrors <= c.kept
  }

  lemma {:induction false} CountsBalance(verdicts: seq<Option<Decision>>)
    ensures Balanced(CountAll(verdicts)) && CountAll(verdicts).recordsIn == |verdicts|
    ensures forall rule :: rule in CountAll(verdicts).ruleDrops ==> Some(Drop(rule)) in verdicts
  {
    if verdicts != [] {
      var n := |verdicts| - 1;
      CountsBalance(verdicts[..n]);
      var before := CountAll(verdicts[..n]);
      if verdicts[n].Some? && verdicts[n].value.Drop? {
        SumBump(before.ruleDrops, verdicts[n].value.ruleIdx, 1);
      }
      assert verdicts == verdicts[..n] + [verdicts[n]];
    }
  }

  /** Each counter is the number of verdicts of its kind, and each rule's drops are those of that rule. */
  lemma {:induction false} TallyCounts(verdicts: seq<Option<Decision>>, rule: nat)
    ensures var c, all := CountAll(verdicts), multiset(verdicts);
            && c.recordsIn == |verdicts| && c.kept == all[None] + all[Some(Keep)] && c.parseErrors == all[None]
            && Get(c.ruleDrops, rule) == all[Some(Drop(rule))]
  {
    if verdicts != [] {
      var n := |verdicts| - 1;
      TallyCounts(verdicts[..n], rule);
      assert verdicts == verdicts[..n] + [verdicts[n]];
    }
  }

  class RecordTally {
    var recordsIn: nat
    var kept: nat
    var parseErrors: nat
    var ruleDrops: map<nat, nat>

    function View(): Counts
      reads this
    {
      Counts(recordsIn, kept, parseErrors, ruleDrops)
    }

    constructor ()
      ensures View() == ZERO
    {
      recordsIn, kept, parseErrors, ruleDrops := 0, 0, 0, map[];
    }

    constructor Of(c: Counts)
      ensures View() == c
    {
      recordsIn, kept, parseErrors, ruleDrops := c.recordsIn, c.kept, c.parseErrors, c.ruleDrops;
    }

    method RecordIn()
      modifies this
      ensures View() == old(View()).(recordsIn := old(recordsIn) + 1)
    {
      recordsIn := recordsIn + 1;
    }

    method KeepOne()
      modifies this
      ensures View() == old(View()).(kept := old(kept) + 1)
    {
      kept := kept + 1;
    }

    method DropByRule(rule: nat)
      modifies this
      ensures View() == old(View()).(ruleDrops := old(ruleDrops)[rule := Get(old(ruleDrops), rule) + 1])
    {
      ruleDrops := ruleDrops[rule := Get(ruleDrops, rule) + 1];
    }

    method ParseError()
      modifies this
      ensures View() == old(View()).(parseErrors := old(parseErrors) + 1)
    {
      parseErrors := parseErrors + 1;
    }

    /** What the record loops of both modes do with one verdict; says whether the record is kept. */
    method Record(verdict: Option<Decision>) returns (keep: bool)
      modifies this
      ensures View() == Count(old(View()), verdict)
      ensures keep <==> Survives(verdict)
    {
      RecordIn();
      match verdict
      case Some(Keep) =>
        KeepOne();
        keep := true;
      case Some(Drop(rule)) =>
        DropByRule(rule);
        keep := false;
      case None =>
        ParseError();
        KeepOne();
        keep := true;
    }

    /** Publishes every counter as one unit. */
    method Commit(metrics: Metrics, names: seq<string>)
      requires Balanced(View()) && metrics.Reconciles()
      requires forall rule :: rule in ruleDrops ==> rule < |names|
      modifies metrics
      ensures metrics.Reconciles()
      ensures metrics.Totals() == old(metrics.Totals()).Plus(View())
      ensures Gains(old(metrics.View()), metrics.View(), QUIET, View(), names)
    {
      metrics.AddRecords(recordsIn, kept, recordsIn - kept, parseErrors);
      var todo: map<nat, nat> := ruleDrops;
      while todo != map[]
        invariant forall rule :: rule in todo ==> rule in ruleDrops && rule < |names|
        invariant Sum(metrics.ruleDrops) + Sum(todo) == metrics.recordsDropped
        invariant metrics.recordsIn == old(metrics.recordsIn) + recordsIn
        invariant metrics.recordsKept == old(metrics.recordsKept) + kept
        invariant metrics.recordsDropped == old(metrics.recordsDropped) + (recordsIn - kept)
        invariant metrics.parseErrors == old(metrics.parseErrors) + parseErrors
        invariant metrics.objects == old(metrics.objects)
        invariant forall name :: Get(metrics.ruleDrops, name) + DropsNamed(todo, names, name) ==
                    Get(old(metrics.ruleDrops), name) + DropsNamed(ruleDrops, names, name)
        decreases todo.Keys
      {
        var rule: nat :| rule in todo;
        metrics.RecordRuleDrops(names[rule], todo[rule]);
        SumRemove<nat>(todo, rule);
        forall name ensures DropsNamed(todo, names, name) ==
                 DropsNamed(todo - {rule}, names, name) + if names[rule] == name then todo[rule] else 0 {
          DropsNamedRemove(todo, names, name, rule);
        }
        todo := todo - {rule};
      }
      assert forall name :: Named(todo, names, name) == map[];
    }
  }

  // ----- Process-lived metrics -----

  datatype RecordTotals = RecordTotals(recordsIn: nat, kept: nat, dropped: nat, parseErrors: nat, attributed: nat) {
    function Plus(c: Counts): RecordTotals
      requires c.kept <= c.recordsIn
    {
      RecordTotals(recordsIn + c.recordsIn, kept + c.kept, dropped + (c.recordsIn - c.kept), parseErrors + c.parseErrors,
                   attributed + (c.recordsIn - c.kept))
    }
  }

  datatype ObjectTotals = ObjectTotals(
    processed: nat, skipped: nat, failed: nat, excludedByKey: nat, unrecognized: nat, copiedUnparsed: nat,
    bytesIn: nat, bytesOut: nat, decodeErrors: nat, itemsWithoutObjects: nat)
  {
    function Plus(o: ObjectTotals): ObjectTotals {
      ObjectTotals(processed + o.processed, skipped + o.skipped, failed + o.failed, excludedByKey + o.excludedByKey,
                   unrecognized + o.unrecognized, copiedUnparsed + o.copiedUnparsed, bytesIn + o.bytesIn,
                   bytesOut + o.bytesOut, decodeErrors + o.decodeErrors, itemsWithoutObjects + o.itemsWithoutObjects)
    }
  }

  const QUIET: ObjectTotals := ObjectTotals(0, 0, 0, 0, 0, 0, 0, 0, 0, 0)

  lemma QuietPlus(o: ObjectTotals)
    ensures QUIET.Plus(o) == o && o.Plus(QUIET) == o
  {
  }

  datatype MetricsView = MetricsView(
    objects: ObjectTotals, recordsIn: nat, kept: nat, dropped: nat, parseErrors: nat, ruleDrops: map<string, nat>)

  /** The counters moved by exactly these object totals and these records, each drop under its rule's name. */
  ghost predicate Gains(
      before: MetricsView, after: MetricsView, objects: ObjectTotals, counts: Counts, names: seq<string>)
  {
    && after.objects == before.objects.Plus(objects)
    && after.recordsIn == before.recordsIn + counts.recordsIn && after.kept == before.kept + counts.kept
    && after.dropped == before.dropped + counts.recordsIn - counts.kept
    && after.parseErrors == before.parseErrors + counts.parseErrors
    && forall name :: Get(after.ruleDrops, name) == Get(before.ruleDrops, name) + DropsNamed(counts.ruleDrops, names, name)
  }

  lemma NoDrops(names: seq<string>, name: string)
    ensures DropsNamed(map[], names, name) == 0
  {
    assert Named(map[], names, name) == map[];
  }

  /** Moving object counters only. */
  lemma GainsObjects(before: MetricsView, after: MetricsView, objects: ObjectTotals, names: seq<string>)
    requires after == before.(objects := before.objects.Plus(objects))
    ensures Gains(before, after, objects, ZERO, names)
  {
    forall name ensures DropsNamed(ZERO.ruleDrops, names, name) == 0 {
      NoDrops(names, name);
    }
  }

  lemma GainsThen(
      a: MetricsView, b: MetricsView, c: MetricsView, first: ObjectTotals, second: ObjectTotals, counts: Counts,
      names: seq<string>)
    requires Gains(a, b, first, ZERO, names) && Gains(b, c, second, counts, names)
    ensures Gains(a, c, first.Plus(second), counts, names)
  {
    forall name ensures DropsNamed(ZERO.ruleDrops, names, name) == 0 {
      NoDrops(names, name);
    }
  }

  /** The same, the records first. */
  lemma GainsThenObjects(
      a: MetricsView, b: MetricsView, c: MetricsView, first: ObjectTotals, counts: Counts, second: ObjectTotals,
      names: seq<string>)
    requires Gains(a, b, first, counts, names) && Gains(b, c, second, ZERO, names)
    ensures Gains(a, c, first.Plus(second), counts, names)
  {
    forall name ensures DropsNamed(ZERO.ruleDrops, names, name) == 0 {
      NoDrops(names, name);
    }
  }

  datatype Snapshot = Snapshot(coldStart: bool, objects: ObjectTotals, records: RecordTotals, ruleDrops: map<string, nat>)

  class Metrics {
    var coldStartEmitted: bool
    var objects: ObjectTotals
    var recordsIn: nat
    var recordsKept: nat
    var recordsDropped: nat
    var parseErrors: nat
    var ruleDrops: map<string, nat>

    function View(): MetricsView
      reads this
    {
      MetricsView(objects, recordsIn, recordsKept, recordsDropped, parseErrors, ruleDrops)
    }

    ghost function Totals(): RecordTotals
      reads this
    {
      RecordTotals(recordsIn, recordsKept, recordsDropped, parseErrors, Sum(ruleDrops))
    }

    /** Both reconciliation identities. */
    ghost predicate Reconciles()
      reads this
    {
      recordsIn == recordsKept + recordsDropped && Sum(ruleDrops) == recordsDropped
    }

    constructor ()
      ensures Reconciles() && Totals() == RecordTotals(0, 0, 0, 0, 0)
      ensures View() == MetricsView(QUIET, 0, 0, 0, 0, map[])
    {
      coldStartEmitted := false;
      objects := QUIET;
      recordsIn, recordsKept, recordsDropped, parseErrors, ruleDrops := 0, 0, 0, 0, map[];
    }

    method AddObjectsProcessed(n: nat)
      modifies this`objects
      ensures objects == old(objects).Plus(QUIET.(processed := n))
    {
      objects := objects.(processed := objects.processed + n);
    }

    method AddObjectsSkipped(n: nat)
      modifies this`objects
      ensures objects == old(objects).Plus(QUIET.(skipped := n))
    {
      objects := objects.(skipped := objects.skipped + n);
    }

    method AddObjectsFailed(n: nat)
      modifies this`objects
      ensures objects == old(objects).Plus(QUIET.(failed := n))
    {
      objects := objects.(failed := objects.failed + n);
    }

    method AddObjectsExcludedByKey(n: nat)
      modifies this`objects
      ensures objects == old(objects).Plus(QUIET.(excludedByKey := n))
    {
      objects := objects.(excludedByKey := objects.excludedByKey + n);
    }

    method AddUnrecognizedObjects(n: nat)
      modifies this`objects
      ensures objects == old(objects).Plus(QUIET.(unrecognized := n))
    {
      objects := objects.(unrecognized := objects.unrecognized + n);
    }

    method AddObjectsCopiedUnparsed(n: nat)
      modifies this`objects
      ensures objects == old(objects).Plus(QUIET.(copiedUnparsed := n))
    {
      objects := objects.(copiedUnparsed := objects.copiedUnparsed + n);
    }

    method AddBytesIn(n: nat)
      modifies this`objects
      ensures objects == old(objects).Plus(QUIET.(bytesIn := n))
    {
      objects := objects.(bytesIn := objects.bytesIn + n);
    }

    method AddBytesOut(n: nat)
      modifies this`objects
      ensures objects == old(objects).Plus(QUIET.(bytesOut := n))
    {
      objects := objects.(bytesOut := objects.bytesOut + n);
    }

    method AddDecodeErrors(n: nat)
      modifies this`objects
      ensures objects == old(objects).Plus(QUIET.(decodeErrors := n))
    {
      objects := objects.(decodeErrors := objects.decodeErrors + n);
    }

    method AddItemsWithoutObjects(n: nat)
      modifies this`objects
      ensures objects == old(objects).Plus(QUIET.(itemsWithoutObjects := n))
    {
      objects := objects.(itemsWithoutObjects := objects.itemsWithoutObjects + n);
    }

    method AddRecords(n: nat, kept: nat, dropped: nat, unparsed: nat)
      modifies this
      ensures recordsIn == old(recordsIn) + n && recordsKept == old(recordsKept) + kept
      ensures recordsDropped == old(recordsDropped) + dropped && parseErrors == old(parseErrors) + unparsed
      ensures ruleDrops == old(ruleDrops) && objects == old(objects) && coldStartEmitted == old(coldStartEmitted)
    {
      recordsIn := recordsIn + n;
      recordsKept := recordsKept + kept;
      recordsDropped := recordsDropped + dropped;
      parseErrors := parseErrors + unparsed;
    }

    method RecordRuleDrops(name: string, n: nat)
      modifies this`ruleDrops
      ensures Sum(ruleDrops) == old(Sum(ruleDrops)) + n
      ensures forall other :: Get(ruleDrops, other) == Get(old(ruleDrops), other) + if other == name then n else 0
    {
      if n == 0 {
        return;
      }
      SumBump(ruleDrops, name, n);
      ruleDrops := ruleDrops[name := Get(ruleDrops, name) + n];
    }

    /** Reads every counter and zeroes it: a snapshot is the delta since the last one. */
    method SnapshotAndReset() returns (s: Snapshot)
      requires Reconciles()
      modifies this
      ensures s.coldStart == !old(coldStartEmitted) && coldStartEmitted
      ensures s.objects == old(objects) && s.ruleDrops == old(ruleDrops)
      ensures s.records == RecordTotals(old(recordsIn), old(recordsKept), old(recordsDropped), old(parseErrors), old(Sum(ruleDrops)))
      ensures s.records.recordsIn == s.records.kept + s.records.dropped && Sum(s.ruleDrops) == s.records.dropped
      ensures Reconciles() && Totals() == RecordTotals(0, 0, 0, 0, 0)
      ensures View() == MetricsView(QUIET, 0, 0, 0, 0, map[])
    {
      s := Snapshot(!coldStartEmitted, objects,
                    RecordTotals(recordsIn, recordsKept, recordsDropped, parseErrors, recordsDropped), ruleDrops);
      coldStartEmitted := true;
      objects := QUIET;
      recordsIn, recordsKept, recordsDropped, parseErrors, ruleDrops := 0, 0, 0, 0, map[];
    }
  }
}
