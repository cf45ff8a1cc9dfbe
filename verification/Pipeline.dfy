/** The batch handler: classify without touching the store, process, adjudicate in submission order. */
module Pipelines {
  import opened Wrappers
  import opened Tally
  import opened Codecs
  import opened Errors
  import opened Buffer
  import opened Effects
  import opened Objects
  import opened Batches

  // ----- What a batch counts -----

  function Excluded(b: BatchSettings, objects: seq<ObjectRef>): nat {
    if objects == [] then 0
    else Excluded(b, objects[..|objects| - 1]) + if b.allows(objects[|objects| - 1].key) then 0 else 1
  }

  function ExcludedIn(b: BatchSettings, items: seq<SourceItem>): nat {
    if items == [] then 0
    else
      var last := items[|items| - 1];
      ExcludedIn(b, items[..|items| - 1]) + if last.decodeError.Some? then 0 else Excluded(b, last.objects)
  }

  function Undecoded(items: seq<SourceItem>): nat {
    if items == [] then 0 else Undecoded(items[..|items| - 1]) + if items[|items| - 1].decodeError.Some? then 1 else 0
  }

  function Empty(items: seq<SourceItem>): nat {
    if items == [] then 0
    else
      var last := items[|items| - 1];
      Empty(items[..|items| - 1]) + if last.decodeError.None? && last.objects == [] then 1 else 0
  }

  function ClassifiedTotals(b: BatchSettings, items: seq<SourceItem>): ObjectTotals {
    QUIET.(decodeErrors := Undecoded(items), itemsWithoutObjects := Empty(items), excludedByKey := ExcludedIn(b, items))
  }

  /** The objects that readable items name. */
  function NamedObjects(items: seq<SourceItem>): nat {
    if items == [] then 0
    else
      var last := items[|items| - 1];
      NamedObjects(items[..|items| - 1]) + if last.decodeError.Some? then 0 else |last.objects|
  }

  lemma {:induction false} WorkOrExcluded(b: BatchSettings, itemIdx: nat, objects: seq<ObjectRef>)
    ensures |WorkOfItem(b, itemIdx, objects)| + Excluded(b, objects) == |objects|
  {
    if objects != [] {
      WorkOrExcluded(b, itemIdx, objects[..|objects| - 1]);
    }
  }

  lemma {:induction false} ExcludedCount(b: BatchSettings, items: seq<SourceItem>)
    ensures ExcludedIn(b, items) + |WorkOf(b, items)| == NamedObjects(items)
  {
    hide Excluded, WorkOfItem;
    if items != [] {
      var n := |items| - 1;
      ExcludedCount(b, items[..n]);
      WorkOrExcluded(b, n, items[n].objects);
    }
  }

  lemma {:induction false} UndecodedCount(items: seq<SourceItem>)
    ensures Undecoded(items) == |set i | 0 <= i < |items| && items[i].decodeError.Some?|
  {
    if items != [] {
      var n := |items| - 1;
      UndecodedCount(items[..n]);
      var before := set i | 0 <= i < n && items[..n][i].decodeError.Some?;
      assert (set i | 0 <= i < |items| && items[i].decodeError.Some?) == if items[n].decodeError.Some? then before + {n} else before;
    }
  }

  lemma {:induction false} EmptyCount(items: seq<SourceItem>)
    ensures Empty(items) == |set i | 0 <= i < |items| && items[i].decodeError.None? && items[i].objects == []|
  {
    if items != [] {
      var n := |items| - 1;
      EmptyCount(items[..n]);
      var before := set i | 0 <= i < n && items[..n][i].decodeError.None? && items[..n][i].objects == [];
      var all := set i | 0 <= i < |items| && items[i].decodeError.None? && items[i].objects == [];
      if items[n].decodeError.None? && items[n].objects == [] {
        assert all == before + {n};
      } else {
        assert all == before;
      }
    }
  }

  /**
   What classification counts, and nothing else: the items that did not decode; those that did
   and name nothing; and of the objects the others name, each that is not worked on.
   */
  lemma ClassifiedCounts(b: BatchSettings, items: seq<SourceItem>)
    ensures |WorkOf(b, items)| <= NamedObjects(items)
    ensures ClassifiedTotals(b, items) == QUIET.(
              decodeErrors := |set i | 0 <= i < |items| && items[i].decodeError.Some?|,
              itemsWithoutObjects := |set i | 0 <= i < |items| && items[i].decodeError.None? && items[i].objects == []|,
              excludedByKey := NamedObjects(items) - |WorkOf(b, items)|)
  {
    hide Excluded, WorkOf, Undecoded, Empty, NamedObjects;
    ExcludedCount(b, items);
    UndecodedCount(items);
    EmptyCount(items);
  }

  /** One object's counters once its result is adjudicated. */
  function Settled(e: Effect): ObjectTotals {
    e.objects.(failed := e.objects.failed + if e.result.Err? then 1 else 0)
  }

  function SumObjects(effects: seq<Effect>): ObjectTotals {
    if effects == [] then QUIET else SumObjects(effects[..|effects| - 1]).Plus(Settled(effects[|effects| - 1]))
  }

  function SumRecords(effects: seq<Effect>): (nat, nat, nat) {
    if effects == [] then (0, 0, 0)
    else
      var (recordsIn, kept, parseErrors) := SumRecords(effects[..|effects| - 1]);
      var c := effects[|effects| - 1].counts;
      (recordsIn + c.recordsIn, kept + c.kept, parseErrors + c.parseErrors)
  }

  ghost function SumDrops(effects: seq<Effect>, names: seq<string>, name: string): nat {
    if effects == [] then 0
    else SumDrops(effects[..|effects| - 1], names, name) + DropsNamed(effects[|effects| - 1].counts.ruleDrops, names, name)
  }

  /** The counters moved by the sum of these effects, failures included. */
  ghost predicate Accrues(before: MetricsView, after: MetricsView, effects: seq<Effect>, names: seq<string>) {
    var (recordsIn, kept, parseErrors) := SumRecords(effects);
    && after.objects == before.objects.Plus(SumObjects(effects))
    && after.recordsIn == before.recordsIn + recordsIn && after.kept == before.kept + kept
    && after.dropped == before.dropped + recordsIn - kept && after.parseErrors == before.parseErrors + parseErrors
    && forall name :: Get(after.ruleDrops, name) == Get(before.ruleDrops, name) + SumDrops(effects, names, name)
  }

  lemma AccruesNothing(v: MetricsView, names: seq<string>)
    ensures Accrues(v, v, [], names)
  {
    QuietPlus(v.objects);
  }

  lemma SettledPlus(a: ObjectTotals, sum: ObjectTotals, e: Effect)
    ensures a.Plus(sum.Plus(Settled(e))) == a.Plus(sum).Plus(e.objects).Plus(QUIET.(failed := if e.result.Err? then 1 else 0))
  {
  }

  lemma AccruesOne(
      a: MetricsView, m: MetricsView, c: MetricsView, d: MetricsView, effects: seq<Effect>, e: Effect,
      names: seq<string>)
    requires Accrues(a, m, effects, names) && Gains(m, c, e.objects, e.counts, names)
    requires d == c.(objects := c.objects.Plus(QUIET.(failed := if e.result.Err? then 1 else 0)))
    ensures Accrues(a, d, effects + [e], names)
  {
    hide DropsNamed, ObjectTotals.Plus, Settled;
    assert (effects + [e])[..|effects|] == effects;
    SettledPlus(a.objects, SumObjects(effects), e);
  }

  /** The bytes the effects land. */
  function BytesLanded(effects: seq<Effect>): nat {
    if effects == [] then 0
    else
      var wrote := effects[|effects| - 1].wrote;
      BytesLanded(effects[..|effects| - 1]) + if wrote.Some? then |wrote.value| else 0
  }

  /** The bytes the sources hold. */
  function BytesHeld(worlds: seq<World>): nat {
    if worlds == [] then 0
    else
      var source := worlds[|worlds| - 1].source;
      BytesHeld(worlds[..|worlds| - 1]) + if source.Some? then |source.value| else 0
  }

  lemma SettledOnce(w: World, e: Effect)
    requires Sound(w, e)
    ensures var o := Settled(e);
            && o.processed + o.skipped + o.failed == 1
            && o.bytesOut == (if e.wrote.Some? then |e.wrote.value| else 0)
            && o.bytesIn <= (if w.source.Some? then |w.source.value| else 0)
  {
    hide Balanced;
  }

  lemma PlusTotals(a: ObjectTotals, b: ObjectTotals)
    ensures var t := a.Plus(b);
            && t.processed == a.processed + b.processed && t.skipped == a.skipped + b.skipped && t.failed == a.failed + b.failed
            && t.bytesOut == a.bytesOut + b.bytesOut && t.bytesIn == a.bytesIn + b.bytesIn
  {
  }

  /** Every work entry is counted once: processed, skipped or failed; output is what landed, input no more than there was. */
  lemma {:induction false} EveryEntryCounted(worlds: seq<World>, effects: seq<Effect>)
    requires |worlds| == |effects| && forall j :: 0 <= j < |effects| ==> Sound(worlds[j], effects[j])
    ensures var t := SumObjects(effects);
            && t.processed + t.skipped + t.failed == |effects|
            && t.bytesOut == BytesLanded(effects) && t.bytesIn <= BytesHeld(worlds)
  {
    hide Sound, Settled, ObjectTotals.Plus;
    if effects != [] {
      var n := |effects| - 1;
      assert forall j :: 0 <= j < n ==> effects[..n][j] == effects[j] && worlds[..n][j] == worlds[j];
      EveryEntryCounted(worlds[..n], effects[..n]);
      SettledOnce(worlds[n], effects[n]);
      PlusTotals(SumObjects(effects[..n]), Settled(effects[n]));
    }
  }

  // ----- What a batch lands -----

  function Land(objects: map<Location, Bytes>, work: seq<Work>, effects: seq<Effect>): map<Location, Bytes>
    requires |effects| <= |work|
  {
    if effects == [] then objects
    else
      var n := |effects| - 1;
      var before := Land(objects, work, effects[..n]);
      if effects[n].wrote.Some? then before[work[n].dest := effects[n].wrote.value] else before
  }

  function Lookup(objects: map<Location, Bytes>, at: Location): Option<Bytes> {
    if at in objects then Some(objects[at]) else None
  }

  ghost predicate LandsAt(work: seq<Work>, effects: seq<Effect>, i: nat, at: Location)
    requires |effects| <= |work|
  {
    i < |effects| && work[i].dest == at && effects[i].wrote.Some?
  }

  ghost predicate LandsLast(work: seq<Work>, effects: seq<Effect>, m: nat, at: Location)
    requires |effects| <= |work|
  {
    LandsAt(work, effects, m, at) && forall i: nat :: LandsAt(work, effects, i, at) ==> i <= m
  }

  /** One after the other, the last to land at a place decides it. */
  lemma {:induction false} LandAt(objects: map<Location, Bytes>, work: seq<Work>, effects: seq<Effect>, at: Location)
    requires |effects| <= |work|
    ensures (forall i: nat :: !LandsAt(work, effects, i, at)) ==> Lookup(Land(objects, work, effects), at) == Lookup(objects, at)
    ensures forall m: nat :: LandsLast(work, effects, m, at) ==> Lookup(Land(objects, work, effects), at) == effects[m].wrote
  {
    if effects != [] {
      var n := |effects| - 1;
      LandAt(objects, work, effects[..n], at);
      forall i: nat ensures LandsAt(work, effects[..n], i, at) <==> i < n && LandsAt(work, effects, i, at) {
      }
      assert work[n].dest == at && effects[n].wrote.Some? ==> LandsAt(work, effects, n, at);
      forall m: nat | LandsLast(work, effects, m, at) ensures Lookup(Land(objects, work, effects), at) == effects[m].wrote {
        if m < n {
          assert !LandsAt(work, effects, n, at);
          assert LandsLast(work, effects[..n], m, at);
        }
      }
    }
  }

  /** A place that changed holds what some entry landed there. */
  lemma {:induction false} LandedBy(objects: map<Location, Bytes>, work: seq<Work>, effects: seq<Effect>, at: Location) returns (i: nat)
    requires |effects| <= |work| && Lookup(Land(objects, work, effects), at) != Lookup(objects, at)
    ensures LandsAt(work, effects, i, at) && Lookup(Land(objects, work, effects), at) == effects[i].wrote
  {
    var n := |effects| - 1;
    if LandsAt(work, effects, n, at) {
      i := n;
    } else {
      i := LandedBy(objects, work, effects[..n], at);
    }
  }

  /** Places no entry writes to keep what they held: in particular every source. */
  lemma {:induction false} LandElsewhere(
      objects: map<Location, Bytes>, work: seq<Work>, effects: seq<Effect>, at: Location)
    requires |effects| <= |work| && forall j :: 0 <= j < |effects| ==> work[j].dest != at
    ensures Lookup(Land(objects, work, effects), at) == Lookup(objects, at)
  {
    if effects != [] {
      LandElsewhere(objects, work, effects[..|effects| - 1], at);
    }
  }

  function Results(effects: seq<Effect>): (results: seq<Result<(), CoreError>>)
    ensures |results| == |effects|
  {
    seq(|effects|, i requires 0 <= i < |effects| => effects[i].result)
  }

  class Pipeline {
    const processor: Processor
    const batch: BatchSettings

    constructor (processor: Processor, batch: BatchSettings)
      ensures this.processor == processor && this.batch == batch
    {
      this.processor, this.batch := processor, batch;
    }

    /** What becomes of one entry, with a ruleset or without. */
    ghost function EffectOf(loaded: bool, w: World): Effect
      requires w.streaming.Finished()
    {
      if loaded then ObjectEffect(processor.job, processor.policies, w) else RawCopyEffect(processor.policies, w)
    }

    /** The objects of one item: filtered, guarded, and bound to it. */
    method ClassifyItem(itemIdx: nat, objects: seq<ObjectRef>) returns (work: Option<seq<Work>>)
      modifies processor.metrics`objects
      ensures work == None <==> exists k :: 0 <= k < |objects| && batch.allows(objects[k].key) && SelfTriggers(batch, objects[k])
      ensures work.Some? ==> work.value == WorkOfItem(batch, itemIdx, objects)
      ensures work.Some? ==> processor.metrics.objects == old(processor.metrics.objects).Plus(
                QUIET.(itemsWithoutObjects := if objects == [] then 1 else 0, excludedByKey := Excluded(batch, objects)))
      ensures work.None? ==> exists n, e :: processor.metrics.objects == old(processor.metrics.objects).Plus(
                QUIET.(itemsWithoutObjects := n, excludedByKey := e, failed := 1))
    {
      var metrics := processor.metrics;
      if objects == [] {
        metrics.AddItemsWithoutObjects(1);
      }
      var entries: seq<Work> := [];
      for k := 0 to |objects|
        invariant forall j :: 0 <= j < k && batch.allows(objects[j].key) ==> !SelfTriggers(batch, objects[j])
        invariant entries == WorkOfItem(batch, itemIdx, objects[..k])
        invariant metrics.objects == old(metrics.objects).Plus(
                    QUIET.(itemsWithoutObjects := if objects == [] then 1 else 0, excludedByKey := Excluded(batch, objects[..k])))
      {
        assert objects[..k + 1][..k] == objects[..k];
        var o := objects[k];
        if !batch.allows(o.key) {
          metrics.AddObjectsExcludedByKey(1);
          assert entries + [] == entries;
          continue;
        }
        var destKey := batch.keyPrefix + o.key;
        var readingOwnOutput := batch.keyPrefix != "" && batch.keyPrefix <= o.key;
        if batch.destBucket == o.bucket && (destKey == o.key || readingOwnOutput) {
          metrics.AddObjectsFailed(1);
          assert metrics.objects == old(metrics.objects).Plus(
                   QUIET.(itemsWithoutObjects := 0, excludedByKey := Excluded(batch, objects[..k]), failed := 1));
          return None;
        }
        entries := entries + [Work(itemIdx, o, (batch.destBucket, destKey))];
      }
      assert objects[..|objects|] == objects;
      work := Some(entries);
    }

    /** The first pass, which touches no object: one self-trigger anywhere refuses the batch. */
    method Classify(
        items: seq<SourceItem>) returns (work: Option<seq<Work>>, failed: seq<bool>, slot: Option<(nat, CoreError)>)
      modifies processor.metrics`objects
      ensures work == None <==> AnySelfTrigger(batch, items)
      ensures work.Some? ==> work.value == WorkOf(batch, items)
      ensures work.Some? ==> Flagged(batch, items, work.value, [], failed) && Held(batch, items, work.value, [], slot)
      ensures work.Some? ==> processor.metrics.objects == old(processor.metrics.objects).Plus(ClassifiedTotals(batch, items))
      ensures work.None? ==> exists d, n, e :: processor.metrics.objects == old(processor.metrics.objects).Plus(
                QUIET.(decodeErrors := d, itemsWithoutObjects := n, excludedByKey := e, failed := 1))
    {
      hide WorkOfItem, Excluded, Isolated, Noted, ObjectTotals.Plus, ClassifiedTotals;
      NothingClassified(old(processor.metrics.objects));
      var metrics := processor.metrics;
      failed, slot := seq(|items|, _ => false), None;
      NothingNoted(items, failed);
      var entries: seq<Work> := [];
      for i := 0 to |items|
        invariant entries == WorkOf(batch, items[..i])
        invariant forall j, k :: 0 <= j < i && 0 <= k < |items[j].objects| && InScope(batch, items, j, k) ==>
                    !SelfTriggers(batch, items[j].objects[k])
        invariant Noted(batch, items, i, failed, slot)
        invariant metrics.objects == old(metrics.objects).Plus(ClassifiedTotals(batch, items[..i]))
      {
        assert items[..i + 1][..i] == items[..i];
        ClassifiedOne(old(metrics.objects), items, i);
        if items[i].decodeError.Some? {
          metrics.AddDecodeErrors(1);
          assert entries + [] == entries;
          failed, slot := NoteUndecoded(batch, items, i, failed, slot);
          continue;
        }
        NotedStill(items, i, failed, slot);
        var more := ClassifyItem(i, items[i].objects);
        if more.None? {
          ghost var k :| 0 <= k < |items[i].objects| && batch.allows(items[i].objects[k].key) && SelfTriggers(batch, items[i].objects[k]);
          assert InScope(batch, items, i, k);
          ghost var n: nat, e: nat :| metrics.objects == old(metrics.objects).Plus(ClassifiedTotals(batch, items[..i])).Plus(
                                        QUIET.(itemsWithoutObjects := n, excludedByKey := e, failed := 1));
          RefusedTotals(old(metrics.objects), items, i, n, e);
          return None, failed, slot;
        }
        entries := entries + more.value;
      }
      assert items[..|items|] == items;
      NotedAll(batch, items, entries, failed, slot);
      work := Some(entries);
    }

    lemma NothingClassified(o: ObjectTotals)
      ensures o == o.Plus(ClassifiedTotals(batch, []))
    {
    }

    lemma ClassifiedOne(o: ObjectTotals, items: seq<SourceItem>, i: nat)
      requires i < |items|
      ensures o.Plus(ClassifiedTotals(batch, items[..i + 1])) ==
              if items[i].decodeError.Some? then o.Plus(ClassifiedTotals(batch, items[..i])).Plus(QUIET.(decodeErrors := 1))
              else o.Plus(ClassifiedTotals(batch, items[..i])).Plus(
                     QUIET.(itemsWithoutObjects := if items[i].objects == [] then 1 else 0,
                            excludedByKey := Excluded(batch, items[i].objects)))
    {
      hide Excluded;
      assert items[..i + 1][..i] == items[..i];
    }

    lemma RefusedTotals(o: ObjectTotals, items: seq<SourceItem>, i: nat, n: nat, e: nat)
      requires i < |items|
      ensures exists d, n', e' ::
                o.Plus(ClassifiedTotals(batch, items[..i])).Plus(QUIET.(itemsWithoutObjects := n, excludedByKey := e, failed := 1)) ==
                o.Plus(QUIET.(decodeErrors := d, itemsWithoutObjects := n', excludedByKey := e', failed := 1))
    {
      var before := items[..i];
      assert o.Plus(ClassifiedTotals(batch, before)).Plus(QUIET.(itemsWithoutObjects := n, excludedByKey := e, failed := 1)) ==
             o.Plus(QUIET.(decodeErrors := Undecoded(before), itemsWithoutObjects := Empty(before) + n,
                           excludedByKey := ExcludedIn(batch, before) + e, failed := 1));
    }

    lemma NothingNoted(items: seq<SourceItem>, failed: seq<bool>)
      requires failed == seq(|items|, _ => false)
      ensures Noted(batch, items, 0, failed, None)
    {
    }

    lemma NotedStill(items: seq<SourceItem>, i: nat, failed: seq<bool>, slot: Option<(nat, CoreError)>)
      requires i < |items| && items[i].decodeError.None? && Noted(batch, items, i, failed, slot)
      ensures Noted(batch, items, i + 1, failed, slot)
    {
    }

    /** One entry: through the rules, or copied as it is when none were ever loaded. */
    method ProcessEntry(loaded: bool, w: World, from: Location, at: Location) returns (r: Result<(), CoreError>)
      requires processor.Ready() && processor.Faces(w, from)
      modifies processor.metrics, processor.store
      ensures processor.Ready()
      ensures Did(EffectOf(loaded, w), r, old(processor.metrics.View()), processor.metrics.View(),
                  old(processor.store.objects), processor.store.objects, at, processor.names)
    {
      hide ObjectEffect, RawCopyEffect, Attributes, Job.Valid, Sum, Gains;
      if loaded {
        r := processor.ProcessObject(w, from, at);
      } else {
        r := processor.RawCopy(w, from, at);
      }
    }

    /** The worlds the entries meet: each source is what the store holds when the batch arrives. */
    ghost predicate Meets(work: seq<Work>, worlds: seq<World>, objects: map<Location, Bytes>) {
      && |worlds| == |work|
      && forall j :: 0 <= j < |work| ==> MeetsOne(work[j], worlds[j], objects)
    }

    ghost predicate MeetsOne(entry: Work, w: World, objects: map<Location, Bytes>) {
      && w.source == Lookup(objects, Source(entry.ref))
      && w.size == entry.ref.size && Fits(processor.job, processor.policies, w)
    }

    /** What earlier entries landed does not show in a later one's source. */
    lemma SourceStays(items: seq<SourceItem>, effects: seq<Effect>, worlds: seq<World>, objects: map<Location, Bytes>)
      requires !AnySelfTrigger(batch, items) && |effects| < |WorkOf(batch, items)|
      requires Meets(WorkOf(batch, items), worlds, objects)
      ensures MeetsOne(WorkOf(batch, items)[|effects|], worlds[|effects|], Land(objects, WorkOf(batch, items), effects))
    {
      hide WorkOf, AnySelfTrigger, Fits;
      var work, n := WorkOf(batch, items), |effects|;
      assert MeetsOne(work[n], worlds[n], objects);
      forall j | 0 <= j < n ensures work[j].dest != Source(work[n].ref) {
        NoDestinationIsSource(batch, items, work[j], work[n]);
      }
      LandElsewhere(objects, work, effects, Source(work[n].ref));
    }

    lemma EntriesAreReadable(items: seq<SourceItem>, j: nat)
      requires j < |WorkOf(batch, items)|
      ensures WorkOf(batch, items)[j].itemIdx < |items| && items[WorkOf(batch, items)[j].itemIdx].decodeError.None?
    {
      WorkIsInScope(batch, items);
      assert WorkOf(batch, items)[j] in WorkOf(batch, items);
    }

    /** The second and third pass, taking one entry at a time. */
    method ProcessAll(
      items: seq<SourceItem>, work: seq<Work>, loaded: bool, worlds: seq<World>, failed0: seq<bool>, slot0: Option<(nat, CoreError)>)
        returns (r: Result<seq<string>, CoreError>, ghost effects: seq<Effect>)
      requires processor.Ready() && work == WorkOf(batch, items) && !AnySelfTrigger(batch, items)
      requires Flagged(batch, items, work, [], failed0) && Held(batch, items, work, [], slot0)
      requires Meets(work, worlds, processor.store.objects)
      modifies processor.metrics, processor.store
      ensures processor.Ready()
      ensures |effects| == |work|
      ensures forall j :: 0 <= j < |work| ==> worlds[j].streaming.Finished() && effects[j] == EffectOf(loaded, worlds[j])
      ensures Answers(batch, items, work, Results(effects), r)
      ensures processor.store.objects == Land(old(processor.store.objects), work, effects)
      ensures Accrues(old(processor.metrics.View()), processor.metrics.View(), effects, processor.names)
    {
      hide WorkOf, AnySelfTrigger, Fits, EffectOf, Flagged, Held, Isolated, Attributes, Job.Valid, Sum, ObjectTotals.Plus, Accrues, Gains,
           Streaming.Finished, SumObjects, SumRecords, DropsNamed, Meets, Land, FailedAcks;
      var failed, slot := failed0, slot0;
      effects := [];
      assert Results([]) == [];
      AccruesNothing(processor.metrics.View(), processor.names);
      LandNothing(processor.store.objects, work);
      MeetsAll(work, worlds, processor.store.objects);
      for done := 0 to |work|
        invariant |effects| == done
        invariant forall j :: 0 <= j < done ==> worlds[j].streaming.Finished() && effects[j] == EffectOf(loaded, worlds[j])
        invariant processor.Ready()
        invariant Flagged(batch, items, work, Results(effects), failed) && Held(batch, items, work, Results(effects), slot)
        invariant processor.store.objects == Land(old(processor.store.objects), work, effects)
        invariant Accrues(old(processor.metrics.View()), processor.metrics.View(), effects, processor.names)
      {
        SourceStays(items, effects, worlds, old(processor.store.objects));
        EntriesAreReadable(items, done);
        ghost var e := EffectOf(loaded, worlds[done]);
        label Before:
        var result := ProcessEntry(loaded, worlds[done], Source(work[done].ref), work[done].dest);
        label After:
        if result.Err? {
          processor.metrics.AddObjectsFailed(1);
        } else {
          QuietPlus(processor.metrics.objects);
        }
        AccruesOne(old(processor.metrics.View()), old@Before(processor.metrics.View()), old@After(processor.metrics.View()),
                   processor.metrics.View(), effects, e, processor.names);
        LandOne(old(processor.store.objects), work, effects, e);
        failed, slot := Adjudicate(batch, items, work, Results(effects), done, result, failed, slot);
        assert Results(effects + [e]) == Results(effects) + [result];
        effects := effects + [e];
      }
      FlaggedSize(items, work, Results(effects), failed);
      var acks := CollectAcks(items, failed);
      r := if slot.Some? then Err(slot.value.1) else Ok(acks);
      assert AnswersWith(batch, items, work, Results(effects), r, failed, slot);
    }

    lemma FlaggedSize(items: seq<SourceItem>, work: seq<Work>, results: seq<Result<(), CoreError>>, failed: seq<bool>)
      requires |results| <= |work| && Flagged(batch, items, work, results, failed)
      ensures |failed| == |items|
    {
    }

    lemma LandNothing(objects: map<Location, Bytes>, work: seq<Work>)
      ensures Land(objects, work, []) == objects
    {
    }

    lemma LandOne(objects: map<Location, Bytes>, work: seq<Work>, effects: seq<Effect>, e: Effect)
      requires |effects| < |work|
      ensures Land(objects, work, effects + [e]) ==
              if e.wrote.Some? then Land(objects, work, effects)[work[|effects|].dest := e.wrote.value] else Land(objects, work, effects)
    {
      assert (effects + [e])[..|effects|] == effects;
    }

    lemma MeetsAll(work: seq<Work>, worlds: seq<World>, objects: map<Location, Bytes>)
      requires Meets(work, worlds, objects)
      ensures |worlds| == |work| && forall j :: 0 <= j < |work| ==> worlds[j].streaming.Finished()
    {
      assert forall j :: 0 <= j < |work| ==> MeetsOne(work[j], worlds[j], objects);
    }

    /** Past the gate: the payload decoded, rules are loaded or not required, nothing would loop. */
    ghost predicate Accepted(decoded: Option<seq<SourceItem>>, loaded: bool) {
      decoded.Some? && (loaded || !batch.failClosed) && !AnySelfTrigger(batch, decoded.value)
    }

    /** What one invocation did: refused without touching an object, or every entry's effect and the batch's answer. */
    ghost predicate Handled(
      decoded: Option<seq<SourceItem>>, loaded: bool, worlds: seq<World>, effects: seq<Effect>, r: Result<seq<string>, CoreError>,
      had: map<Location, Bytes>, has: map<Location, Bytes>, before: MetricsView, after: MetricsView)
    {
      if Accepted(decoded, loaded) then
        var work := WorkOf(batch, decoded.value);
        && |effects| == |work| == |worlds|
        && (forall j :: 0 <= j < |work| ==> worlds[j].streaming.Finished() && effects[j] == EffectOf(loaded, worlds[j]))
        && Answers(batch, decoded.value, work, Results(effects), r) && has == Land(had, work, effects)
        && Accrues(before.(objects := before.objects.Plus(ClassifiedTotals(batch, decoded.value))), after, effects, processor.names)
      else
        && effects == [] && has == had
        && match decoded
           case None => r == Err(Decode) && after == before.(objects := before.objects.Plus(QUIET.(decodeErrors := 1)))
           case Some(items) =>
             if !loaded && batch.failClosed then r == Err(Config) && after == before
             else
               && r == Err(SelfTrigger)
               && exists d, n, e :: after == before.(objects := before.objects.Plus(
                                      QUIET.(decodeErrors := d, itemsWithoutObjects := n, excludedByKey := e, failed := 1)))
    }

    /**
     The whole handler. `decoded` is what the event decoder made of the payload, `loaded` whether
     the rules cache had a ruleset.
     */
    method HandleInner(decoded: Option<seq<SourceItem>>, loaded: bool, worlds: seq<World>)
        returns (r: Result<seq<string>, CoreError>, ghost effects: seq<Effect>)
      requires processor.Ready()
      requires Accepted(decoded, loaded) ==> Meets(WorkOf(batch, decoded.value), worlds, processor.store.objects)
      modifies processor.metrics, processor.store
      ensures processor.Ready()
      ensures Handled(decoded, loaded, worlds, effects, r, old(processor.store.objects), processor.store.objects,
                      old(processor.metrics.View()), processor.metrics.View())
    {
      hide WorkOf, AnySelfTrigger, Attributes, Job.Valid, Sum, Accrues, ClassifiedTotals, Flagged, Held, Land, Answers,
           ObjectTotals.Plus, EffectOf, Meets;
      effects := [];
      if decoded.None? {
        processor.metrics.AddDecodeErrors(1);
        return Err(Decode), [];
      }
      if !loaded && batch.failClosed {
        return Err(Config), [];
      }
      var work, failed, slot := Classify(decoded.value);
      if work.None? {
        return Err(SelfTrigger), [];
      }
      MeetsAll(work.value, worlds, processor.store.objects);
      r, effects := ProcessAll(decoded.value, work.value, loaded, worlds, failed, slot);
    }

    function Seen(s: Snapshot): MetricsView {
      MetricsView(s.objects, s.records.recordsIn, s.records.kept, s.records.dropped, s.records.parseErrors, s.ruleDrops)
    }

    /** One invocation: the handler, then exactly one snapshot of what it counted, which balances. */
    method Handle(decoded: Option<seq<SourceItem>>, loaded: bool, worlds: seq<World>)
        returns (r: Result<seq<string>, CoreError>, snapshot: Snapshot, ghost effects: seq<Effect>)
      requires processor.Ready()
      requires Accepted(decoded, loaded) ==> Meets(WorkOf(batch, decoded.value), worlds, processor.store.objects)
      modifies processor.metrics, processor.store
      ensures processor.Ready() && processor.metrics.View() == MetricsView(QUIET, 0, 0, 0, 0, map[])
      ensures Handled(decoded, loaded, worlds, effects, r, old(processor.store.objects), processor.store.objects,
                      old(processor.metrics.View()), Seen(snapshot))
      ensures snapshot.records.recordsIn == snapshot.records.kept + snapshot.records.dropped
      ensures Sum(snapshot.ruleDrops) == snapshot.records.dropped
    {
      hide WorkOf, AnySelfTrigger, Attributes, Job.Valid, Accrues, Answers, Land, EffectOf, Meets, Sum, Handled, Accepted;
      r, effects := HandleInner(decoded, loaded, worlds);
      snapshot := processor.metrics.SnapshotAndReset();
    }

    /**
     Of an accepted batch, every entry is counted once; the bytes out are those landed; and no
     source is billed for more bytes than it holds, retries and second reads included.
     */
    lemma {:induction false} EntriesCounted(
        items: seq<SourceItem>, loaded: bool, worlds: seq<World>, effects: seq<Effect>,
        objects: map<Location, Bytes>)
      requires Meets(WorkOf(batch, items), worlds, objects) && |effects| == |worlds|
      requires forall j :: 0 <= j < |effects| ==> worlds[j].streaming.Finished() && effects[j] == EffectOf(loaded, worlds[j])
      ensures var t := SumObjects(effects);
              && t.processed + t.skipped + t.failed == |WorkOf(batch, items)|
              && t.bytesOut == BytesLanded(effects) && t.bytesIn <= BytesHeld(worlds)
    {
      hide SumObjects, WorkOf, Streaming.Finished, Fits, Sound, EffectOf;
      forall j | 0 <= j < |effects| ensures Sound(worlds[j], effects[j]) {
        EntrySound(items, loaded, worlds, effects, objects, j);
      }
      EveryEntryCounted(worlds, effects);
    }

    lemma EntrySound(
        items: seq<SourceItem>, loaded: bool, worlds: seq<World>, effects: seq<Effect>, objects: map<Location, Bytes>, j: nat)
      requires Meets(WorkOf(batch, items), worlds, objects) && |effects| == |worlds| && j < |effects|
      requires worlds[j].streaming.Finished() && effects[j] == EffectOf(loaded, worlds[j])
      ensures Sound(worlds[j], effects[j])
    {
      hide WorkOf, Streaming.Finished, Fits, Sound, ObjectEffect, RawCopyEffect;
      assert MeetsOne(WorkOf(batch, items)[j], worlds[j], objects);
      ObjectSound(processor.job, processor.policies, worlds[j]);
      RawCopySound(processor.policies, worlds[j]);
    }

    lemma RawCopySound(p: Policies, w: World)
      ensures Sound(w, RawCopyEffect(p, w))
    {
      CopySound(p, w, true);
    }
  }
}
