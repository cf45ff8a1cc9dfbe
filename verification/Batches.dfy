/**
 A batch of messages: which objects are worked on, and how their results, in submission order,
 become the batch's answer.
 */
module Batches {
  import opened Wrappers
  import opened Errors
  import opened Objects

  datatype ObjectRef = ObjectRef(bucket: string, key: string, size: Option<nat>)

  datatype SourceItem = SourceItem(ackId: Option<string>, objects: seq<ObjectRef>, decodeError: Option<string>)

  /** One object that passed every check, bound to the item that named it. */
  datatype Work = Work(itemIdx: nat, ref: ObjectRef, dest: Location)

  datatype BatchSettings = BatchSettings(
    destBucket: string, keyPrefix: string, allows: string -> bool, partialBatchFailures: bool, failClosed: bool)

  function Source(o: ObjectRef): Location {
    (o.bucket, o.key)
  }

  function Destination(b: BatchSettings, o: ObjectRef): Location {
    (b.destBucket, b.keyPrefix + o.key)
  }

  /** The guard: the destination is the source, or the source lies under the output's own prefix. */
  predicate SelfTriggers(b: BatchSettings, o: ObjectRef) {
    b.destBucket == o.bucket && (b.keyPrefix + o.key == o.key || (b.keyPrefix != "" && b.keyPrefix <= o.key))
  }

  // ----- Which objects are worked on -----

  function WorkOfItem(b: BatchSettings, itemIdx: nat, objects: seq<ObjectRef>): seq<Work> {
    if objects == [] then []
    else
      var last := objects[|objects| - 1];
      WorkOfItem(b, itemIdx, objects[..|objects| - 1]) + if b.allows(last.key) then [Work(itemIdx, last, Destination(b, last))] else []
  }

  function WorkOf(b: BatchSettings, items: seq<SourceItem>): seq<Work> {
    if items == [] then []
    else
      var n := |items| - 1;
      WorkOf(b, items[..n]) + if items[n].decodeError.Some? then [] else WorkOfItem(b, n, items[n].objects)
  }

  /** An object of a readable item that the key filter admits. */
  ghost predicate InScope(b: BatchSettings, items: seq<SourceItem>, i: nat, k: nat)
    requires i < |items| && k < |items[i].objects|
  {
    items[i].decodeError.None? && b.allows(items[i].objects[k].key)
  }

  /** Some object in scope would be written over itself, or read back in. */
  ghost predicate AnySelfTrigger(b: BatchSettings, items: seq<SourceItem>) {
    exists i, k :: 0 <= i < |items| && 0 <= k < |items[i].objects| && InScope(b, items, i, k) && SelfTriggers(b, items[i].objects[k])
  }

  lemma {:induction false} WorkOfItemIsWork(b: BatchSettings, itemIdx: nat, objects: seq<ObjectRef>)
    ensures forall w :: w in WorkOfItem(b, itemIdx, objects) ==>
              w.itemIdx == itemIdx && w.ref in objects && b.allows(w.ref.key) && w.dest == Destination(b, w.ref)
    ensures forall o :: o in objects && b.allows(o.key) ==> Work(itemIdx, o, Destination(b, o)) in WorkOfItem(b, itemIdx, objects)
  {
    if objects != [] {
      var n := |objects| - 1;
      WorkOfItemIsWork(b, itemIdx, objects[..n]);
      assert objects == objects[..n] + [objects[n]];
    }
  }

  /** The work is every object in scope, in source order, each bound to its item. */
  lemma {:induction false} WorkIsInScope(b: BatchSettings, items: seq<SourceItem>)
    ensures forall w :: w in WorkOf(b, items) ==>
              w.itemIdx < |items| && items[w.itemIdx].decodeError.None? && w.ref in items[w.itemIdx].objects &&
              b.allows(w.ref.key) && w.dest == Destination(b, w.ref)
    ensures forall i, k :: 0 <= i < |items| && 0 <= k < |items[i].objects| && InScope(b, items, i, k) ==>
              Work(i, items[i].objects[k], Destination(b, items[i].objects[k])) in WorkOf(b, items)
    ensures forall j, k :: 0 <= j < k < |WorkOf(b, items)| ==> WorkOf(b, items)[j].itemIdx <= WorkOf(b, items)[k].itemIdx
  {
    if items != [] {
      var n := |items| - 1;
      WorkIsInScope(b, items[..n]);
      if items[n].decodeError.None? {
        WorkOfItemIsWork(b, n, items[n].objects);
        WorkOfItemIndices(b, n, items[n].objects);
      }
      forall i, k | 0 <= i < |items| && 0 <= k < |items[i].objects| && InScope(b, items, i, k)
        ensures Work(i, items[i].objects[k], Destination(b, items[i].objects[k])) in WorkOf(b, items)
      {
        if i < n {
          assert InScope(b, items[..n], i, k);
        } else {
          assert items[n].objects[k] in items[n].objects;
        }
      }
    }
  }

  lemma WorkOfItemIndices(b: BatchSettings, itemIdx: nat, objects: seq<ObjectRef>)
    ensures forall j :: 0 <= j < |WorkOfItem(b, itemIdx, objects)| ==> WorkOfItem(b, itemIdx, objects)[j].itemIdx == itemIdx
  {
    WorkOfItemIsWork(b, itemIdx, objects);
    assert forall j :: 0 <= j < |WorkOfItem(b, itemIdx, objects)| ==> WorkOfItem(b, itemIdx, objects)[j] in WorkOfItem(b, itemIdx, objects);
  }

  /** Where a work entry comes from: object `at.1` of item `at.0`, in scope, bound to its destination. */
  ghost predicate ComesFrom(b: BatchSettings, items: seq<SourceItem>, at: (nat, nat), w: Work) {
    && at.0 < |items| && at.1 < |items[at.0].objects| && InScope(b, items, at.0, at.1)
    && w == Work(at.0, items[at.0].objects[at.1], Destination(b, items[at.0].objects[at.1]))
  }

  predicate Earlier(x: (nat, nat), y: (nat, nat)) {
    x.0 < y.0 || (x.0 == y.0 && x.1 < y.1)
  }

  /** The places name, in order and once each, the objects the entries were made of. */
  ghost predicate Ordered(b: BatchSettings, items: seq<SourceItem>, places: seq<(nat, nat)>, work: seq<Work>) {
    && |places| == |work|
    && (forall j :: 0 <= j < |places| ==> ComesFrom(b, items, places[j], work[j]))
    && (forall j, l :: 0 <= j < l < |places| ==> Earlier(places[j], places[l]))
  }

  ghost predicate Complete(b: BatchSettings, items: seq<SourceItem>, places: seq<(nat, nat)>) {
    forall i: nat, k: nat :: i < |items| && k < |items[i].objects| && InScope(b, items, i, k) ==> (i, k) in places
  }

  /** One item's objects in scope, up to `upTo`, are its part of the work. */
  lemma {:induction false} ItemInOrder(b: BatchSettings, items: seq<SourceItem>, i: nat, upTo: nat) returns (here: seq<(nat, nat)>)
    requires i < |items| && items[i].decodeError.None? && upTo <= |items[i].objects|
    ensures Ordered(b, items, here, WorkOfItem(b, i, items[i].objects[..upTo]))
    ensures forall j :: 0 <= j < |here| ==> here[j].0 == i && here[j].1 < upTo
    ensures forall k: nat :: k < upTo && b.allows(items[i].objects[k].key) ==> (i, k) in here
  {
    here := [];
    if upTo > 0 {
      var objects := items[i].objects;
      assert objects[..upTo][..upTo - 1] == objects[..upTo - 1];
      here := ItemInOrder(b, items, i, upTo - 1);
      if b.allows(objects[upTo - 1].key) {
        here := here + [(i, upTo - 1)];
      }
    }
  }

  lemma OrderedMore(b: BatchSettings, items: seq<SourceItem>, places: seq<(nat, nat)>, work: seq<Work>)
    requires items != [] && Ordered(b, items[..|items| - 1], places, work)
    ensures Ordered(b, items, places, work) && forall j :: 0 <= j < |places| ==> places[j].0 < |items| - 1
  {
    forall j | 0 <= j < |places| ensures ComesFrom(b, items, places[j], work[j]) && places[j].0 < |items| - 1 {
      assert ComesFrom(b, items[..|items| - 1], places[j], work[j]);
    }
  }

  lemma OrderedConcat(
      b: BatchSettings, items: seq<SourceItem>, p: seq<(nat, nat)>, v: seq<Work>, q: seq<(nat, nat)>, w: seq<Work>, i: nat)
    requires Ordered(b, items, p, v) && Ordered(b, items, q, w)
    requires forall j :: 0 <= j < |p| ==> p[j].0 < i
    requires forall j :: 0 <= j < |q| ==> q[j].0 == i
    ensures Ordered(b, items, p + q, v + w)
  {
    hide ComesFrom;
    forall j | 0 <= j < |p + q| ensures ComesFrom(b, items, (p + q)[j], (v + w)[j]) {
      if j >= |p| {
        assert ComesFrom(b, items, q[j - |p|], w[j - |p|]);
      }
    }
  }

  /**
   The work lists the objects in scope one by one, each exactly once, item by item and in the
   order of each item's own list.
   */
  lemma {:induction false} WorkInOrder(b: BatchSettings, items: seq<SourceItem>) returns (places: seq<(nat, nat)>)
    ensures Ordered(b, items, places, WorkOf(b, items)) && Complete(b, items, places)
  {
    hide Ordered, WorkOfItem;
    places := [];
    if items == [] {
      assert Ordered(b, items, [], []) by {
        NothingOrdered(b, items);
      }
    } else {
      var n := |items| - 1;
      places := WorkInOrder(b, items[..n]);
      OrderedMore(b, items, places, WorkOf(b, items[..n]));
      forall i: nat, k: nat | i < n && k < |items[i].objects| && InScope(b, items, i, k) ensures (i, k) in places {
        assert InScope(b, items[..n], i, k);
      }
      if items[n].decodeError.None? {
        var objects := items[n].objects;
        var here := ItemInOrder(b, items, n, |objects|);
        assert objects[..|objects|] == objects;
        OrderedConcat(b, items, places, WorkOf(b, items[..n]), here, WorkOfItem(b, n, objects), n);
        places := places + here;
      } else {
        assert WorkOf(b, items[..n]) + [] == WorkOf(b, items[..n]);
      }
    }
  }

  lemma NothingOrdered(b: BatchSettings, items: seq<SourceItem>)
    ensures Ordered(b, items, [], [])
  {
  }

  /**
   The guard looks at one object at a time, yet no work entry's destination is any entry's
   source, across all pairs.
   */
  lemma NoDestinationIsSource(b: BatchSettings, items: seq<SourceItem>, v: Work, w: Work)
    requires !AnySelfTrigger(b, items) && v in WorkOf(b, items) && w in WorkOf(b, items)
    ensures v.dest != Source(w.ref)
  {
    WorkIsInScope(b, items);
    var k :| 0 <= k < |items[w.itemIdx].objects| && items[w.itemIdx].objects[k] == w.ref;
    assert InScope(b, items, w.itemIdx, k);
    assert !SelfTriggers(b, w.ref);
    assert b.keyPrefix <= b.keyPrefix + v.ref.key;
    assert "" + w.ref.key == w.ref.key;
  }

  // ----- How results become the answer -----

  /** Keeps the lowest item seen; an item's first error stays. */
  function NoteHardError(slot: Option<(nat, CoreError)>, itemIdx: nat, e: CoreError): Option<(nat, CoreError)> {
    if slot.None? || itemIdx < slot.value.0 then Some((itemIdx, e)) else slot
  }

  /** A failure of such an item is reported for its message alone. */
  predicate Isolated(b: BatchSettings, items: seq<SourceItem>, i: nat)
    requires i < |items|
  {
    b.partialBatchFailures && items[i].ackId.Some?
  }

  /** The first error among an item's results. */
  function FirstError(work: seq<Work>, results: seq<Result<(), CoreError>>, i: nat): Option<CoreError>
    requires |results| <= |work|
  {
    if results == [] then None
    else
      var n := |results| - 1;
      var earlier := FirstError(work, results[..n], i);
      if earlier.Some? then earlier
      else if work[n].itemIdx == i && results[n].Err? then Some(results[n].error) else None
  }

  /** An item's first failure: its body did not decode, or one of its objects failed. */
  function Failure(
      items: seq<SourceItem>, work: seq<Work>, results: seq<Result<(), CoreError>>, i: nat): Option<CoreError>
    requires i < |items| && |results| <= |work|
  {
    if items[i].decodeError.Some? then Some(Decode) else FirstError(work, results, i)
  }

  /** An item fails exactly if it did not decode or some object of it failed. */
  lemma {:induction false} FailureMeans(
      items: seq<SourceItem>, work: seq<Work>, results: seq<Result<(), CoreError>>, i: nat)
    requires i < |items| && |results| <= |work|
    ensures Failure(items, work, results, i).Some? <==>
            items[i].decodeError.Some? || exists j :: 0 <= j < |results| && work[j].itemIdx == i && results[j].Err?
  {
    if results != [] && items[i].decodeError.None? {
      var n := |results| - 1;
      FailureMeans(items, work, results[..n], i);
      if j :| 0 <= j < n && work[j].itemIdx == i && results[..n][j].Err? {
        assert results[j].Err?;
      }
      if j :| 0 <= j < |results| && work[j].itemIdx == i && results[j].Err? {
        assert j < n ==> results[..n][j].Err?;
      }
    }
  }

  /** The held error is that of the lowest failing item that is not isolated, and its first. */
  ghost predicate Held(
      b: BatchSettings, items: seq<SourceItem>, work: seq<Work>, results: seq<Result<(), CoreError>>,
      slot: Option<(nat, CoreError)>)
    requires |results| <= |work|
  {
    match slot
    case None => forall i :: 0 <= i < |items| && !Isolated(b, items, i) ==> Failure(items, work, results, i).None?
    case Some((i, e)) =>
      && i < |items| && !Isolated(b, items, i) && Failure(items, work, results, i) == Some(e)
      && forall j :: 0 <= j < i && !Isolated(b, items, j) ==> Failure(items, work, results, j).None?
  }

  /** The messages to re-drive are the isolated ones that failed. */
  ghost predicate Flagged(
      b: BatchSettings, items: seq<SourceItem>, work: seq<Work>, results: seq<Result<(), CoreError>>,
      failed: seq<bool>)
    requires |results| <= |work|
  {
    |failed| == |items| &&
    forall i :: 0 <= i < |items| ==> (failed[i] <==> Isolated(b, items, i) && Failure(items, work, results, i).Some?)
  }

  /** After the first `n` items were classified: those that did not decode are flagged, or held. */
  ghost predicate Noted(
      b: BatchSettings, items: seq<SourceItem>, n: nat, failed: seq<bool>, slot: Option<(nat, CoreError)>)
    requires n <= |items|
  {
    && |failed| == |items|
    && (forall j :: 0 <= j < |items| ==> (failed[j] <==> j < n && Isolated(b, items, j) && items[j].decodeError.Some?))
    && match slot
       case None => forall j :: 0 <= j < n && !Isolated(b, items, j) ==> items[j].decodeError.None?
       case Some((i, e)) =>
         && i < n && !Isolated(b, items, i) && items[i].decodeError.Some? && e == Decode
         && forall j :: 0 <= j < i && !Isolated(b, items, j) ==> items[j].decodeError.None?
  }

  lemma NotedAll(
      b: BatchSettings, items: seq<SourceItem>, work: seq<Work>, failed: seq<bool>,
      slot: Option<(nat, CoreError)>)
    requires Noted(b, items, |items|, failed, slot)
    ensures Flagged(b, items, work, [], failed) && Held(b, items, work, [], slot)
  {
  }

  /** An item whose body did not decode fails by itself, or fails the batch. */
  method NoteUndecoded(
      b: BatchSettings, items: seq<SourceItem>, i: nat, failed: seq<bool>, slot: Option<(nat, CoreError)>)
      returns (failed': seq<bool>, slot': Option<(nat, CoreError)>)
    requires i < |items| && items[i].decodeError.Some? && Noted(b, items, i, failed, slot)
    ensures Noted(b, items, i + 1, failed', slot')
  {
    failed', slot' := failed, slot;
    if b.partialBatchFailures && items[i].ackId.Some? {
      failed' := failed[i := true];
    } else {
      slot' := NoteHardError(slot, i, Decode);
    }
  }

  lemma FailureGrows(
      items: seq<SourceItem>, work: seq<Work>, results: seq<Result<(), CoreError>>, r: Result<(), CoreError>,
      i: nat)
    requires i < |items| && |results| < |work|
    ensures Failure(items, work, results + [r], i) ==
            if Failure(items, work, results, i).Some? then Failure(items, work, results, i)
            else if work[|results|].itemIdx == i && r.Err? then Some(r.error) else None
  {
    assert (results + [r])[..|results|] == results;
  }

  /** One result, taken in submission order. */
  method Adjudicate(
    b: BatchSettings, items: seq<SourceItem>, work: seq<Work>, ghost results: seq<Result<(), CoreError>>,
    done: nat, r: Result<(), CoreError>, failed: seq<bool>, slot: Option<(nat, CoreError)>)
      returns (failed': seq<bool>, slot': Option<(nat, CoreError)>)
    requires done == |results| < |work| && work[done].itemIdx < |items| && items[work[done].itemIdx].decodeError.None?
    requires Flagged(b, items, work, results, failed) && Held(b, items, work, results, slot)
    ensures Flagged(b, items, work, results + [r], failed') && Held(b, items, work, results + [r], slot')
  {
    failed', slot' := failed, slot;
    var i := work[done].itemIdx;
    if r.Err? {
      if b.partialBatchFailures && items[i].ackId.Some? {
        failed' := failed[i := true];
      } else {
        slot' := NoteHardError(slot, i, r.error);
      }
    }
    forall j | 0 <= j < |items|
      ensures Failure(items, work, results + [r], j) ==
              if Failure(items, work, results, j).Some? then Failure(items, work, results, j)
              else if i == j && r.Err? then Some(r.error) else None
    {
      FailureGrows(items, work, results, r, j);
    }
  }

  /** The ack ids of flagged items, in source order, one for each. */
  function FailedAcks(items: seq<SourceItem>, failed: seq<bool>): seq<string>
    requires |failed| == |items|
  {
    if items == [] then []
    else
      var n := |items| - 1;
      FailedAcks(items[..n], failed[..n]) + if failed[n] && items[n].ackId.Some? then [items[n].ackId.value] else []
  }

  method CollectAcks(items: seq<SourceItem>, failed: seq<bool>) returns (acks: seq<string>)
    requires |failed| == |items|
    ensures acks == FailedAcks(items, failed)
  {
    acks := [];
    for i := 0 to |items|
      invariant acks == FailedAcks(items[..i], failed[..i])
    {
      assert items[..i + 1][..i] == items[..i] && failed[..i + 1][..i] == failed[..i];
      if failed[i] && items[i].ackId.Some? {
        acks := acks + [items[i].ackId.value];
      } else {
        assert acks + [] == acks;
      }
    }
    assert items[..|items|] == items && failed[..|items|] == failed;
  }

  ghost predicate AnswersWith(
    b: BatchSettings, items: seq<SourceItem>, work: seq<Work>, results: seq<Result<(), CoreError>>, r: Result<seq<string>, CoreError>,
    failed: seq<bool>, slot: Option<(nat, CoreError)>)
    requires |results| == |work|
  {
    && Flagged(b, items, work, results, failed) && Held(b, items, work, results, slot)
    && r == if slot.Some? then Err(slot.value.1) else Ok(FailedAcks(items, failed))
  }

  /** What a batch answers, given what its objects came to. */
  ghost predicate Answers(
    b: BatchSettings, items: seq<SourceItem>, work: seq<Work>, results: seq<Result<(), CoreError>>, r: Result<seq<string>, CoreError>)
    requires |results| == |work|
  {
    exists failed, slot :: AnswersWith(b, items, work, results, r, failed, slot)
  }

  lemma HeldUnique(
      b: BatchSettings, items: seq<SourceItem>, work: seq<Work>, results: seq<Result<(), CoreError>>,
      s: Option<(nat, CoreError)>, t: Option<(nat, CoreError)>)
    requires |results| <= |work| && Held(b, items, work, results, s) && Held(b, items, work, results, t)
    ensures s == t
  {
  }

  /** The answer follows from the results alone. */
  lemma AnswerUnique(
      b: BatchSettings, items: seq<SourceItem>, work: seq<Work>, results: seq<Result<(), CoreError>>,
      r: Result<seq<string>, CoreError>, r': Result<seq<string>, CoreError>)
    requires |results| == |work| && Answers(b, items, work, results, r) && Answers(b, items, work, results, r')
    ensures r == r'
  {
    var failed, slot :| AnswersWith(b, items, work, results, r, failed, slot);
    var failed', slot' :| AnswersWith(b, items, work, results, r', failed', slot');
    HeldUnique(b, items, work, results, slot, slot');
    assert failed == failed';
  }

  lemma {:induction false} AcksAreFailed(items: seq<SourceItem>, failed: seq<bool>)
    requires |failed| == |items|
    ensures forall ack :: ack in FailedAcks(items, failed) <==> exists i :: 0 <= i < |items| && failed[i] && items[i].ackId == Some(ack)
  {
    if items != [] {
      var n := |items| - 1;
      AcksAreFailed(items[..n], failed[..n]);
      forall ack ensures ack in FailedAcks(items, failed) <==> exists i :: 0 <= i < |items| && failed[i] && items[i].ackId == Some(ack) {
        if i :| 0 <= i < n && failed[..n][i] && items[..n][i].ackId == Some(ack) {
          assert failed[i] && items[i].ackId == Some(ack);
        }
        if i :| 0 <= i < |items| && failed[i] && items[i].ackId == Some(ack) {
          assert i < n ==> failed[..n][i] && items[..n][i].ackId == Some(ack);
        }
      }
    }
  }

  /** The lowest item that fails and whose message cannot be failed by itself. */
  ghost predicate FirstToFail(
      b: BatchSettings, items: seq<SourceItem>, work: seq<Work>, results: seq<Result<(), CoreError>>, i: nat)
    requires i < |items| && |results| <= |work|
  {
    && !Isolated(b, items, i) && Failure(items, work, results, i).Some?
    && forall j :: 0 <= j < i && !Isolated(b, items, j) ==> Failure(items, work, results, j).None?
  }

  /**
   No failed work is acknowledged: an `Ok` names the messages whose body did not decode or whose
   object failed, and only those; and any failure that cannot be named fails the batch.
   */
  lemma NothingFailedIsAcknowledged(
      b: BatchSettings, items: seq<SourceItem>, work: seq<Work>, results: seq<Result<(), CoreError>>,
      r: Result<seq<string>, CoreError>)
    requires |results| == |work| && Answers(b, items, work, results, r)
    ensures r.Ok? ==> forall i :: 0 <= i < |items| && Failure(items, work, results, i).Some? ==>
              Isolated(b, items, i) && items[i].ackId.value in r.value
    ensures r.Ok? ==> forall ack :: ack in r.value ==>
              exists i :: 0 <= i < |items| && items[i].ackId == Some(ack) && Failure(items, work, results, i).Some?
    ensures r.Err? ==> exists i ::
              0 <= i < |items| && FirstToFail(b, items, work, results, i) && Failure(items, work, results, i) == Some(r.error)
  {
    hide Failure;
    var failed, slot :| AnswersWith(b, items, work, results, r, failed, slot);
    AcksAreFailed(items, failed);
    if slot.Some? {
      assert FirstToFail(b, items, work, results, slot.value.0);
    }
  }

  // ----- The answer, from the results alone -----

  /** An item whose body did not decode, or one of whose objects failed. */
  predicate Spoiled(items: seq<SourceItem>, work: seq<Work>, results: seq<Result<(), CoreError>>, i: nat)
    requires i < |items| && |results| == |work|
  {
    items[i].decodeError.Some? || exists j :: 0 <= j < |results| && work[j].itemIdx == i && results[j].Err?
  }

  /** What an item failed with: its body did not decode, or else the first of its failed objects. */
  ghost predicate FailedWith(items: seq<SourceItem>, work: seq<Work>, results: seq<Result<(), CoreError>>, i: nat, error: CoreError)
    requires i < |items| && |results| == |work|
  {
    if items[i].decodeError.Some? then error == Decode
    else
      exists j :: 0 <= j < |results| && work[j].itemIdx == i && results[j] == Err(error) &&
                  forall l :: 0 <= l < j && work[l].itemIdx == i ==> results[l].Ok?
  }

  /** The items at these places, in order, are the spoiled ones, and these are their ack ids. */
  ghost predicate NamesSpoiled(
      items: seq<SourceItem>, work: seq<Work>, results: seq<Result<(), CoreError>>, acks: seq<string>, at: seq<nat>)
    requires |results| == |work|
  {
    && |at| == |acks| && (forall j, k :: 0 <= j < k < |at| ==> at[j] < at[k])
    && (forall k :: 0 <= k < |at| ==> at[k] < |items| && items[at[k]].ackId == Some(acks[k]))
    && forall i: nat :: i < |items| ==> (i in at <==> Spoiled(items, work, results, i))
  }

  lemma {:induction false} FirstErrorIs(work: seq<Work>, results: seq<Result<(), CoreError>>, i: nat)
    requires |results| <= |work|
    ensures var e := FirstError(work, results, i);
            if e.None? then forall j :: 0 <= j < |results| && work[j].itemIdx == i ==> results[j].Ok?
            else
              exists j :: 0 <= j < |results| && work[j].itemIdx == i && results[j] == Err(e.value) &&
                          forall l :: 0 <= l < j && work[l].itemIdx == i ==> results[l].Ok?
  {
    if results != [] {
      var n := |results| - 1;
      FirstErrorIs(work, results[..n], i);
      if FirstError(work, results[..n], i).Some? {
        var e := FirstError(work, results[..n], i).value;
        var j :| 0 <= j < n && work[j].itemIdx == i && results[..n][j] == Err(e) &&
                 forall l :: 0 <= l < j && work[l].itemIdx == i ==> results[..n][l].Ok?;
        assert results[j] == Err(e);
        forall l | 0 <= l < j && work[l].itemIdx == i ensures results[l].Ok? {
          assert results[..n][l].Ok?;
        }
      } else {
        forall j | 0 <= j < n && work[j].itemIdx == i ensures results[j].Ok? {
          assert results[..n][j].Ok?;
        }
      }
    }
  }

  /** The places name, in order, the flagged items, and these are their ack ids. */
  ghost predicate Picks(items: seq<SourceItem>, failed: seq<bool>, acks: seq<string>, at: seq<nat>)
    requires |failed| == |items|
  {
    && |at| == |acks| && (forall j, k :: 0 <= j < k < |at| ==> at[j] < at[k])
    && (forall k :: 0 <= k < |at| ==> at[k] < |items| && failed[at[k]] && items[at[k]].ackId == Some(acks[k]))
    && forall i: nat :: i < |items| && failed[i] ==> i in at
  }

  lemma PicksMore(items: seq<SourceItem>, failed: seq<bool>, acks: seq<string>, at: seq<nat>)
    requires |failed| == |items| > 0 && Picks(items[..|items| - 1], failed[..|items| - 1], acks, at)
    requires failed[|items| - 1] ==> items[|items| - 1].ackId.Some?
    ensures if failed[|items| - 1] then Picks(items, failed, acks + [items[|items| - 1].ackId.value], at + [|items| - 1])
            else Picks(items, failed, acks, at)
  {
    var n := |items| - 1;
    forall i: nat | i < n && failed[i] ensures i in at {
      assert failed[..n][i];
    }
    forall k | 0 <= k < |at| ensures at[k] < n && failed[at[k]] && items[at[k]].ackId == Some(acks[k]) {
      assert failed[..n][at[k]] && items[..n][at[k]].ackId == Some(acks[k]);
    }
  }

  lemma {:induction false} AcksInOrder(items: seq<SourceItem>, failed: seq<bool>) returns (at: seq<nat>)
    requires |failed| == |items| && forall i :: 0 <= i < |items| && failed[i] ==> items[i].ackId.Some?
    ensures Picks(items, failed, FailedAcks(items, failed), at)
  {
    hide Picks;
    if items == [] {
      at := [];
      assert Picks([], [], [], []) by {
        PicksNothing();
      }
    } else {
      var n := |items| - 1;
      at := AcksInOrder(items[..n], failed[..n]);
      PicksMore(items, failed, FailedAcks(items[..n], failed[..n]), at);
      at := if failed[n] then at + [n] else at;
      assert FailedAcks(items[..n], failed[..n]) + [] == FailedAcks(items[..n], failed[..n]);
    }
  }

  lemma PicksNothing()
    ensures Picks([], [], [], [])
  {
  }

  lemma FailureIsSpoiled(items: seq<SourceItem>, work: seq<Work>, results: seq<Result<(), CoreError>>, i: nat)
    requires i < |items| && |results| == |work|
    ensures Failure(items, work, results, i).Some? <==> Spoiled(items, work, results, i)
    ensures Failure(items, work, results, i).Some? ==> FailedWith(items, work, results, i, Failure(items, work, results, i).value)
  {
    FirstErrorIs(work, results, i);
  }

  lemma PicksSpoiled(
      items: seq<SourceItem>, work: seq<Work>, results: seq<Result<(), CoreError>>, failed: seq<bool>, acks: seq<string>, at: seq<nat>)
    requires |results| == |work| && |failed| == |items| && Picks(items, failed, acks, at)
    requires forall i :: 0 <= i < |items| ==> (failed[i] <==> Spoiled(items, work, results, i))
    ensures NamesSpoiled(items, work, results, acks, at)
    ensures (forall i :: 0 <= i < |items| ==> !failed[i]) ==> acks == []
  {
    hide Spoiled;
    assert at == [] || failed[at[0]];
  }

  /**
   The answer, for every batch: an error if and only if some spoiled item bears no ack id or the
   setting is off, and then what the lowest such item failed with; otherwise the ack ids of
   exactly the spoiled items, in source order. So with the setting off an `Ok` means that
   nothing failed.
   */
  lemma AnswerIs(b: BatchSettings, items: seq<SourceItem>, work: seq<Work>, results: seq<Result<(), CoreError>>, r: Result<seq<string>, CoreError>)
    requires |results| == |work| && Answers(b, items, work, results, r)
    ensures r.Err? <==> exists i ::
              0 <= i < |items| && Spoiled(items, work, results, i) && (items[i].ackId.None? || !b.partialBatchFailures)
    ensures r.Err? ==> exists i ::
              && 0 <= i < |items| && Spoiled(items, work, results, i) && (items[i].ackId.None? || !b.partialBatchFailures)
              && FailedWith(items, work, results, i, r.error)
              && forall j :: 0 <= j < i && (items[j].ackId.None? || !b.partialBatchFailures) ==> !Spoiled(items, work, results, j)
    ensures r.Ok? ==> exists at :: NamesSpoiled(items, work, results, r.value, at)
    ensures r.Ok? && !b.partialBatchFailures ==> r.value == [] && forall i :: 0 <= i < |items| ==> !Spoiled(items, work, results, i)
  {
    hide Failure, FailedWith, Spoiled, NamesSpoiled, Picks, FailedAcks;
    var failed, slot :| AnswersWith(b, items, work, results, r, failed, slot);
    forall i | 0 <= i < |items|
      ensures Failure(items, work, results, i).Some? <==> Spoiled(items, work, results, i)
      ensures Failure(items, work, results, i).Some? ==> FailedWith(items, work, results, i, Failure(items, work, results, i).value)
    {
      FailureIsSpoiled(items, work, results, i);
    }
    if slot.Some? {
      assert Spoiled(items, work, results, slot.value.0);
    } else {
      var at := AcksInOrder(items, failed);
      assert forall i :: 0 <= i < |items| ==> (failed[i] <==> Spoiled(items, work, results, i));
      PicksSpoiled(items, work, results, failed, r.value, at);
    }
  }

  // ----- Where objects go -----

  /** The destination: the configured bucket, and there the prefix followed by the source's key. */
  lemma DestinationIs(b: BatchSettings, o: ObjectRef)
    ensures Destination(b, o).0 == b.destBucket
    ensures b.keyPrefix <= Destination(b, o).1 && Destination(b, o).1[|b.keyPrefix|..] == o.key
  {
  }

  /** The guard refuses exactly the objects that some object's destination would land on. */
  lemma GuardIff(b: BatchSettings, o: ObjectRef)
    ensures SelfTriggers(b, o) <==> exists other :: Destination(b, other) == Source(o)
  {
    if SelfTriggers(b, o) {
      var other := o.(key := if b.keyPrefix <= o.key then o.key[|b.keyPrefix|..] else o.key);
      assert b.keyPrefix + other.key == o.key;
      assert Destination(b, other) == Source(o);
    }
    if other :| Destination(b, other) == Source(o) {
      assert b.keyPrefix <= b.keyPrefix + other.key;
    }
  }
}
