/**
 The top level of a log file, as the two readers meet it: the buffered one, a derived struct
 with a fallback to a full parse, and the streaming one, a visitor that emits records as it
 goes. Where they agree on a file is settled exactly.
 */
module Envelopes {
  import opened Wrappers
  import opened Json

  /** One array element: the text it spans, and what that text reads as. */
  datatype Element = Element(span: string, doc: Doc)

  /** A value one level down; arrays keep the spans of their elements, `Plain` is never an array. */
  datatype Field = Elements(items: seq<Element>) | Plain(doc: Doc)

  datatype Entry = Entry(key: Key, value: Field)

  datatype Root = ObjectRoot(entries: seq<Entry>) | ArrayRoot(items: seq<Field>) | ScalarRoot(doc: Doc)

  /** A text is well formed up to what follows its root, or breaks off after some elements were read. */
  datatype Document = WellFormed(root: Root, trailing: bool) | Broken(seen: seq<Element>)

  datatype Verdict = Found | Unrecognized | Malformed

  /** What extraction yields on the whole input: records in order, and how it ends. */
  datatype Plan = Plan(records: seq<string>, verdict: Verdict)

  const RECORDS: string := "Records"

  function Spans(items: seq<Element>): (spans: seq<string>)
    ensures |spans| == |items|
  {
    seq(|items|, i requires 0 <= i < |items| => items[i].span)
  }

  // ----- What a full parse accepts -----

  predicate FieldDecodes(f: Field) {
    match f
    case Elements(items) => forall i :: 0 <= i < |items| ==> Decodes(items[i].doc)
    case Plain(doc) => Decodes(doc)
  }

  predicate EntryDecodes(e: Entry) {
    e.key.Decoded? && FieldDecodes(e.value)
  }

  predicate RootDecodes(root: Root) {
    match root
    case ObjectRoot(entries) => forall i :: 0 <= i < |entries| ==> EntryDecodes(entries[i])
    case ArrayRoot(items) => forall i :: 0 <= i < |items| ==> FieldDecodes(items[i])
    case ScalarRoot(doc) => Decodes(doc)
  }

  predicate IsRecords(e: Entry) {
    e.key == Decoded(RECORDS)
  }

  predicate HasRecordsArray(e: Entry) {
    IsRecords(e) && e.value.Elements?
  }

  // ----- The buffered reader: a derived struct, then a full parse -----

  /**
   The derived struct: of an object, every key must decode and exactly one entry be named
   `Records`, an array; other values are skipped. It also reads an array of exactly its fields.
   */
  function DerivedEnvelope(root: Root): Option<seq<Element>> {
    match root
    case ObjectRoot(entries) =>
      if exists i :: 0 <= i < |entries| && IsOnlyRecords(entries, i) then
        var i :| 0 <= i < |entries| && IsOnlyRecords(entries, i);
        OnlyRecordsUnique(entries, i);
        Some(entries[i].value.items)
      else None
    case ArrayRoot(items) => if |items| == 1 && items[0].Elements? then Some(items[0].items) else None
    case ScalarRoot(_) => None
  }

  predicate IsOnlyRecords(entries: seq<Entry>, i: nat)
    requires i < |entries|
  {
    && HasRecordsArray(entries[i])
    && forall j :: 0 <= j < |entries| ==> entries[j].key.Decoded? && (IsRecords(entries[j]) ==> j == i)
  }

  lemma OnlyRecordsUnique(entries: seq<Entry>, i: nat)
    requires i < |entries| && IsOnlyRecords(entries, i)
    ensures forall j :: 0 <= j < |entries| && IsOnlyRecords(entries, j) ==> j == i
  {
  }

  /** What buffer mode makes of a text. */
  function BufferPlan(document: Document): Plan {
    match document
    case Broken(_) => Plan([], Malformed)
    case WellFormed(root, trailing) =>
      if trailing then Plan([], Malformed)
      else if DerivedEnvelope(root).Some? then Plan(Spans(DerivedEnvelope(root).value), Found)
      else if RootDecodes(root) then Plan([], Unrecognized)
      else Plan([], Malformed)
  }

  // ----- The streaming reader: a visitor -----

  /** Reads one `Records` value: arrays are streamed, of an object only its own keys are decoded. */
  predicate FieldReads(f: Field) {
    match f
    case Elements(_) => true
    case Plain(doc) => if doc.Object? then forall i :: 0 <= i < |doc.members| ==> doc.members[i].key.Decoded? else Decodes(doc)
  }

  /** The entries the visitor gets past: keys decode, and the first `Records` value reads. */
  predicate EntryReads(entries: seq<Entry>, i: nat)
    requires i < |entries|
  {
    entries[i].key.Decoded? && (IsFirstRecords(entries, i) ==> FieldReads(entries[i].value))
  }

  predicate IsFirstRecords(entries: seq<Entry>, i: nat)
    requires i < |entries|
  {
    IsRecords(entries[i]) && forall j :: 0 <= j < i ==> !IsRecords(entries[j])
  }

  predicate RootReads(root: Root) {
    match root
    case ObjectRoot(entries) => forall i :: 0 <= i < |entries| ==> EntryReads(entries, i)
    case ArrayRoot(_) => true
    case ScalarRoot(doc) => Decodes(doc)
  }

  /** The records streamed out of an object: those of its first `Records` array, once reached. */
  ghost predicate Streamed(entries: seq<Entry>, upTo: nat, records: seq<string>)
    requires upTo <= |entries|
  {
    && (forall i :: 0 <= i < upTo && IsFirstRecords(entries, i) ==>
          records == if entries[i].value.Elements? then Spans(entries[i].value.items) else [])
    && ((forall i :: 0 <= i < upTo ==> !IsRecords(entries[i])) ==> records == [])
  }

  /** Streams the elements of one `Records` value; says whether it is an array, or fails. */
  method VisitRecords(f: Field) returns (records: seq<string>, isArray: Option<bool>)
    ensures isArray.Some? <==> FieldReads(f)
    ensures isArray.Some? ==> (isArray.value <==> f.Elements?)
    ensures records == if f.Elements? then Spans(f.items) else []
  {
    records := [];
    match f
    case Elements(items) =>
      for i := 0 to |items|
        invariant records == Spans(items[..i])
      {
        assert Spans(items[..i + 1]) == Spans(items[..i]) + [items[i].span];
        records := records + [items[i].span];
      }
      assert items[..|items|] == items;
      isArray := Some(true);
    case Plain(doc) =>
      if doc.Object? {
        for i := 0 to |doc.members|
          invariant forall j :: 0 <= j < i ==> doc.members[j].key.Decoded?
        {
          if doc.members[i].key.BadKey? {
            return [], None;
          }
        }
        isArray := Some(false);
      } else {
        isArray := if Decodes(doc) then Some(false) else None;
      }
  }

  /** Goes through an object once, counting `Records` keys; only the first one's array is streamed. */
  method VisitObject(entries: seq<Entry>) returns (records: seq<string>, found: Option<bool>)
    ensures found.Some? <==> RootReads(ObjectRoot(entries))
    ensures found.Some? ==>
      (found.value <==> exists i :: 0 <= i < |entries| && IsOnlyRecords(entries, i)) && Streamed(entries, |entries|, records)
  {
    var sawArray, recordsKeys := false, 0;
    ghost var first, second: nat := 0, 0;
    records := [];
    for k := 0 to |entries|
      invariant forall j :: 0 <= j < k ==> EntryReads(entries, j)
      invariant recordsKeys == 0 ==> (forall j :: 0 <= j < k ==> !IsRecords(entries[j])) && !sawArray && records == []
      invariant recordsKeys > 0 ==> first < k && IsFirstRecords(entries, first) && (sawArray <==> entries[first].value.Elements?)
      invariant recordsKeys > 0 ==> records == if sawArray then Spans(entries[first].value.items) else []
      invariant recordsKeys == 1 ==> forall j :: 0 <= j < k && IsRecords(entries[j]) ==> j == first
      invariant recordsKeys > 1 ==> first < second < k && IsRecords(entries[second])
    {
      var entry := entries[k];
      if entry.key.BadKey? {
        assert !EntryReads(entries, k);
        return records, None;
      }
      if IsRecords(entry) {
        recordsKeys := recordsKeys + 1;
        if recordsKeys == 1 {
          assert IsFirstRecords(entries, k);
          first := k;
          var isArray: Option<bool>;
          records, isArray := VisitRecords(entry.value);
          if isArray.None? {
            assert !EntryReads(entries, k);
            return records, None;
          }
          sawArray := isArray.value;
        } else {
          second := k;
        }
      }
    }
    found := Some(sawArray && recordsKeys == 1);
    VisitedAll(entries, first, second, recordsKeys, sawArray);
  }

  /** What the final counts of a visit mean. */
  lemma VisitedAll(entries: seq<Entry>, first: nat, second: nat, recordsKeys: nat, sawArray: bool)
    requires forall j :: 0 <= j < |entries| ==> EntryReads(entries, j)
    requires recordsKeys == 0 ==> (forall j :: 0 <= j < |entries| ==> !IsRecords(entries[j])) && !sawArray
    requires recordsKeys > 0 ==> first < |entries| && IsFirstRecords(entries, first) && (sawArray <==> entries[first].value.Elements?)
    requires recordsKeys == 1 ==> forall j :: 0 <= j < |entries| && IsRecords(entries[j]) ==> j == first
    requires recordsKeys > 1 ==> first < second < |entries| && IsRecords(entries[second])
    ensures sawArray && recordsKeys == 1 <==> exists i :: 0 <= i < |entries| && IsOnlyRecords(entries, i)
    ensures recordsKeys > 0 ==> forall i :: 0 <= i < |entries| && IsFirstRecords(entries, i) ==> i == first
  {
    assert forall j :: 0 <= j < |entries| ==> EntryReads(entries, j) ==> entries[j].key.Decoded?;
    if sawArray && recordsKeys == 1 {
      assert IsOnlyRecords(entries, first);
    }
    if i: nat :| i < |entries| && IsOnlyRecords(entries, i) {
      assert IsRecords(entries[i]);
    }
  }

  /** What stream mode makes of a text. */
  ghost predicate IsStreamPlan(document: Document, plan: Plan) {
    match document
    case Broken(seen) => plan == Plan(Spans(seen), Malformed)
    case WellFormed(root, trailing) =>
      && (plan.verdict == Malformed <==> trailing || !RootReads(root))
      && (plan.verdict == Found <==>
            !trailing && RootReads(root) && root.ObjectRoot? && exists i :: 0 <= i < |root.entries| && IsOnlyRecords(root.entries, i))
      && (plan.verdict != Malformed && root.ObjectRoot? ==> Streamed(root.entries, |root.entries|, plan.records))
  }

  /** The extraction task: the visitor, then the check that nothing follows. */
  method ExtractRecords(document: Document) returns (plan: Plan)
    ensures IsStreamPlan(document, plan)
  {
    match document
    case Broken(seen) =>
      plan := Plan(Spans(seen), Malformed);
    case WellFormed(root, trailing) =>
      var records: seq<string>, found := [], Some(false);
      match root {
        case ObjectRoot(entries) => records, found := VisitObject(entries);
        case ArrayRoot(_) =>
        case ScalarRoot(doc) => found := if Decodes(doc) then Some(false) else None;
      }
      if found.None? || trailing {
        plan := Plan(records, Malformed);
      } else {
        plan := Plan(records, if found.value then Found else Unrecognized);
      }
  }

  // ----- Where the two agree -----

  /** A way down into a value: to a key of an object, or into the value of a member or element. */
  datatype Step = KeyOf(k: nat) | Into(k: nat)

  /** Whether what sits there, a string or a number, does not decode. */
  predicate BadAt(d: Doc, path: seq<Step>) {
    if path == [] then d.Undecodable?
    else
      match d
      case Array(items) => path[0].Into? && path[0].k < |items| && BadAt(items[path[0].k], path[1..])
      case Object(members) =>
        path[0].k < |members| &&
        if path[0].KeyOf? then |path| == 1 && members[path[0].k].key.BadKey? else BadAt(members[path[0].k].value, path[1..])
      case _ => false
  }

  predicate FieldBadAt(f: Field, path: seq<Step>) {
    match f
    case Elements(items) => path != [] && path[0].Into? && path[0].k < |items| && BadAt(items[path[0].k].doc, path[1..])
    case Plain(doc) => BadAt(doc, path)
  }

  /** A place in a file: a key of the root object, or somewhere inside a value one level down. */
  datatype Place = RootKey(i: nat) | Inside(i: nat, path: seq<Step>)

  predicate BadPlace(root: Root, place: Place) {
    match (root, place)
    case (ObjectRoot(entries), RootKey(i)) => i < |entries| && entries[i].key.BadKey?
    case (ObjectRoot(entries), Inside(i, path)) => i < |entries| && FieldBadAt(entries[i].value, path)
    case (ArrayRoot(items), Inside(i, path)) => i < |items| && FieldBadAt(items[i], path)
    case (ScalarRoot(doc), Inside(_, path)) => BadAt(doc, path)
    case _ => false
  }

  /**
   The places the visitor decodes: the root's keys; of the first `Records` value that is no array,
   the whole or, if it is an object, its own keys; and a root that is neither object nor array.
   */
  predicate Looks(root: Root, place: Place) {
    match (root, place)
    case (ObjectRoot(entries), RootKey(_)) => true
    case (ObjectRoot(entries), Inside(i, path)) =>
      && i < |entries| && IsFirstRecords(entries, i) && entries[i].value.Plain?
      && (entries[i].value.doc.Object? ==> |path| == 1 && path[0].KeyOf?)
    case (ScalarRoot(_), _) => true
    case _ => false
  }

  ghost predicate SeesBad(root: Root) {
    exists place :: BadPlace(root, place) && Looks(root, place)
  }

  ghost predicate HoldsBad(root: Root) {
    exists place :: BadPlace(root, place)
  }

  predicate SoleRecords(root: Root) {
    root.ObjectRoot? && exists i :: 0 <= i < |root.entries| && IsOnlyRecords(root.entries, i)
  }

  predicate ArrayOfOne(root: Root) {
    root.ArrayRoot? && |root.items| == 1 && root.items[0].Elements?
  }

  /**
   What a caller can check of a file: something follows the root; or it is an object with one
   `Records` key, an array; or it is not a bare array of one array, and if anything in it does
   not decode then something at which the visitor looks does not.
   */
  ghost predicate Agreeable(document: Document) {
    match document
    case Broken(_) => true
    case WellFormed(root, trailing) =>
      trailing || SoleRecords(root) || (!ArrayOfOne(root) && (HoldsBad(root) ==> SeesBad(root)))
  }

  lemma {:induction false} BadLeaf(d: Doc) returns (path: seq<Step>)
    requires !Decodes(d)
    ensures BadAt(d, path)
  {
    match d
    case Undecodable => path := [];
    case Array(items) =>
      var i :| 0 <= i < |items| && !Decodes(items[i]);
      var rest := BadLeaf(items[i]);
      path := [Into(i)] + rest;
    case Object(members) =>
      var i :| 0 <= i < |members| && !MemberDecodes(members[i]);
      if members[i].key.BadKey? {
        path := [KeyOf(i)];
      } else {
        assert members[i].value < members[i];
        var rest := BadLeaf(members[i].value);
        path := [Into(i)] + rest;
        assert path[1..] == rest;
      }
  }

  lemma {:induction false} NoBadLeaf(d: Doc, path: seq<Step>)
    requires Decodes(d)
    ensures !BadAt(d, path)
  {
    if path != [] {
      match d
      case Array(items) =>
        if path[0].k < |items| {
          NoBadLeaf(items[path[0].k], path[1..]);
        }
      case Object(members) =>
        if path[0].k < |members| {
          assert MemberDecodes(members[path[0].k]);
          NoBadLeaf(members[path[0].k].value, path[1..]);
        }
      case _ =>
    }
  }

  lemma FieldDecodesIff(f: Field)
    ensures FieldDecodes(f) <==> forall path :: !FieldBadAt(f, path)
  {
    match f
    case Elements(items) =>
      if FieldDecodes(f) {
        forall path: seq<Step> | FieldBadAt(f, path) ensures false {
          NoBadLeaf(items[path[0].k].doc, path[1..]);
        }
      } else {
        var i :| 0 <= i < |items| && !Decodes(items[i].doc);
        var rest := BadLeaf(items[i].doc);
        assert ([Into(i)] + rest)[1..] == rest;
        assert FieldBadAt(f, [Into(i)] + rest);
      }
    case Plain(doc) =>
      if Decodes(doc) {
        forall path ensures !FieldBadAt(f, path) {
          NoBadLeaf(doc, path);
        }
      } else {
        var path := BadLeaf(doc);
        assert FieldBadAt(f, path);
      }
  }

  /** A full parse accepts exactly the files without a bad place. */
  lemma DecodesIff(root: Root)
    ensures RootDecodes(root) <==> !HoldsBad(root)
  {
    hide FieldDecodes, FieldBadAt;
    match root
    case ObjectRoot(entries) =>
      forall i | 0 <= i < |entries|
        ensures EntryDecodes(entries[i]) <==> !BadPlace(root, RootKey(i)) && forall path :: !BadPlace(root, Inside(i, path))
      {
        FieldDecodesIff(entries[i].value);
        if path :| FieldBadAt(entries[i].value, path) {
          assert BadPlace(root, Inside(i, path));
        }
      }
    case ArrayRoot(items) =>
      forall i | 0 <= i < |items| ensures FieldDecodes(items[i]) <==> forall path :: !BadPlace(root, Inside(i, path)) {
        FieldDecodesIff(items[i]);
        if path :| FieldBadAt(items[i], path) {
          assert BadPlace(root, Inside(i, path));
        }
      }
    case ScalarRoot(doc) =>
      if Decodes(doc) {
        forall path ensures !BadAt(doc, path) {
          NoBadLeaf(doc, path);
        }
      } else {
        var path := BadLeaf(doc);
        assert BadPlace(root, Inside(0, path));
      }
  }

  /** What the visitor decodes of a `Records` value. */
  lemma FieldReadsIff(f: Field)
    requires f.Plain?
    ensures FieldReads(f) <==> forall path: seq<Step> :: (f.doc.Object? ==> |path| == 1 && path[0].KeyOf?) ==> !FieldBadAt(f, path)
  {
    if f.doc.Object? {
      if !FieldReads(f) {
        var k :| 0 <= k < |f.doc.members| && f.doc.members[k].key.BadKey?;
        assert FieldBadAt(f, [KeyOf(k)]);
      }
    } else {
      FieldDecodesIff(f);
    }
  }

  /** The visitor gets through exactly the files in which it sees no bad place. */
  lemma ReadsIff(root: Root)
    ensures RootReads(root) <==> !SeesBad(root)
  {
    hide FieldReads, FieldBadAt;
    match root
    case ObjectRoot(entries) =>
      forall i: nat | i < |entries|
        ensures EntryReads(entries, i) <==>
                !BadPlace(root, RootKey(i)) && forall path :: Looks(root, Inside(i, path)) ==> !BadPlace(root, Inside(i, path))
      {
        if entries[i].value.Plain? {
          FieldReadsIff(entries[i].value);
          if path: seq<Step> :| (entries[i].value.doc.Object? ==> |path| == 1 && path[0].KeyOf?) && FieldBadAt(entries[i].value, path) {
            assert BadPlace(root, Inside(i, path));
            assert IsFirstRecords(entries, i) ==> Looks(root, Inside(i, path));
          }
        } else {
          ArrayReads(entries[i].value);
        }
      }
      if place :| BadPlace(root, place) && Looks(root, place) {
        assert place == RootKey(place.i) || place == Inside(place.i, place.path);
        assert !EntryReads(entries, place.i);
      }
    case ArrayRoot(_) =>
    case ScalarRoot(doc) => DecodesIff(root);
  }

  lemma ArrayReads(f: Field)
    requires f.Elements?
    ensures FieldReads(f)
  {
  }

  lemma DecodesMeansReads(root: Root)
    requires RootDecodes(root)
    ensures RootReads(root)
  {
    match root
    case ObjectRoot(entries) =>
      forall i | 0 <= i < |entries| ensures EntryReads(entries, i) {
        assert EntryDecodes(entries[i]);
        FieldDecodesMeansReads(entries[i].value);
      }
    case _ =>
  }

  lemma FieldDecodesMeansReads(f: Field)
    requires FieldDecodes(f)
    ensures FieldReads(f)
  {
    if f.Plain? && f.doc.Object? {
      assert Decodes(f.doc) && MembersDecode(f.doc.members);
      assert forall i :: 0 <= i < |f.doc.members| ==> MemberDecodes(f.doc.members[i]);
    }
  }

  lemma EnvelopeReads(entries: seq<Entry>, i: nat)
    requires i < |entries| && IsOnlyRecords(entries, i)
    ensures RootReads(ObjectRoot(entries)) && IsFirstRecords(entries, i)
  {
  }

  /** The two readers reach the same verdict exactly on agreeable files, and then find the same records. */
  lemma ReadersAgree(document: Document, plan: Plan)
    requires IsStreamPlan(document, plan)
    ensures plan.verdict == BufferPlan(document).verdict <==> Agreeable(document)
    ensures plan.verdict == Found && BufferPlan(document).verdict == Found ==> plan.records == BufferPlan(document).records
  {
    hide HoldsBad, SeesBad;
    if document.WellFormed? && !document.trailing {
      var root := document.root;
      DecodesIff(root);
      ReadsIff(root);
      if root.ObjectRoot? && DerivedEnvelope(root).Some? {
        var i :| 0 <= i < |root.entries| && IsOnlyRecords(root.entries, i);
        EnvelopeReads(root.entries, i);
        OnlyRecordsUnique(root.entries, i);
      }
      if RootDecodes(root) {
        DecodesMeansReads(root);
      }
    }
  }

  /**
   What the readers look for, in so many words: an object all of whose keys decode, with one
   `Records` entry alone, an array, and nothing behind it. The buffered reader also takes an array
   of one array. What follows the root, or breaks the text off, makes a file malformed for both.
   */
  lemma PlansMean(document: Document, plan: Plan)
    requires IsStreamPlan(document, plan)
    ensures document.Broken? || document.trailing ==> plan.verdict == BufferPlan(document).verdict == Malformed
    ensures document.WellFormed? && !document.trailing && document.root.ScalarRoot? ==>
              plan.verdict == BufferPlan(document).verdict == if Decodes(document.root.doc) then Unrecognized else Malformed
    ensures document.WellFormed? && !document.trailing && document.root.ArrayRoot? ==>
              var items := document.root.items;
              plan.verdict == Unrecognized &&
              if |items| == 1 && items[0].Elements? then BufferPlan(document) == Plan(Spans(items[0].items), Found)
              else BufferPlan(document).verdict != Found
    ensures document.WellFormed? && !document.trailing && document.root.ObjectRoot? ==>
              var entries := document.root.entries;
              && (plan.verdict == Found <==> BufferPlan(document).verdict == Found)
              && (plan.verdict == Found <==>
                    exists i :: 0 <= i < |entries| && entries[i].value.Elements? &&
                                forall j :: 0 <= j < |entries| ==> entries[j].key.Decoded? && (entries[j].key.name == "Records" <==> j == i))
              && forall i :: 0 <= i < |entries| && entries[i].value.Elements? &&
                             (forall j :: 0 <= j < |entries| ==> entries[j].key.Decoded? && (entries[j].key.name == "Records" <==> j == i)) ==>
                               plan.records == BufferPlan(document).records == Spans(entries[i].value.items)
  {
    if document.WellFormed? && !document.trailing && document.root.ObjectRoot? {
      var entries := document.root.entries;
      forall i | 0 <= i < |entries|
        ensures IsOnlyRecords(entries, i) <==>
                entries[i].value.Elements? &&
                forall j :: 0 <= j < |entries| ==> entries[j].key.Decoded? && (entries[j].key.name == "Records" <==> j == i)
      {
      }
      if i: nat :| i < |entries| && IsOnlyRecords(entries, i) {
        OnlyRecordsUnique(entries, i);
        EnvelopeReads(entries, i);
      }
    }
  }

  /** Every object whose strings outside `Records` elements decode is agreeable, duplicates and all. */
  lemma DecodedObjectsAgree(entries: seq<Entry>, trailing: bool)
    requires forall i :: 0 <= i < |entries| ==> entries[i].key.Decoded? && (entries[i].value.Plain? ==> Decodes(entries[i].value.doc))
    requires forall i :: 0 <= i < |entries| && entries[i].value.Elements? && !IsOnlyRecords(entries, i) ==> FieldDecodes(entries[i].value)
    ensures Agreeable(WellFormed(ObjectRoot(entries), trailing))
  {
    DecodesIff(ObjectRoot(entries));
    if !SoleRecords(ObjectRoot(entries)) {
      assert forall i :: 0 <= i < |entries| ==> EntryDecodes(entries[i]);
    }
  }

  /** Two files on which the modes part: a bare array of one array, and an unreadable string nobody looks at. */
  lemma ReadersMayPart(records: seq<Element>, plan1: Plan, plan2: Plan)
    requires IsStreamPlan(WellFormed(ArrayRoot([Elements(records)]), false), plan1)
    requires IsStreamPlan(WellFormed(ObjectRoot([Entry(Decoded("other"), Plain(Undecodable))]), false), plan2)
    ensures plan1.verdict == Unrecognized && BufferPlan(WellFormed(ArrayRoot([Elements(records)]), false)).verdict == Found
    ensures plan2.verdict == Unrecognized
    ensures BufferPlan(WellFormed(ObjectRoot([Entry(Decoded("other"), Plain(Undecodable))]), false)).verdict == Malformed
  {
    var entries := [Entry(Decoded("other"), Plain(Undecodable))];
    assert !IsRecords(entries[0]) by {
      assert |"other"| != |RECORDS|;
    }
    assert EntryReads(entries, 0);
    assert !EntryDecodes(entries[0]);
  }

  /** A third: a repeated `Records` key, and a record only the full parse looks into. */
  lemma RepeatedKeysMayPart(span: string, plan: Plan)
    requires IsStreamPlan(WellFormed(ObjectRoot(Repeated(span)), false), plan)
    ensures plan.verdict == Unrecognized && BufferPlan(WellFormed(ObjectRoot(Repeated(span)), false)).verdict == Malformed
  {
    var entries := Repeated(span);
    assert !FieldDecodes(entries[0].value) by {
      assert !Decodes(entries[0].value.items[0].doc);
    }
    assert !EntryDecodes(entries[0]);
    assert forall i :: 0 <= i < |entries| ==> EntryReads(entries, i);
    assert IsRecords(entries[0]) && IsRecords(entries[1]);
  }

  function Repeated(span: string): seq<Entry> {
    [Entry(Decoded(RECORDS), Elements([Element(span, Undecodable)])), Entry(Decoded(RECORDS), Elements([]))]
  }
}
