/**
 What was written is read back: the output is a JSON text in which both readers find exactly the
 records kept, so that filtering it again with the same rules changes nothing.

 The parser is not modelled; `ReadsWriting` is its contract on texts put together by a plain
 writer of JSON objects.
 */
module Rereads {
  import opened Wrappers
  import opened Json
  import opened Engines
  import opened Tally
  import opened Codecs
  import opened Envelopes
  import opened Records
  import opened Buffer
  import opened Effects

  // ----- Writing JSON -----

  /** Characters that stand for themselves between quotation marks (RFC 8259, section 7). */
  predicate PlainText(s: string) {
    forall i :: 0 <= i < |s| ==> s[i] >= ' ' && s[i] != '"' && s[i] != '\\'
  }

  function Quoted(s: string): string {
    "\"" + s + "\""
  }

  /** Values this writer can write: arrays of texts at hand, strings of plain characters, and the three literals. */
  predicate FieldWritable(f: Field) {
    match f
    case Elements(_) => true
    case Plain(doc) => doc.Null? || doc.Bool? || (doc.Str? && PlainText(doc.s))
  }

  function FieldText(f: Field): string
    requires FieldWritable(f)
  {
    match f
    case Elements(items) => "[" + Join(Spans(items), ",") + "]"
    case Plain(doc) => if doc.Null? then "null" else if doc.Bool? then (if doc.b then "true" else "false") else Quoted(doc.s)
  }

  predicate EntryWritable(e: Entry) {
    e.key.Decoded? && PlainText(e.key.name) && FieldWritable(e.value)
  }

  function EntryText(e: Entry): string
    requires EntryWritable(e)
  {
    Quoted(e.key.name) + ":" + FieldText(e.value)
  }

  /** An object without any whitespace. */
  function ObjectText(entries: seq<Entry>): string
    requires forall i :: 0 <= i < |entries| ==> EntryWritable(entries[i])
  {
    "{" + Join(seq(|entries|, i requires 0 <= i < |entries| => EntryText(entries[i])), ",") + "}"
  }

  // ----- Reading it -----

  /** The elements a parser reported of a text, wherever it met them. */
  ghost predicate ElementOf(document: Document, element: Element) {
    match document
    case Broken(seen) => element in seen
    case WellFormed(ObjectRoot(entries), _) => exists i :: 0 <= i < |entries| && entries[i].value.Elements? && element in entries[i].value.items
    case WellFormed(ArrayRoot(items), _) => exists i :: 0 <= i < |items| && items[i].Elements? && element in items[i].items
    case _ => false
  }

  /** A text the parser once read as one element. */
  ghost predicate Reported(parse: string -> Document, element: Element) {
    exists text :: ElementOf(parse(text), element)
  }

  /** Array elements may be taken only from texts the parser has read: then they read alone as they did there. */
  ghost predicate FromTexts(parse: string -> Document, entries: seq<Entry>) {
    forall i, element :: 0 <= i < |entries| && entries[i].value.Elements? && element in entries[i].value.items ==> Reported(parse, element)
  }

  /** The parser reads an object so written, and finds in it what was written. */
  ghost predicate ReadsWriting(parse: string -> Document) {
    forall entries: seq<Entry> ::
      (forall i :: 0 <= i < |entries| ==> EntryWritable(entries[i])) && FromTexts(parse, entries) ==>
        parse(ObjectText(entries)) == WellFormed(ObjectRoot(entries), false)
  }

  // ----- The envelope -----

  /** The object whose one entry is `Records`, with these elements. */
  function EnvelopeOf(elements: seq<Element>): (entries: seq<Entry>)
    ensures forall i :: 0 <= i < |entries| ==> EntryWritable(entries[i])
  {
    var entries := [Entry(Decoded("Records"), Elements(elements))];
    assert PlainText("Records");
    entries
  }

  /** The text either mode writes is that object's. */
  lemma EnvelopeIsObject(elements: seq<Element>)
    ensures Envelope(Spans(elements)) == ObjectText([Entry(Decoded("Records"), Elements(elements))])
  {
    hide Join;
    var entries := EnvelopeOf(elements);
    var body := Join(Spans(elements), ",");
    var texts := seq(|entries|, i requires 0 <= i < |entries| => EntryText(entries[i]));
    assert texts == [EntryText(entries[0])];
    assert Join(texts, ",") == EntryText(entries[0]) by {
      OneJoined(EntryText(entries[0]));
    }
    assert EntryText(entries[0]) == "\"Records\"" + ":" + ("[" + body + "]");
    assert "{" + ("\"Records\"" + ":" + ("[" + body + "]")) + "}" == "{\"Records\":[" + body + "]}";
    assert Envelope(Spans(elements)) == "{\"Records\":[" + body + "]}";
  }

  lemma OneJoined(text: string)
    ensures Join([text], ",") == text
  {
  }

  /** Written out. */
  lemma EnvelopeExamples(a: string, b: string)
    ensures Envelope([]) == "{\"Records\":[]}"
    ensures Envelope([a]) == "{\"Records\":[" + a + "]}"
    ensures Envelope([a, b]) == "{\"Records\":[" + a + "," + b + "]}"
  {
    assert [a, b][1..] == [b];
    assert Join([a, b], ",") == a + "," + b;
    assert "{\"Records\":[" + (a + "," + b) + "]}" == "{\"Records\":[" + a + "," + b + "]}";
  }

  /** Both readers find in that text exactly its elements, whatever the rest of a file might hold. */
  lemma EnvelopeReadsBack(parse: string -> Document, elements: seq<Element>)
    requires ReadsWriting(parse) && forall element :: element in elements ==> Reported(parse, element)
    ensures var document := parse(Envelope(Spans(elements)));
            && document == WellFormed(ObjectRoot([Entry(Decoded("Records"), Elements(elements))]), false)
            && BufferPlan(document) == Plan(Spans(elements), Found)
            && forall plan :: IsStreamPlan(document, plan) <==> plan == Plan(Spans(elements), Found)
  {
    hide Envelope, ObjectText, Reported;
    EnvelopeIsObject(elements);
    var entries := EnvelopeOf(elements);
    assert FromTexts(parse, entries);
    SoleEntryPlans(elements);
  }

  lemma SoleEntryPlans(elements: seq<Element>)
    ensures var document := WellFormed(ObjectRoot([Entry(Decoded("Records"), Elements(elements))]), false);
            && BufferPlan(document) == Plan(Spans(elements), Found)
            && forall plan :: IsStreamPlan(document, plan) <==> plan == Plan(Spans(elements), Found)
  {
    var entries := [Entry(Decoded("Records"), Elements(elements))];
    assert IsOnlyRecords(entries, 0);
    OnlyRecordsUnique(entries, 0);
    EnvelopeReads(entries, 0);
  }

  // ----- Filtering twice -----

  /** The elements behind the records kept. */
  lemma {:induction false} KeptElements(items: seq<Element>, evaluate: string -> Option<Decision>) returns (kept: seq<Element>)
    ensures Spans(kept) == Kept(Spans(items), evaluate) && forall element :: element in kept ==> element in items
  {
    kept := [];
    if items != [] {
      var n := |items| - 1;
      assert Spans(items)[..n] == Spans(items[..n]);
      kept := KeptElements(items[..n], evaluate);
      if Survives(evaluate(items[n].span)) {
        kept := kept + [items[n]];
      }
    }
  }

  /** What was kept is kept again. */
  lemma {:induction false} KeptAgain(texts: seq<string>, evaluate: string -> Option<Decision>)
    ensures Kept(Kept(texts, evaluate), evaluate) == Kept(texts, evaluate)
  {
    if texts != [] {
      var n := |texts| - 1;
      KeptAgain(texts[..n], evaluate);
      if Survives(evaluate(texts[n])) {
        KeptSnoc(Kept(texts[..n], evaluate), evaluate, texts[n]);
      } else {
        assert Kept(texts, evaluate) == Kept(texts[..n], evaluate);
      }
    }
  }

  /** The elements behind the records either reader finds. */
  lemma PlannedElements(document: Document, plan: Plan) returns (items: seq<Element>)
    requires plan.verdict == Found && (plan == BufferPlan(document) || IsStreamPlan(document, plan))
    ensures plan.records == Spans(items) && forall element :: element in items ==> ElementOf(document, element)
  {
    var root := document.root;
    match root
    case ArrayRoot(fields) =>
      items := fields[0].items;
    case ObjectRoot(entries) =>
      var i :| 0 <= i < |entries| && IsOnlyRecords(entries, i);
      OnlyRecordsUnique(entries, i);
      EnvelopeReads(entries, i);
      items := entries[i].value.items;
    case ScalarRoot(_) =>
      assert false;
  }

  /**
   The round trip: of the records either mode finds in an object and keeps, the envelope is a text
   in which both modes find exactly these records, and of which the same rules keep them all.
   */
  lemma FilteredReadsBack(job: Job, body: Bytes, plan: Plan)
    requires ReadsWriting(job.parse) && FoundIn(job, body, plan)
    ensures var kept := Kept(plan.records, job.evaluate);
            var again := job.parse(Envelope(kept));
            && BufferPlan(again) == Plan(kept, Found) && (forall other :: IsStreamPlan(again, other) <==> other == Plan(kept, Found))
            && Kept(kept, job.evaluate) == kept
  {
    hide Envelope, ReadsWriting, IsStreamPlan, BufferPlan;
    var text := job.codec.gunzip(body).text;
    var items := PlannedElements(job.parse(text), plan);
    var kept := KeptElements(items, job.evaluate);
    EnvelopeReadsBack(job.parse, kept);
    KeptAgain(plan.records, job.evaluate);
  }

  /** An object all of whose records both modes find and keep. */
  ghost predicate Settled(job: Job, body: Bytes, kept: seq<string>) {
    var inflation := job.codec.gunzip(body);
    && inflation == Inflation(Envelope(kept), false) && Kept(kept, job.evaluate) == kept
    && BufferPlan(job.parse(inflation.text)) == Plan(kept, Found)
    && forall plan :: IsStreamPlan(job.parse(inflation.text), plan) <==> plan == Plan(kept, Found)
  }

  /**
   Whatever an object's processing lands, through every mode, policy, fault and retry, is the
   object byte for byte or one that filtering again leaves as it is.
   */
  lemma LandedIsSettled(job: Job, p: Policies, w: World)
    requires Fits(job, p, w) && ReadsWriting(job.parse) && ObjectEffect(job, p, w).wrote.Some?
    ensures var wrote := ObjectEffect(job, p, w).wrote;
            wrote == w.source || exists kept :: Settled(job, wrote.value, kept)
  {
    hide ObjectEffect, StreamsObject, Streaming.Finished, Job.Valid, ReadsWriting, Envelope, FoundIn, Kept,
         IsStreamPlan, BufferPlan;
    ObjectDerives(job, p, w);
    var body, wrote := w.source.value, ObjectEffect(job, p, w).wrote.value;
    if wrote != body {
      var plan :| FoundIn(job, body, plan) && job.codec.gunzip(wrote) == Inflation(Envelope(Kept(plan.records, job.evaluate)), false);
      FilteredReadsBack(job, body, plan);
      assert Settled(job, wrote, Kept(plan.records, job.evaluate));
    }
  }
}
