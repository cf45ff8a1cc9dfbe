/** From the ruleset to the destination: what lands is what the rules, read plainly, let through. */
module EndToEnd {
  import opened Wrappers
  import opened Json
  import opened Engines
  import opened Tally
  import opened Codecs
  import opened Envelopes
  import opened Errors
  import opened Records
  import opened Buffer
  import S = Stream
  import opened StreamSafety
  import opened Effects
  import opened Fates
  import opened Objects
  import opened Batches
  import opened Pipelines

  /** `evaluate` is the function the compiled engine computes on record texts, which `read` lexes. */
  ghost predicate Computes(engine: Engine, read: string -> Text, evaluate: string -> Option<Decision>)
    reads engine.index.Frame(), engine.index.source, engine.index.name
  {
    forall span: string :: ComputesOn(engine, read(span), evaluate(span))
  }

  ghost predicate ComputesOn(engine: Engine, text: Text, verdict: Option<Decision>)
    reads engine.index.Frame(), engine.index.source, engine.index.name
  {
    && (verdict.Some? <==> Parse(text).Some?)
    && (verdict.Some? ==> engine.FirstCandidate(Parse(text).value, verdict.value))
  }

  /** A record passes when it does not parse, or no rule of the ruleset holds of it. */
  ghost predicate Passes(engine: Engine, text: Text) {
    Parse(text).None? ||
    forall i :: 0 <= i < |engine.ruleSet.rules| ==> !RuleHolds(engine.lib, engine.ruleSet.major, engine.ruleSet.rules[i], Parse(text).value)
  }

  ghost function Passing(engine: Engine, read: string -> Text, spans: seq<string>): seq<string> {
    if spans == [] then []
    else
      var last := spans[|spans| - 1];
      Passing(engine, read, spans[..|spans| - 1]) + if Passes(engine, read(last)) then [last] else []
  }

  lemma SurvivesMeansPasses(engine: Engine, text: Text, verdict: Option<Decision>)
    requires engine.Valid() && engine.CoveredKeys() && ComputesOn(engine, text, verdict)
    ensures Survives(verdict) <==> Passes(engine, text)
  {
    hide RuleHolds, Engine.CoveredKeys, Engine.Valid, Parse;
    if verdict.Some? {
      engine.IndexedIsExact(Parse(text).value, verdict.value);
    }
  }

  lemma {:induction false} KeptArePassing(
      engine: Engine, read: string -> Text, evaluate: string -> Option<Decision>, spans: seq<string>)
    requires engine.Valid() && engine.CoveredKeys() && Computes(engine, read, evaluate)
    ensures Kept(spans, evaluate) == Passing(engine, read, spans)
  {
    hide Engine.Valid, Engine.CoveredKeys, Passes, Survives, ComputesOn;
    if spans != [] {
      var last := spans[|spans| - 1];
      KeptArePassing(engine, read, evaluate, spans[..|spans| - 1]);
      assert ComputesOn(engine, read(last), evaluate(last));
      SurvivesMeansPasses(engine, read(last), evaluate(last));
    }
  }

  /** In stream mode, under any schedule and any faults: a changed destination is the envelope of the passing records. */
  lemma StreamObeysRules(engine: Engine, read: string -> Text, cfg: S.Config, s: S.State)
    requires engine.Valid() && engine.CoveredKeys() && Computes(engine, read, cfg.evaluate)
    requires cfg.Valid() && S.Reaches(cfg, s)
    ensures s.upload.dest == cfg.before ||
            s.upload.dest == Some(cfg.codec.Gzip(Envelope(Passing(engine, read, cfg.plan.records))))
  {
    hide Engine.Valid, Engine.CoveredKeys, Passing, Kept, S.Reaches, Envelope, Computes;
    KeptArePassing(engine, read, cfg.evaluate, cfg.plan.records);
    CommitsOnlyComplete(cfg, s);
  }

  /** In buffer mode: what is to be put decompresses to the envelope of the passing records. */
  lemma BufferObeysRules(engine: Engine, read: string -> Text, job: Job, input: Bytes, encodes: nat -> bool)
    requires engine.Valid() && engine.CoveredKeys() && Computes(engine, read, job.evaluate) && job.Valid()
    ensures var r := BufferResult(job, input, encodes);
            var records := BufferPlan(job.parse(job.codec.gunzip(input).text)).records;
            r.Ok? && r.value.Written? ==>
              r.value.body.Some? && job.codec.gunzip(r.value.body.value) == Inflation(Envelope(Passing(engine, read, records)), false)
  {
    hide Engine.Valid, Engine.CoveredKeys, Passing, Kept, BufferResult, BufferPlan, Envelope, Computes;
    KeptArePassing(engine, read, job.evaluate, BufferPlan(job.parse(job.codec.gunzip(input).text)).records);
    WrittenIsEnvelope(job, input, encodes);
  }

  /** The source byte for byte, or compressed, the envelope of those of its records that the rules let through. */
  ghost predicate Ruled(engine: Engine, read: string -> Text, job: Job, body: Bytes, has: Bytes) {
    has == body ||
    exists plan :: FoundIn(job, body, plan) && job.codec.gunzip(has) == Inflation(Envelope(Passing(engine, read, plan.records)), false)
  }

  lemma DerivedIsRuled(engine: Engine, read: string -> Text, job: Job, body: Bytes, has: Bytes)
    requires engine.Valid() && engine.CoveredKeys() && Computes(engine, read, job.evaluate) && Derived(job, body, has)
    ensures Ruled(engine, read, job, body, has)
  {
    hide Engine.Valid, Engine.CoveredKeys, Passing, Kept, Envelope, Computes, FoundIn;
    if has != body {
      var plan :| FoundIn(job, body, plan) && job.codec.gunzip(has) == Inflation(Envelope(Kept(plan.records, job.evaluate)), false);
      KeptArePassing(engine, read, job.evaluate, plan.records);
    }
  }

  /** What one invocation may leave at a place that changed. */
  ghost predicate LandsRuled(
      engine: Engine, read: string -> Text, job: Job, loaded: bool, had: map<Location, Bytes>, w: Work, at: Location, has: Bytes) {
    && w.dest == at && Source(w.ref) in had
    && var body := had[Source(w.ref)];
       && Ruled(engine, read, job, body, has)
       && (!loaded ==> has == body)
       && (loaded && IsEnvelope(job, body) ==>
             job.codec.gunzip(has) ==
             Inflation(Envelope(Passing(engine, read, BufferPlan(job.parse(job.codec.gunzip(body).text)).records)), false))
  }

  lemma EntryRuled(
      p: Pipeline, engine: Engine, read: string -> Text, loaded: bool, entry: Work, w: World, had: map<Location, Bytes>)
    requires p.MeetsOne(entry, w, had) && w.streaming.Finished() && p.EffectOf(loaded, w).wrote.Some?
    requires engine.Valid() && engine.CoveredKeys() && Computes(engine, read, p.processor.job.evaluate)
    ensures LandsRuled(engine, read, p.processor.job, loaded, had, entry, entry.dest, p.EffectOf(loaded, w).wrote.value)
  {
    hide Engine.Valid, Engine.CoveredKeys, Passing, Kept, Envelope, Computes, Streaming.Finished, Fits, ObjectEffect, BufferPlan, IsEnvelope,
         Derived, Ruled;
    var job := p.processor.job;
    if loaded {
      ObjectDerives(job, p.processor.policies, w);
      DerivedIsRuled(engine, read, job, w.source.value, p.EffectOf(loaded, w).wrote.value);
      if IsEnvelope(job, w.source.value) {
        EnvelopesAreFiltered(job, p.processor.policies, w);
        KeptArePassing(engine, read, job.evaluate, BufferPlan(job.parse(job.codec.gunzip(w.source.value).text)).records);
      }
    } else {
      SourceIsRuled(engine, read, job, w.source.value);
    }
  }

  lemma SourceIsRuled(engine: Engine, read: string -> Text, job: Job, body: Bytes)
    ensures Ruled(engine, read, job, body, body)
  {
    hide FoundIn, Passing;
  }

  /**
   A whole invocation: every place it changed is the destination of a message's object, and holds
   that object byte for byte, or the envelope of those of its records that the rules, read
   plainly, let through. An envelope is never forwarded whole once a ruleset is loaded.
   */
  lemma InvocationObeysRules(
      p: Pipeline, engine: Engine, read: string -> Text, decoded: Option<seq<SourceItem>>, loaded: bool, worlds: seq<World>,
      effects: seq<Effect>, r: Result<seq<string>, CoreError>, had: map<Location, Bytes>, has: map<Location, Bytes>,
      before: MetricsView, after: MetricsView, at: Location)
    requires p.Handled(decoded, loaded, worlds, effects, r, had, has, before, after)
    requires p.Accepted(decoded, loaded) ==> p.Meets(WorkOf(p.batch, decoded.value), worlds, had)
    requires engine.Valid() && engine.CoveredKeys() && Computes(engine, read, p.processor.job.evaluate)
    requires Pipelines.Lookup(has, at) != Pipelines.Lookup(had, at)
    ensures decoded.Some? && at in has &&
            exists w :: w in WorkOf(p.batch, decoded.value) && LandsRuled(engine, read, p.processor.job, loaded, had, w, at, has[at])
  {
    hide WorkOf, AnySelfTrigger, Answers, Accrues, Land, ObjectTotals.Plus, ClassifiedTotals, Engine.Valid, Engine.CoveredKeys, Computes,
         LandsRuled, Streaming.Finished, Fits, Pipeline.EffectOf;
    if p.Accepted(decoded, loaded) {
      var work := WorkOf(p.batch, decoded.value);
      var i := LandedBy(had, work, effects, at);
      assert p.MeetsOne(work[i], worlds[i], had);
      EntryRuled(p, engine, read, loaded, work[i], worlds[i], had);
      assert work[i] in work;
    }
  }

  // ----- What an invocation comes to -----

  /** Some object in scope lies where an object's destination could be. */
  ghost predicate Loops(b: BatchSettings, items: seq<SourceItem>) {
    exists i: nat, k: nat, other ::
      i < |items| && k < |items[i].objects| && InScope(b, items, i, k) && Destination(b, other) == Source(items[i].objects[k])
  }

  lemma LoopsIff(b: BatchSettings, items: seq<SourceItem>)
    ensures AnySelfTrigger(b, items) <==> Loops(b, items)
  {
    hide SelfTriggers, Destination;
    if AnySelfTrigger(b, items) {
      var i: nat, k: nat :| i < |items| && k < |items[i].objects| && InScope(b, items, i, k) && SelfTriggers(b, items[i].objects[k]);
      GuardIff(b, items[i].objects[k]);
    }
    if Loops(b, items) {
      var i: nat, k: nat, other :|
        i < |items| && k < |items[i].objects| && InScope(b, items, i, k) && Destination(b, other) == Source(items[i].objects[k]);
      GuardIff(b, items[i].objects[k]);
    }
  }

  /** What became of one entry: the whole decision with a ruleset, and without one a plain copy. */
  ghost predicate EntryFate(p: Pipeline, loaded: bool, w: World, e: Effect)
    requires w.streaming.Finished()
  {
    if loaded then Fate(p.processor.job, p.processor.policies, w, e)
    else if w.source.None? then NotThere(p.processor.policies, e)
    else CopiedAgain(p.processor.policies, w, w.source.value, e)
  }

  lemma EntryIsFated(p: Pipeline, loaded: bool, entry: Work, w: World, had: map<Location, Bytes>)
    requires p.MeetsOne(entry, w, had) && w.streaming.Finished()
    ensures EntryFate(p, loaded, w, p.EffectOf(loaded, w))
  {
    hide ObjectEffect, RawCopyEffect, Fate, StreamsObject, Streaming.Finished, Job.Valid, NotThere, CopiedAgain;
    if loaded {
      ObjectIsFated(p.processor.job, p.processor.policies, w);
    } else {
      RawIsFated(p.processor.policies, w);
    }
  }

  /**
   The gate, and what lies behind it. A payload that does not decode, a missing ruleset where one
   is required, and an object in scope that some output could overwrite each refuse the whole
   batch, in this order, and then nothing is touched. Otherwise every entry meets its fate.
   */
  lemma InvocationComesTo(
      p: Pipeline, decoded: Option<seq<SourceItem>>, loaded: bool, worlds: seq<World>, effects: seq<Effect>,
      r: Result<seq<string>, CoreError>, had: map<Location, Bytes>, has: map<Location, Bytes>, before: MetricsView, after: MetricsView)
    requires p.Handled(decoded, loaded, worlds, effects, r, had, has, before, after)
    requires p.Accepted(decoded, loaded) ==> p.Meets(WorkOf(p.batch, decoded.value), worlds, had)
    ensures decoded.None? ==>
              && r == Err(Decode) && effects == [] && has == had
              && after == before.(objects := before.objects.(decodeErrors := before.objects.decodeErrors + 1))
    ensures decoded.Some? && !loaded && p.batch.failClosed ==> r == Err(Config) && effects == [] && has == had && after == before
    ensures decoded.Some? && (loaded || !p.batch.failClosed) && Loops(p.batch, decoded.value) ==>
              && r == Err(SelfTrigger) && effects == [] && has == had && after == before.(objects := after.objects)
              && after.objects.failed == before.objects.failed + 1 && after.objects.processed == before.objects.processed
    ensures decoded.Some? && (loaded || !p.batch.failClosed) && !Loops(p.batch, decoded.value) ==>
              && |effects| == |WorkOf(p.batch, decoded.value)| == |worlds|
              && (forall j :: 0 <= j < |effects| ==> worlds[j].streaming.Finished() && EntryFate(p, loaded, worlds[j], effects[j]))
  {
    hide WorkOf, AnySelfTrigger, Loops, Answers, Accrues, Land, ClassifiedTotals, Streaming.Finished, Fits,
         Pipeline.EffectOf, EntryFate;
    if decoded.Some? {
      LoopsIff(p.batch, decoded.value);
    }
    if p.Accepted(decoded, loaded) {
      var work := WorkOf(p.batch, decoded.value);
      forall j | 0 <= j < |effects| ensures worlds[j].streaming.Finished() && EntryFate(p, loaded, worlds[j], effects[j]) {
        assert p.MeetsOne(work[j], worlds[j], had);
        EntryIsFated(p, loaded, work[j], worlds[j], had);
      }
    }
  }

  lemma PlusFields(a: ObjectTotals, b: ObjectTotals)
    ensures var t := a.Plus(b);
            && t.processed == a.processed + b.processed && t.skipped == a.skipped + b.skipped && t.failed == a.failed + b.failed
            && t.excludedByKey == a.excludedByKey + b.excludedByKey && t.decodeErrors == a.decodeErrors + b.decodeErrors
            && t.itemsWithoutObjects == a.itemsWithoutObjects + b.itemsWithoutObjects
            && t.bytesOut == a.bytesOut + b.bytesOut && t.bytesIn == a.bytesIn + b.bytesIn
            && t.unrecognized == a.unrecognized + b.unrecognized && t.copiedUnparsed == a.copiedUnparsed + b.copiedUnparsed
  {
  }

  /** Which entries failed. */
  function FailedEntries(effects: seq<Effect>): set<int> {
    set j | 0 <= j < |effects| && effects[j].result.Err?
  }

  lemma {:induction false} FailuresCounted(effects: seq<Effect>)
    requires forall j :: 0 <= j < |effects| ==> effects[j].objects.failed == 0
    ensures SumObjects(effects).failed == |FailedEntries(effects)|
  {
    hide ObjectTotals.Plus;
    if effects != [] {
      var n := |effects| - 1;
      FailuresCounted(effects[..n]);
      PlusFields(SumObjects(effects[..n]), Pipelines.Settled(effects[n]));
      var before := FailedEntries(effects[..n]);
      if effects[n].result.Err? {
        assert FailedEntries(effects) == before + {n};
      } else {
        assert FailedEntries(effects) == before;
      }
    }
  }

  /**
   The counters an accepted batch moves: each entry is processed, skipped or failed, and failed
   exactly if its result is an error; bytes out are those landed; and items that could not be
   worked on are counted by themselves.
   */
  lemma InvocationCounts(
      p: Pipeline, items: seq<SourceItem>, loaded: bool, worlds: seq<World>, effects: seq<Effect>,
      r: Result<seq<string>, CoreError>, had: map<Location, Bytes>, has: map<Location, Bytes>, before: MetricsView, after: MetricsView)
    requires p.Handled(Some(items), loaded, worlds, effects, r, had, has, before, after) && p.Accepted(Some(items), loaded)
    requires p.Meets(WorkOf(p.batch, items), worlds, had)
    ensures var (o, t) := (before.objects, after.objects);
            && t.processed + t.skipped + t.failed == o.processed + o.skipped + o.failed + |WorkOf(p.batch, items)|
            && t.failed == o.failed + |set j | 0 <= j < |effects| && effects[j].result.Err?|
            && t.bytesOut == o.bytesOut + BytesLanded(effects) && t.bytesIn <= o.bytesIn + BytesHeld(worlds)
            && t.decodeErrors >= o.decodeErrors + |set i | 0 <= i < |items| && items[i].decodeError.Some?|
            && t.excludedByKey + |WorkOf(p.batch, items)| >= o.excludedByKey + NamedObjects(items)
    ensures after.recordsIn + before.kept + before.dropped == before.recordsIn + after.kept + after.dropped
  {
    hide WorkOf, AnySelfTrigger, Answers, Land, ObjectTotals.Plus, ClassifiedTotals, Streaming.Finished, Pipeline.EffectOf, Fits, Sound, SumObjects,
         BytesLanded, BytesHeld, NamedObjects;
    var counted := ClassifiedTotals(p.batch, items);
    PlusFields(before.objects, counted);
    PlusFields(before.objects.Plus(counted), SumObjects(effects));
    ClassifiedCounts(p.batch, items);
    p.EntriesCounted(items, loaded, worlds, effects, had);
    forall j | 0 <= j < |effects| ensures effects[j].objects.failed == 0 {
      p.EntrySound(items, loaded, worlds, effects, had, j);
      SoundFails(worlds[j], effects[j]);
    }
    FailuresCounted(effects);
  }

  lemma SoundFails(w: World, e: Effect)
    requires Sound(w, e)
    ensures e.objects.failed == 0
  {
  }
}
