/**
 Processing one object against the store and the shared counters: what each path does to both
 is exactly its effect.
 */
module Objects {
  import opened Wrappers
  import opened Engines
  import opened Tally
  import opened Codecs
  import opened Envelopes
  import opened Errors
  import opened Records
  import opened Buffer
  import S = Stream
  import opened StreamOutcome
  import opened Effects

  type Location = (string, string)

  /** An opened source object. */
  datatype Reader = Reader(body: Bytes, fault: ReadFault)

  /** The object store, each call told how it goes. */
  class ObjectStore {
    var objects: map<Location, Bytes>

    constructor ()
      ensures objects == map[]
    {
      objects := map[];
    }

    function Lookup(at: Location): Option<Bytes>
      reads this
    {
      if at in objects then Some(objects[at]) else None
    }

    method GetStream(at: Location, fault: ReadFault) returns (r: Result<Reader, CoreError>)
      ensures r == if at !in objects || fault == Gone then Err(NotFound) else if fault == Refused then Err(Backend) else Ok(Reader(objects[at], fault))
    {
      if at !in objects || fault == Gone {
        return Err(NotFound);
      }
      r := if fault == Refused then Err(Backend) else Ok(Reader(objects[at], fault));
    }

    method Put(at: Location, body: Bytes, ok: bool) returns (r: Result<(), CoreError>)
      modifies this
      ensures r == if ok then Ok(()) else Err(Backend)
      ensures objects == if ok then old(objects)[at := body] else old(objects)
    {
      if ok {
        objects := objects[at := body];
        return Ok(());
      }
      r := Err(Backend);
    }

    /** Uploads what a reader delivers; says how many bytes were read. A failed read or upload lands nothing. */
    method PutStream(at: Location, reader: Reader, stopsAt: Option<nat>) returns (r: Result<(), CoreError>, total: nat)
      modifies this
      ensures r.Ok? <==> !reader.fault.FailsAfter? && stopsAt == None
      ensures r.Err? ==> r.error == Backend
      ensures objects == if r.Ok? then old(objects)[at := Delivered(reader.body, reader.fault)] else old(objects)
      ensures total == if stopsAt.Some? && stopsAt.value < |Delivered(reader.body, reader.fault)| then stopsAt.value
                       else |Delivered(reader.body, reader.fault)|
    {
      var delivered := Delivered(reader.body, reader.fault);
      total := if stopsAt.Some? && stopsAt.value < |delivered| then stopsAt.value else |delivered|;
      if reader.fault.FailsAfter? || stopsAt.Some? {
        return Err(Backend), total;
      }
      objects := objects[at := delivered];
      r := Ok(());
    }

    /** What a finished streaming call did to the destination. */
    method Land(at: Location, s: S.State)
      requires s.upload.dest.Some?
      modifies this
      ensures objects == old(objects)[at := s.upload.dest.value]
    {
      objects := objects[at := s.upload.dest.value];
    }
  }

  /** Every rule index a verdict may name has a name. */
  ghost predicate Attributes(evaluate: string -> Option<Decision>, names: seq<string>) {
    forall text: string :: Attributed(evaluate(text), names)
  }

  predicate Attributed(verdict: Option<Decision>, names: seq<string>) {
    verdict.Some? && verdict.value.Drop? ==> verdict.value.ruleIdx < |names|
  }

  lemma {:induction false} DropsAttributed(
      records: seq<string>, evaluate: string -> Option<Decision>, names: seq<string>)
    requires Attributes(evaluate, names)
    ensures forall rule: nat :: rule in CountAll(Verdicts(records, evaluate)).ruleDrops ==> rule < |names|
    ensures Balanced(CountAll(Verdicts(records, evaluate)))
  {
    var verdicts := Verdicts(records, evaluate);
    CountsBalance(verdicts);
    forall rule: nat | rule in CountAll(verdicts).ruleDrops ensures rule < |names| {
      assert Some(Drop(rule)) in verdicts;
      var i :| 0 <= i < |verdicts| && verdicts[i] == Some(Drop(rule));
      assert Attributed(evaluate(records[i]), names);
    }
  }

  /**
   One streaming call: bytes in as the pump counted them; the destination, the output bytes and
   the records only once the call is known to have succeeded. Without a store it is a preview.
   */
  method StreamRun(run: Streaming, metrics: Metrics, names: seq<string>, store: Option<ObjectStore>, at: Location)
      returns (r: Result<S.FilterResult, S.StreamError>)
    requires run.Finished() && metrics.Reconciles() && Attributes(run.cfg.evaluate, names)
    modifies metrics, if store.Some? then {store.value} else {}
    ensures metrics.Reconciles()
    ensures r == Returned(run.last)
    ensures var published := Published(run.last);
            Gains(old(metrics.View()), metrics.View(), QUIET.(bytesIn := run.last.pump.bytesIn, bytesOut := BilledOut(run.last)),
                  if published.Some? then published.value else ZERO, names)
    ensures store.Some? ==>
              if r == Ok(S.Written) then
                run.last.upload.dest.Some? && store.value.objects == old(store.value.objects)[at := run.last.upload.dest.value]
              else store.value.objects == old(store.value.objects)
  {
    hide S.Reaches, S.Final, CountAll, Verdicts, Kept, Balanced, Sum, DropsNamed, Gains, Expected, ExpectedCounts,
         Attributes;
    var s := run.last;
    SuccessIsExact(run.cfg, run.last);
    ghost var moved := QUIET.(bytesIn := s.pump.bytesIn, bytesOut := BilledOut(s));
    PublishedAttributed(run, names);
    metrics.AddBytesIn(s.pump.bytesIn);
    r := Returned(s);
    if r.Err? {
      GainsObjects(old(metrics.View()), metrics.View(), moved, names);
      return;
    }
    if r.value == S.Written {
      if store.Some? {
        store.value.Land(at, s);
      }
      metrics.AddBytesOut(BilledOut(s));
    }
    label Billed:
    GainsObjects(old(metrics.View()), metrics.View(), moved, names);
    var tally := new RecordTally.Of(if r.value == S.Skipped then ZERO else s.filter.tally);
    tally.Commit(metrics, names);
    GainsThen(old(metrics.View()), old@Billed(metrics.View()), metrics.View(), moved, QUIET, tally.View(), names);
    QuietPlus(moved);
  }

  lemma PublishedAttributed(run: Streaming, names: seq<string>)
    requires run.Finished() && Attributes(run.cfg.evaluate, names)
    ensures Published(run.last).Some? ==>
              Balanced(Published(run.last).value) && forall rule: nat :: rule in Published(run.last).value.ruleDrops ==> rule < |names|
  {
    hide S.Reaches, S.Final, CountAll, Verdicts, Kept, Balanced;
    SuccessIsExact(run.cfg, run.last);
    DropsAttributed(run.cfg.plan.records, run.cfg.evaluate, names);
    ZeroBalances();
  }

  /** A path did exactly this: its result, the counters, and the destination. */
  ghost predicate Did(
    e: Effect, r: Result<(), CoreError>, before: MetricsView, after: MetricsView,
    had: map<Location, Bytes>, has: map<Location, Bytes>, at: Location, names: seq<string>)
  {
    && r == e.result && Gains(before, after, e.objects, e.counts, names)
    && has == if e.wrote.Some? then had[at := e.wrote.value] else had
  }

  class Processor {
    const job: Job
    const policies: Policies
    const names: seq<string>
    const metrics: Metrics
    const store: ObjectStore

    constructor (job: Job, policies: Policies, names: seq<string>, metrics: Metrics, store: ObjectStore)
      ensures this.job == job && this.policies == policies && this.names == names && this.metrics == metrics && this.store == store
    {
      this.job, this.policies, this.names, this.metrics, this.store := job, policies, names, metrics, store;
    }

    ghost predicate Ready()
      reads metrics
    {
      job.Valid() && metrics.Reconciles() && Attributes(job.evaluate, names)
    }

    /** The world is this store's: the source is what it holds. */
    ghost predicate Faces(w: World, from: Location)
      reads store
    {
      w.source == store.Lookup(from) && Fits(job, policies, w)
    }

    method OpenWithMissingPolicy(from: Location, fault: ReadFault) returns (r: Result<Option<Reader>, CoreError>)
      modifies metrics`objects
      ensures if FindsNothing(store.Lookup(from), fault) then
                r == (if policies.skipMissing then Ok(None) else Err(NotFound)) &&
                metrics.objects == old(metrics.objects).Plus(QUIET.(skipped := if policies.skipMissing then 1 else 0))
              else
                r == (if fault == Refused then Err(Backend) else Ok(Some(Reader(store.Lookup(from).value, fault)))) &&
                metrics.objects == old(metrics.objects)
    {
      var got := store.GetStream(from, fault);
      match got
      case Ok(reader) => r := Ok(Some(reader));
      case Err(NotFound) =>
        if policies.skipMissing {
          metrics.AddObjectsSkipped(1);
          r := Ok(None);
        } else {
          r := Err(NotFound);
        }
      case Err(error) => r := Err(error);
    }

    /** The whole source in memory, read up to one byte past the cap. */
    method FetchWithMissingPolicy(from: Location, fault: ReadFault) returns (r: Result<Option<Bytes>, CoreError>)
      modifies metrics`objects
      ensures if FindsNothing(store.Lookup(from), fault) then
                r == (if policies.skipMissing then Ok(None) else Err(NotFound)) &&
                metrics.objects == old(metrics.objects).Plus(QUIET.(skipped := if policies.skipMissing then 1 else 0))
              else
                metrics.objects == old(metrics.objects) &&
                r == match Fetch(job, store.Lookup(from).value, fault) case Ok(bytes) => Ok(Some(bytes)) case Err(error) => Err(error)
    {
      var got := OpenWithMissingPolicy(from, fault);
      match got
      case Err(error) => r := Err(error);
      case Ok(None) => r := Ok(None);
      case Ok(Some(reader)) =>
        var limit := job.maxObjectBytes;
        var delivered := Delivered(reader.body, reader.fault);
        var taken := if |delivered| <= limit then delivered else delivered[..limit + 1];
        if |taken| <= limit && reader.fault.FailsAfter? {
          return Err(Backend);
        }
        r := if |taken| > limit then Err(ObjectTooLarge) else Ok(Some(taken));
    }

    /** Copies the source without holding it; false when it is missing and missing objects are skipped. */
    method StreamCopy(w: World, from: Location, at: Location, counted: bool) returns (r: Result<bool, CoreError>)
      requires w.source == store.Lookup(from)
      modifies metrics`objects, store
      ensures var e := StreamCopyEffect(policies, w, counted);
              && r == (match e.result case Ok(_) => Ok(!FindsNothing(w.source, w.copy)) case Err(error) => Err(error))
              && metrics.objects == old(metrics.objects).Plus(e.objects.(processed := 0))
              && store.objects == if e.wrote.Some? then old(store.objects)[at := e.wrote.value] else old(store.objects)
    {
      var got := OpenWithMissingPolicy(from, w.copy);
      match got
      case Err(error) => r := Err(error);
      case Ok(None) => r := Ok(false);
      case Ok(Some(reader)) =>
        var put, total := store.PutStream(at, reader, w.copied);
        if counted {
          metrics.AddBytesIn(total);
        }
        if put.Err? {
          return Err(put.error);
        }
        metrics.AddBytesOut(total);
        r := Ok(true);
    }

    /** No ruleset was ever loaded: a plain copy, which does not consult `dryRun`. */
    method RawCopy(w: World, from: Location, at: Location) returns (r: Result<(), CoreError>)
      requires w.source == store.Lookup(from)
      modifies metrics`objects, store
      ensures Did(RawCopyEffect(policies, w), r, old(metrics.View()), metrics.View(), old(store.objects), store.objects, at, names)
    {
      var copied := StreamCopy(w, from, at, true);
      match copied
      case Err(error) => r := Err(error);
      case Ok(landed) =>
        if landed {
          metrics.AddObjectsProcessed(1);
        }
        r := Ok(());
      GainsObjects(old(metrics.View()), metrics.View(), RawCopyEffect(policies, w).objects, names);
    }

    /** Forwards a source that did not parse, from memory or by reading it again. */
    method CopyUnparsable(
        w: World, from: Location, at: Location, bytes: Option<Bytes>) returns (r: Result<(), CoreError>)
      requires w.source == store.Lookup(from)
      modifies metrics`objects, store
      ensures var e := CopyUnparsableEffect(policies, w, bytes);
              && r == e.result && metrics.objects == old(metrics.objects).Plus(e.objects)
              && store.objects == if e.wrote.Some? then old(store.objects)[at := e.wrote.value] else old(store.objects)
    {
      metrics.AddObjectsCopiedUnparsed(1);
      if policies.dryRun {
        metrics.AddObjectsProcessed(1);
        return Ok(());
      }
      match bytes {
        case Some(body) =>
          var put := store.Put(at, body, w.putOk);
          if put.Err? {
            return Err(put.error);
          }
          metrics.AddBytesOut(|body|);
        case None =>
          var copied := StreamCopy(w, from, at, false);
          if copied.Err? {
            return Err(copied.error);
          }
          if !copied.value {
            return Ok(());
          }
      }
      metrics.AddObjectsProcessed(1);
      r := Ok(());
    }

    /** The policy for a buffered object without records; the caller publishes and counts it. */
    method ApplyUnrecognizedPolicy(w: World, at: Location, bytes: Bytes) returns (r: Result<(), CoreError>)
      modifies metrics`objects, store
      ensures var e := (match policies.onUnrecognized
                        case CopyIt => PutEffect(w, ZERO, bytes)
                        case SkipIt => Completes(ZERO, None)
                        case FailIt => Fails(UnrecognizedObject));
              && r == e.result && metrics.objects == old(metrics.objects).Plus(e.objects.(processed := 0))
              && store.objects == if e.wrote.Some? then old(store.objects)[at := e.wrote.value] else old(store.objects)
    {
      match policies.onUnrecognized
      case CopyIt =>
        var put := store.Put(at, bytes, w.putOk);
        if put.Err? {
          return Err(put.error);
        }
        metrics.AddBytesOut(|bytes|);
        r := Ok(());
      case SkipIt => r := Ok(());
      case FailIt => r := Err(UnrecognizedObject);
    }

    /** The object's fate is decided: publishes its records and counts it, on top of what has moved. */
    method Complete(tally: RecordTally, ghost before: MetricsView, ghost moved: ObjectTotals)
      requires metrics.Reconciles() && Balanced(tally.View())
      requires forall rule :: rule in tally.ruleDrops ==> rule < |names|
      requires metrics.View() == before.(objects := before.objects.Plus(moved))
      modifies metrics
      ensures metrics.Reconciles()
      ensures Gains(before, metrics.View(), moved.Plus(QUIET.(processed := 1)), tally.View(), names)
    {
      hide Gains, Balanced, DropsNamed, Sum;
      GainsObjects(before, metrics.View(), moved, names);
      label Moved:
      tally.Commit(metrics, names);
      GainsThen(before, old@Moved(metrics.View()), metrics.View(), moved, QUIET, tally.View(), names);
      QuietPlus(moved);
      label Published:
      metrics.AddObjectsProcessed(1);
      GainsObjects(old@Published(metrics.View()), metrics.View(), QUIET.(processed := 1), names);
      GainsThenObjects(before, old@Published(metrics.View()), metrics.View(), moved, tally.View(), QUIET.(processed := 1), names);
    }

    lemma CountsAttributed(bytes: Bytes)
      requires Attributes(job.evaluate, names)
      ensures Balanced(BufferCounts(job, bytes))
      ensures forall rule: nat :: rule in BufferCounts(job, bytes).ruleDrops ==> rule < |names|
    {
      DropsAttributed(BufferPlan(job.parse(job.codec.gunzip(bytes).text)).records, job.evaluate, names);
    }

    /** Only object counters have moved so far. */
    ghost predicate Moved(before: MetricsView, moved: ObjectTotals)
      reads metrics
    {
      metrics.View() == before.(objects := before.objects.Plus(moved))
    }

    /** What a buffered outcome puts at the destination; nothing is published yet. */
    method PutOutcome(w: World, at: Location, bytes: Bytes, outcome: Outcome) returns (r: Result<(), CoreError>)
      requires !policies.dryRun && BufferResult(job, bytes, w.encodes) == Ok(outcome)
      modifies metrics`objects, store
      ensures var e := BufferOutcome(job, policies, w, bytes);
              && r == e.result && metrics.objects == old(metrics.objects).Plus(e.objects.(processed := 0))
              && store.objects == if e.wrote.Some? then old(store.objects)[at := e.wrote.value] else old(store.objects)
    {
      hide BufferResult, BufferCounts;
      match outcome
      case Written(body) =>
        if body.None? {
          return Ok(());
        }
        r := store.Put(at, body.value, w.putOk);
        if r.Ok? {
          metrics.AddBytesOut(|body.value|);
        }
      case NothingKept => r := Ok(());
      case Unrecognized =>
        metrics.AddUnrecognizedObjects(1);
        r := ApplyUnrecognizedPolicy(w, at, bytes);
    }

    /** A buffered result: put, then published and counted; or copied; or failed. */
    method FinishBuffer(
        w: World, from: Location, at: Location, bytes: Bytes, result: Result<Outcome, CoreError>,
        tally: RecordTally)
        returns (r: Result<(), CoreError>)
      requires metrics.Reconciles() && !policies.dryRun && result == BufferResult(job, bytes, w.encodes) && w.source == store.Lookup(from)
      requires result.Ok? ==> tally.View() == BufferCounts(job, bytes)
      requires Attributes(job.evaluate, names)
      modifies metrics, store
      ensures metrics.Reconciles()
      ensures Did(BufferOutcome(job, policies, w, bytes), r, old(metrics.View()), metrics.View(),
                  old(store.objects), store.objects, at, names)
    {
      hide BufferResult, BufferCounts, BufferOutcome, Gains, Balanced, Attributes, DropsNamed, Sum;
      ghost var before, effect := metrics.View(), BufferOutcome(job, policies, w, bytes);
      OutcomeShape(job, policies, w, bytes);
      if result.Ok? {
        r := PutOutcome(w, at, bytes, result.value);
        if r.Ok? {
          CountsAttributed(bytes);
          Complete(tally, before, effect.objects.(processed := 0));
        } else {
          GainsObjects(before, metrics.View(), effect.objects, names);
        }
      } else {
        r := FailBuffer(w, from, at, bytes, result.error, Some(bytes));
      }
    }

    /** A buffered run that failed: a source that did not parse may still be forwarded. */
    method FailBuffer(w: World, from: Location, at: Location, bytes: Bytes, error: CoreError, forward: Option<Bytes>)
        returns (r: Result<(), CoreError>)
      requires metrics.Reconciles() && BufferResult(job, bytes, w.encodes) == Err(error) && w.source == store.Lookup(from)
      requires forward == Some(bytes) || policies.dryRun
      modifies metrics`objects, store
      ensures Did(BufferOutcome(job, policies, w, bytes), r, old(metrics.View()), metrics.View(),
                  old(store.objects), store.objects, at, names)
    {
      hide BufferResult, BufferCounts, BufferOutcome, Gains, Balanced, DropsNamed, Sum;
      ghost var before, effect := metrics.View(), BufferOutcome(job, policies, w, bytes);
      OutcomeShape(job, policies, w, bytes);
      FailedOutcome(w, bytes, error);
      if Copies(policies, error) {
        r := CopyUnparsable(w, from, at, forward);
      } else {
        r := Err(error);
      }
      GainsObjects(before, metrics.View(), effect.objects, names);
    }

    lemma FailedOutcome(w: World, bytes: Bytes, error: CoreError)
      requires BufferResult(job, bytes, w.encodes) == Err(error)
      ensures BufferOutcome(job, policies, w, bytes) ==
              if Copies(policies, error) then CopyUnparsableEffect(policies, w, Some(bytes)) else Fails(error)
      ensures policies.dryRun ==> CopyUnparsableEffect(policies, w, Some(bytes)) == CopyUnparsableEffect(policies, w, None)
    {
      hide BufferResult, BufferCounts;
    }

    method ProcessBuffer(w: World, from: Location, at: Location) returns (r: Result<(), CoreError>)
      requires Ready() && Faces(w, from) && !policies.dryRun
      modifies metrics, store
      ensures metrics.Reconciles()
      ensures Did(BufferEffect(job, policies, w), r, old(metrics.View()), metrics.View(), old(store.objects), store.objects, at, names)
    {
      hide BufferResult, BufferOutcome, BufferCounts, Gains, Balanced, Attributes, DropsNamed, Sum, StreamsObject,
           Streaming.Finished;
      ghost var before, effect := metrics.View(), BufferEffect(job, policies, w);
      var fetched := FetchWithMissingPolicy(from, w.first);
      if fetched.Err? || fetched.value.None? {
        GainsObjects(before, metrics.View(), effect.objects, names);
        return if fetched.Err? then Err(fetched.error) else Ok(());
      }
      var bytes := fetched.value.value;
      ghost var outcome := BufferOutcome(job, policies, w, bytes);
      var result, tally := BufferRun(job, bytes, w.encodes);
      var retried := result == Err(ObjectTooLarge) && policies.streamTooLarge;
      if !retried {
        metrics.AddBytesIn(|bytes|);
      }
      label Billed:
      ghost var read := QUIET.(bytesIn := if retried then 0 else |bytes|);
      assert effect == outcome.(objects := read.Plus(outcome.objects));
      GainsObjects(before, metrics.View(), read, names);
      r := FinishBuffer(w, from, at, bytes, result, tally);
      GainsThen(before, old@Billed(metrics.View()), metrics.View(), read, outcome.objects, outcome.counts, names);
    }

    /** A buffered preview: every record is evaluated and published, nothing is put. */
    method ProcessDryRun(w: World, from: Location, at: Location) returns (r: Result<(), CoreError>)
      requires Ready() && Faces(w, from) && policies.dryRun
      modifies metrics, store
      ensures metrics.Reconciles()
      ensures Did(BufferEffect(job, policies, w), r, old(metrics.View()), metrics.View(), old(store.objects), store.objects, at, names)
    {
      hide BufferResult, BufferOutcome, BufferCounts, Gains, Balanced, Attributes, DropsNamed, Sum, StreamsObject,
           Streaming.Finished;
      ghost var before, effect := metrics.View(), BufferEffect(job, policies, w);
      var fetched := FetchWithMissingPolicy(from, w.first);
      if fetched.Err? || fetched.value.None? {
        GainsObjects(before, metrics.View(), effect.objects, names);
        return if fetched.Err? then Err(fetched.error) else Ok(());
      }
      var bytes := fetched.value.value;
      ghost var outcome := BufferOutcome(job, policies, w, bytes);
      var result, tally := BufferRun(job, bytes, w.encodes);
      var retried := result == Err(ObjectTooLarge) && policies.streamTooLarge;
      if !retried {
        metrics.AddBytesIn(|bytes|);
      }
      label Billed:
      ghost var read := QUIET.(bytesIn := if retried then 0 else |bytes|);
      assert effect == outcome.(objects := read.Plus(outcome.objects));
      GainsObjects(before, metrics.View(), read, names);
      r := FinishDryRun(w, from, at, bytes, result, tally);
      GainsThen(before, old@Billed(metrics.View()), metrics.View(), read, outcome.objects, outcome.counts, names);
    }

    /** A buffered result, previewed: published and counted, or classified as a copy, or failed. */
    method FinishDryRun(
        w: World, from: Location, at: Location, bytes: Bytes, result: Result<Outcome, CoreError>,
        tally: RecordTally)
        returns (r: Result<(), CoreError>)
      requires metrics.Reconciles() && policies.dryRun && result == BufferResult(job, bytes, w.encodes) && w.source == store.Lookup(from)
      requires result.Ok? ==> tally.View() == BufferCounts(job, bytes)
      requires Attributes(job.evaluate, names)
      modifies metrics, store
      ensures metrics.Reconciles()
      ensures Did(BufferOutcome(job, policies, w, bytes), r, old(metrics.View()), metrics.View(),
                  old(store.objects), store.objects, at, names)
    {
      hide BufferResult, BufferCounts, BufferOutcome, Gains, Balanced, Attributes, DropsNamed, Sum, ObjectTotals.Plus;
      ghost var before := metrics.View();
      if result.Err? {
        r := FailBuffer(w, from, at, bytes, result.error, None);
        return;
      }
      PreviewedOutcome(w, bytes, result.value);
      QuietPlus(before.objects);
      if result.value.Unrecognized? {
        metrics.AddUnrecognizedObjects(1);
      }
      CountsAttributed(bytes);
      ghost var moved := QUIET.(unrecognized := if result.value.Unrecognized? then 1 else 0);
      Complete(tally, before, moved);
      PreviewedTotals(moved.unrecognized);
      r := Ok(());
    }

    lemma PreviewedTotals(n: nat)
      ensures QUIET.(unrecognized := n).Plus(QUIET.(processed := 1)) == QUIET.(processed := 1, unrecognized := n)
    {
    }

    lemma PreviewedOutcome(w: World, bytes: Bytes, outcome: Outcome)
      requires policies.dryRun && BufferResult(job, bytes, w.encodes) == Ok(outcome)
      ensures BufferOutcome(job, policies, w, bytes) ==
              Effect(Ok(()), QUIET.(processed := 1, unrecognized := if outcome.Unrecognized? then 1 else 0), BufferCounts(job, bytes), None)
    {
      hide BufferResult, BufferCounts;
    }

    /** Folds a preview's scratch counters back, all but the bytes that went nowhere. */
    method FoldBack(scratch: Metrics, ghost gained: ObjectTotals, ghost counts: Counts)
      requires scratch != metrics && metrics.Reconciles() && scratch.Reconciles() && Balanced(counts)
      requires Gains(MetricsView(QUIET, 0, 0, 0, 0, map[]), scratch.View(), gained, counts, names)
      modifies metrics, scratch
      ensures metrics.Reconciles()
      ensures Gains(old(metrics.View()), metrics.View(), QUIET.(bytesIn := gained.bytesIn), counts, names)
    {
      hide DropsNamed, Sum, Balanced;
      var snapshot := scratch.SnapshotAndReset();
      metrics.AddBytesIn(snapshot.objects.bytesIn);
      metrics.AddRecords(snapshot.records.recordsIn, snapshot.records.kept, snapshot.records.dropped, snapshot.records.parseErrors);
      FoldDrops(snapshot.ruleDrops);
    }

    /** Adds a preview's drops, rule by rule. */
    method FoldDrops(drops: map<string, nat>)
      modifies metrics`ruleDrops
      ensures Sum(metrics.ruleDrops) == old(Sum(metrics.ruleDrops)) + Sum(drops)
      ensures forall name :: Get(metrics.ruleDrops, name) == Get(old(metrics.ruleDrops), name) + Get(drops, name)
    {
      hide Sum;
      SumEmpty();
      var todo := drops;
      while todo != map[]
        invariant Sum(metrics.ruleDrops) + Sum(todo) == old(Sum(metrics.ruleDrops)) + Sum(drops)
        invariant forall name :: Get(metrics.ruleDrops, name) + Get(todo, name) == Get(old(metrics.ruleDrops), name) + Get(drops, name)
        decreases todo.Keys
      {
        var name :| name in todo;
        SumRemove<string>(todo, name);
        metrics.RecordRuleDrops(name, todo[name]);
        todo := todo - {name};
      }
    }

    lemma SumEmpty()
      ensures Sum<string>(map[]) == 0
    {
    }

    /** What a streaming call without a store comes to. */
    lemma PreviewedStream(w: World)
      requires policies.dryRun && w.streaming.Finished()
      ensures StreamOutcomeEffect(policies, w) ==
              match Returned(w.streaming.last)
              case Err(error) =>
                if Copies(policies, StreamFailure(error)) then CopyUnparsableEffect(policies, w, None)
                else Fails(StreamFailure(error))
              case Ok(result) =>
                Effect(Ok(()), QUIET.(processed := 1, unrecognized := if result.Skipped? then 1 else 0),
                       Published(w.streaming.last).value, None)
    {
      hide S.Reaches, S.Final;
    }

    method ProcessDryRunStream(
        w: World, from: Location, at: Location, fault: ReadFault) returns (r: Result<(), CoreError>)
      requires Ready() && policies.dryRun && w.source == store.Lookup(from)
      requires w.streaming.Finished() && w.streaming.cfg.evaluate == job.evaluate
      modifies metrics, store
      ensures metrics.Reconciles()
      ensures Did(StreamEffect(policies, w, fault), r, old(metrics.View()), metrics.View(), old(store.objects), store.objects, at, names)
    {
      hide Gains, Balanced, Attributes, DropsNamed, Sum, Streaming.Finished, Published, Returned, BilledOut, StreamOutcomeEffect,
           ObjectTotals.Plus;
      ghost var before, effect := metrics.View(), StreamEffect(policies, w, fault);
      QuietPlus(before.objects);
      var got := OpenWithMissingPolicy(from, fault);
      if got.Err? || got.value.None? {
        GainsObjects(before, metrics.View(), effect.objects, names);
        return if got.Err? then Err(got.error) else Ok(());
      }
      var scratch := new Metrics();
      var result := StreamRun(w.streaming, scratch, names, None, at);
      ghost var s := w.streaming.last;
      PublishedBalances(w);
      ghost var published := if Published(s).Some? then Published(s).value else ZERO;
      FoldBack(scratch, QUIET.(bytesIn := s.pump.bytesIn, bytesOut := BilledOut(s)), published);
      label Folded:
      r := FinishPreview(w, from, at, result);
      ghost var outcome := StreamOutcomeEffect(policies, w);
      PreviewedStream(w);
      GainsObjects(old@Folded(metrics.View()), metrics.View(), outcome.objects, names);
      GainsThenObjects(before, old@Folded(metrics.View()), metrics.View(), QUIET.(bytesIn := s.pump.bytesIn), published,
                       outcome.objects, names);
    }

    /** Classifies a streaming call without a store; nothing is written. */
    method FinishPreview(
        w: World, from: Location, at: Location, result: Result<S.FilterResult, S.StreamError>)
      returns (r: Result<(), CoreError>)
      requires policies.dryRun && w.source == store.Lookup(from)
      requires w.streaming.Finished() && result == Returned(w.streaming.last)
      modifies metrics`objects, store
      ensures var e := StreamOutcomeEffect(policies, w);
              && r == e.result && metrics.objects == old(metrics.objects).Plus(e.objects)
              && store.objects == if e.wrote.Some? then old(store.objects)[at := e.wrote.value] else old(store.objects)
    {
      hide Streaming.Finished, Published, Returned, StreamOutcomeEffect;
      PreviewedStream(w);
      if result.Ok? {
        if result.value.Skipped? {
          metrics.AddUnrecognizedObjects(1);
        }
        metrics.AddObjectsProcessed(1);
        r := Ok(());
      } else if Copies(policies, StreamFailure(result.error)) {
        r := CopyUnparsable(w, from, at, None);
      } else {
        r := Err(StreamFailure(result.error));
      }
    }

    lemma PublishedBalances(w: World)
      requires w.streaming.Finished() && Attributes(w.streaming.cfg.evaluate, names)
      ensures Published(w.streaming.last).Some? ==> Balanced(Published(w.streaming.last).value)
      ensures Published(w.streaming.last).Some? <==> Returned(w.streaming.last).Ok?
      ensures Balanced(ZERO)
    {
      hide Balanced, S.Reaches, S.Final;
      PublishedAttributed(w.streaming, names);
      ZeroBalances();
    }

    /** After a live streaming call: what was written stays; the rest is classified or copied. */
    method ProcessStream(w: World, from: Location, at: Location, fault: ReadFault) returns (r: Result<(), CoreError>)
      requires Ready() && !policies.dryRun && w.source == store.Lookup(from)
      requires w.streaming.Finished() && w.streaming.cfg.evaluate == job.evaluate
      modifies metrics, store
      ensures metrics.Reconciles()
      ensures Did(StreamEffect(policies, w, fault), r, old(metrics.View()), metrics.View(), old(store.objects), store.objects, at, names)
    {
      hide Gains, Balanced, Attributes, DropsNamed, Sum, Streaming.Finished, Published, Returned, BilledOut, StreamOutcomeEffect,
           StreamCopyEffect, ObjectTotals.Plus;
      ghost var before, effect := metrics.View(), StreamEffect(policies, w, fault);
      QuietPlus(before.objects);
      var got := OpenWithMissingPolicy(from, fault);
      if got.Err? || got.value.None? {
        GainsObjects(before, metrics.View(), effect.objects, names);
        return if got.Err? then Err(got.error) else Ok(());
      }
      var result := StreamRun(w.streaming, metrics, names, Some(store), at);
      ghost var s := w.streaming.last;
      PublishedBalances(w);
      ghost var published := if Published(s).Some? then Published(s).value else ZERO;
      label Streamed:
      r := FinishStream(w, from, at, result);
      LiveStream(w);
      ghost var later := LaterEffect(w);
      BilledTotals(s.pump.bytesIn, BilledOut(s), later.objects);
      GainsObjects(old@Streamed(metrics.View()), metrics.View(), later.objects, names);
      GainsThenObjects(before, old@Streamed(metrics.View()), metrics.View(),
                       QUIET.(bytesIn := s.pump.bytesIn, bytesOut := BilledOut(s)), published, later.objects, names);
    }

    /** What is left to do after a live streaming call has returned. */
    ghost function LaterEffect(w: World): Effect
      requires w.streaming.Finished()
    {
      match Returned(w.streaming.last)
      case Err(error) =>
        if Copies(policies, StreamFailure(error)) then CopyUnparsableEffect(policies, w, None)
        else Fails(StreamFailure(error))
      case Ok(result) => if result.Skipped? then StreamUnrecognizedEffect(policies, w) else Completes(ZERO, None)
    }

    /** Classifies a live streaming call: done, without records, to be copied, or failed. */
    method FinishStream(
        w: World, from: Location, at: Location, result: Result<S.FilterResult, S.StreamError>)
      returns (r: Result<(), CoreError>)
      requires !policies.dryRun && (result == Ok(S.Written) || w.source == store.Lookup(from))
      requires w.streaming.Finished() && result == Returned(w.streaming.last)
      modifies metrics`objects, store
      ensures var e := LaterEffect(w);
              && r == e.result && metrics.objects == old(metrics.objects).Plus(e.objects)
              && store.objects == if e.wrote.Some? then old(store.objects)[at := e.wrote.value] else old(store.objects)
    {
      hide S.Reaches, S.Final, StreamCopyEffect, Streaming.Finished, Returned;
      if result.Err? {
        if Copies(policies, StreamFailure(result.error)) {
          r := CopyUnparsable(w, from, at, None);
        } else {
          r := Err(StreamFailure(result.error));
        }
        return;
      }
      if !result.value.Skipped? {
        metrics.AddObjectsProcessed(1);
        return Ok(());
      }
      metrics.AddUnrecognizedObjects(1);
      match policies.onUnrecognized {
        case CopyIt =>
          CopyCompletes(w);
          var copied := StreamCopy(w, from, at, false);
          if copied.Err? {
            return Err(copied.error);
          }
          if !copied.value {
            return Ok(());
          }
        case SkipIt =>
        case FailIt => return Err(UnrecognizedObject);
      }
      metrics.AddObjectsProcessed(1);
      r := Ok(());
    }

    lemma CopyCompletes(w: World)
      ensures var e := StreamCopyEffect(policies, w, false);
              e.result.Ok? ==> e.result == Ok(()) && e.objects.processed == if FindsNothing(w.source, w.copy) then 0 else 1
      ensures StreamCopyEffect(policies, w, false).result.Err? ==> StreamCopyEffect(policies, w, false).objects.processed == 0
    {
    }

    lemma LiveStream(w: World)
      requires !policies.dryRun && w.streaming.Finished()
      ensures var (s, e, later) := (w.streaming.last, StreamOutcomeEffect(policies, w), LaterEffect(w));
              && e.result == later.result
              && e.objects == QUIET.(bytesOut := BilledOut(s)).Plus(later.objects)
              && e.counts == (if Published(s).Some? then Published(s).value else ZERO)
              && e.wrote == if Returned(s) == Ok(S.Written) then s.upload.dest else later.wrote
    {
      hide S.Reaches, S.Final, StreamCopyEffect, Streaming.Finished, Returned, CopyUnparsableEffect,
           StreamUnrecognizedEffect, ObjectTotals.Plus;
      LaterCounts(w);
      var s, later := w.streaming.last, LaterEffect(w);
      QuietPlus(later.objects);
      if Returned(s) == Ok(S.Written) {
        WrittenTotals(BilledOut(s));
      } else {
        assert QUIET.(bytesOut := BilledOut(s)) == QUIET;
      }
    }

    lemma BilledTotals(n: nat, out: nat, o: ObjectTotals)
      ensures QUIET.(bytesIn := n, bytesOut := out).Plus(o) == QUIET.(bytesIn := n).Plus(QUIET.(bytesOut := out).Plus(o))
    {
    }

    lemma WrittenTotals(n: nat)
      ensures QUIET.(bytesOut := n).Plus(QUIET.(processed := 1)) == QUIET.(processed := 1, bytesOut := n)
    {
    }

    lemma LaterCounts(w: World)
      ensures StreamUnrecognizedEffect(policies, w).counts == CopyUnparsableEffect(policies, w, None).counts == ZERO
    {
    }

    /** One object, from mode choice to retry: a dry run selects what is written, not the mode. */
    method ProcessObject(w: World, from: Location, at: Location) returns (r: Result<(), CoreError>)
      requires Ready() && Faces(w, from)
      modifies metrics, store
      ensures metrics.Reconciles()
      ensures Did(ObjectEffect(job, policies, w), r, old(metrics.View()), metrics.View(), old(store.objects), store.objects, at, names)
    {
      hide BufferEffect, StreamEffect, StreamsObject, Gains, Balanced, Attributes, Streaming.Finished, Sum,
           ObjectTotals.Plus, DropsNamed;
      if Streams(policies, w.size) {
        r := Stream(w, from, at, w.first);
        return;
      }
      ghost var before := metrics.View();
      if policies.dryRun {
        r := ProcessDryRun(w, from, at);
      } else {
        r := ProcessBuffer(w, from, at);
      }
      if r == Err(ObjectTooLarge) && policies.streamTooLarge {
        RetryIsClean(job, policies, w);
        BufferSound(job, policies, w);
        label Retrying:
        r := Stream(w, from, at, w.retry);
        ghost var retried := StreamEffect(policies, w, w.retry);
        QuietPlus(retried.objects);
        GainsThen(before, old@Retrying(metrics.View()), metrics.View(), QUIET, retried.objects, retried.counts, names);
      }
    }

    method Stream(w: World, from: Location, at: Location, fault: ReadFault) returns (r: Result<(), CoreError>)
      requires Ready() && Faces(w, from)
      modifies metrics, store
      ensures metrics.Reconciles()
      ensures Did(StreamEffect(policies, w, fault), r, old(metrics.View()), metrics.View(), old(store.objects), store.objects, at, names)
    {
      hide StreamEffect, StreamsObject, Gains, Balanced, Attributes, Streaming.Finished, Sum;
      if policies.dryRun {
        r := ProcessDryRunStream(w, from, at, fault);
      } else {
        r := ProcessStream(w, from, at, fault);
      }
    }
  }
}
