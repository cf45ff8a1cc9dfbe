/**
 What processing one object comes to: its result, the counters it moves and what it lands at
 the destination, for every policy and every way the store and the two modes may answer.
 */
module Effects {
  import opened Wrappers
  import opened Tally
  import opened Codecs
  import opened Envelopes
  import opened Errors
  import opened Records
  import opened Buffer
  import S = Stream
  import opened StreamSafety
  import opened StreamOutcome
  import opened StreamRaces

  // ----- Settings -----

  datatype Mode = BufferMode | StreamMode | Auto

  datatype OnUnrecognized = CopyIt | SkipIt | FailIt

  datatype Policies = Policies(
    mode: Mode, streamThreshold: nat, skipMissing: bool, streamTooLarge: bool, copyUnparsable: bool,
    onUnrecognized: OnUnrecognized, dryRun: bool)

  // ----- How the world answers -----

  /** How one opening of the source goes: not found (any more), refused, failing after some bytes, or to its end. */
  datatype ReadFault = Gone | Refused | FailsAfter(n: nat) | NoFault

  /** One streaming call, as the protocol ended it. */
  datatype Streaming = Streaming(cfg: S.Config, last: S.State) {
    ghost predicate Finished()
      ensures Finished() ==> S.Final(last)
    {
      cfg.Valid() && S.Reaches(cfg, last) && S.Final(last)
    }
  }

  /**
   One object and everything outside the program it depends on: its content, how each opening
   of it goes, the streaming call should there be one, and whether writes succeed.
   `copied` is how far a verbatim copy gets before its upload fails, if it does.
   */
  datatype World = World(
    source: Option<Bytes>, size: Option<nat>, first: ReadFault, retry: ReadFault, copy: ReadFault,
    streaming: Streaming, encodes: nat -> bool, putOk: bool, copied: Option<nat>)

  /** What a reader opened under a fault delivers. */
  function Delivered(body: Bytes, fault: ReadFault): Bytes {
    if fault.FailsAfter? && fault.n < |body| then body[..fault.n] else body
  }

  /** The streaming call was given this object's bytes, rules and libraries. */
  ghost predicate StreamsObject(job: Job, body: Bytes, fault: ReadFault, run: Streaming) {
    && run.Finished() && run.cfg.codec == job.codec && run.cfg.evaluate == job.evaluate
    && Concat(run.cfg.chunks) == Delivered(body, fault) && (run.cfg.readFails <==> fault.FailsAfter?)
    && PlanFits(job, body, run.cfg.plan)
  }

  ghost predicate PlanFits(job: Job, body: Bytes, plan: Plan) {
    var inflation := job.codec.gunzip(body);
    if inflation.corrupt then plan.verdict == Malformed else IsStreamPlan(job.parse(inflation.text), plan)
  }

  // ----- Effects -----

  /** The object counters moved, the records published, and the bytes landed. */
  datatype Effect = Effect(result: Result<(), CoreError>, objects: ObjectTotals, counts: Counts, wrote: Option<Bytes>)

  function Fails(error: CoreError): Effect {
    Effect(Err(error), QUIET, ZERO, None)
  }

  function Skips(): Effect {
    Effect(Ok(()), QUIET.(skipped := 1), ZERO, None)
  }

  /** An object completed: its records published, and `wrote` landed. */
  function Completes(counts: Counts, wrote: Option<Bytes>): Effect {
    Effect(Ok(()), QUIET.(processed := 1, bytesOut := if wrote.Some? then |wrote.value| else 0), counts, wrote)
  }

  function ReadsIn(e: Effect, n: nat): Effect {
    e.(objects := QUIET.(bytesIn := n).Plus(e.objects))
  }

  lemma ReadsInTotals(e: Effect, n: nat)
    ensures var f := ReadsIn(e, n);
            && f.result == e.result && f.counts == e.counts && f.wrote == e.wrote
            && f.objects == e.objects.(bytesIn := e.objects.bytesIn + n)
  {
  }

  function MarksUnrecognized(e: Effect): Effect {
    e.(objects := e.objects.(unrecognized := e.objects.unrecognized + 1))
  }

  function MarksCopied(e: Effect): Effect {
    e.(objects := e.objects.(copiedUnparsed := e.objects.copiedUnparsed + 1))
  }

  function Missing(p: Policies): Effect {
    if p.skipMissing then Skips() else Fails(NotFound)
  }

  /** Whether an opening finds nothing. */
  predicate FindsNothing(source: Option<Bytes>, fault: ReadFault) {
    source.None? || fault == Gone
  }

  function Copies(p: Policies, error: CoreError): bool {
    p.copyUnparsable && error.IsUnparsableSource()
  }

  // ----- Verbatim copies -----

  /** How many bytes a copy reads: all, or up to the read failure, or up to where its upload failed. */
  function CopyReads(w: World, body: Bytes): nat {
    var there := |Delivered(body, w.copy)|;
    if w.copied.Some? && w.copied.value < there then w.copied.value else there
  }

  /** The copy lands whole or not at all. */
  function StreamCopyEffect(p: Policies, w: World, counted: bool): Effect {
    if FindsNothing(w.source, w.copy) then Missing(p)
    else if w.copy == Refused then Fails(Backend)
    else
      var e := if w.copy == NoFault && w.copied == None then Completes(ZERO, w.source) else Fails(Backend);
      if counted then ReadsIn(e, CopyReads(w, w.source.value)) else e
  }

  /** A put of bytes already in memory. */
  function PutEffect(w: World, counts: Counts, body: Bytes): Effect {
    if w.putOk then Completes(counts, Some(body)) else Fails(Backend)
  }

  /** Forwards a source that did not parse, from memory or by reading it again. */
  function CopyUnparsableEffect(p: Policies, w: World, bytes: Option<Bytes>): Effect {
    MarksCopied(
      if p.dryRun then Completes(ZERO, None)
      else if bytes.Some? then PutEffect(w, ZERO, bytes.value)
      else StreamCopyEffect(p, w, false))
  }

  // ----- Buffer mode -----

  /** Reads at most one byte past the cap: a failure beyond it is never met. */
  function Fetch(job: Job, body: Bytes, fault: ReadFault): Result<Bytes, CoreError> {
    if fault == Refused then Err(Backend)
    else if |Delivered(body, fault)| > job.maxObjectBytes then Err(ObjectTooLarge)
    else if fault.FailsAfter? then Err(Backend)
    else Ok(body)
  }

  ghost function BufferOutcome(job: Job, p: Policies, w: World, bytes: Bytes): Effect {
    var counts := BufferCounts(job, bytes);
    match BufferResult(job, bytes, w.encodes)
    case Err(error) =>
      if Copies(p, error) then CopyUnparsableEffect(p, w, Some(bytes)) else Fails(error)
    case Ok(Written(body)) =>
      if p.dryRun || body.None? then Completes(counts, None) else PutEffect(w, counts, body.value)
    case Ok(NothingKept) => Completes(counts, None)
    case Ok(Unrecognized) =>
      MarksUnrecognized(
        if p.dryRun || p.onUnrecognized == SkipIt then Completes(counts, None)
        else if p.onUnrecognized == CopyIt then PutEffect(w, counts, bytes)
        else Fails(UnrecognizedObject))
  }

  ghost function BufferEffect(job: Job, p: Policies, w: World): Effect {
    if FindsNothing(w.source, w.first) then Missing(p)
    else
      match Fetch(job, w.source.value, w.first)
      case Err(error) => Fails(error)
      case Ok(bytes) =>
        var retried := BufferResult(job, bytes, w.encodes) == Err(ObjectTooLarge) && p.streamTooLarge;
        ReadsIn(BufferOutcome(job, p, w, bytes), if retried then 0 else |bytes|)
  }

  // ----- Stream mode -----

  function StreamFailure(error: S.StreamError): CoreError {
    match error
    case Internal => CoreError.Internal
    case Unparsable => Json
    case SourceUnread => Backend
    case UploadFailed => Backend
  }

  function StreamOutcomeEffect(p: Policies, w: World): Effect
    requires w.streaming.Finished()
  {
    var s := w.streaming.last;
    match Returned(s)
    case Err(error) =>
      if Copies(p, StreamFailure(error)) then CopyUnparsableEffect(p, w, None) else Fails(StreamFailure(error))
    case Ok(Written) =>
      if p.dryRun then Completes(s.filter.tally, None)
      else Completes(s.filter.tally, s.upload.dest).(objects := QUIET.(processed := 1, bytesOut := BilledOut(s)))
    case Ok(Skipped) => StreamUnrecognizedEffect(p, w)
    case Ok(_) => Completes(s.filter.tally, None)
  }

  /** The policy for a streamed object without records: its bytes are fetched again only to copy them. */
  function StreamUnrecognizedEffect(p: Policies, w: World): Effect {
    MarksUnrecognized(
      if p.dryRun || p.onUnrecognized == SkipIt then Completes(ZERO, None)
      else if p.onUnrecognized == CopyIt then StreamCopyEffect(p, w, false)
      else Fails(UnrecognizedObject))
  }

  function StreamEffect(p: Policies, w: World, fault: ReadFault): Effect
    requires w.streaming.Finished()
  {
    if FindsNothing(w.source, fault) then Missing(p)
    else if fault == Refused then Fails(Backend)
    else ReadsIn(StreamOutcomeEffect(p, w), w.streaming.last.pump.bytesIn)
  }

  // ----- One object -----

  predicate Streams(p: Policies, size: Option<nat>) {
    p.mode == StreamMode || (p.mode == Auto && size.Some? && size.value > p.streamThreshold)
  }

  /** Both attempts of a retried object leave their counters. */
  function Then(a: Effect, b: Effect): Effect {
    b.(objects := a.objects.Plus(b.objects))
  }

  ghost function ObjectEffect(job: Job, p: Policies, w: World): Effect
    requires w.streaming.Finished()
  {
    if Streams(p, w.size) then StreamEffect(p, w, w.first)
    else
      var buffered := BufferEffect(job, p, w);
      if buffered.result == Err(ObjectTooLarge) && p.streamTooLarge then Then(buffered, StreamEffect(p, w, w.retry))
      else buffered
  }

  /** The copy made when no ruleset was ever loaded. */
  function RawCopyEffect(p: Policies, w: World): Effect {
    StreamCopyEffect(p, w, true)
  }

  /** Without a ruleset a dry run is not dry: the copy is made all the same, whenever it can be. */
  lemma RawCopyIgnoresDryRun(p: Policies, w: World)
    ensures RawCopyEffect(Dry(p), w) == RawCopyEffect(p, w)
    ensures RawCopyEffect(Dry(p), w).wrote == (if w.copy == NoFault && w.copied == None then w.source else None)
  {
  }

  // ----- What holds of every object -----

  /** The streaming call, if the object comes to one, is given the object. */
  ghost predicate Fits(job: Job, p: Policies, w: World) {
    && job.Valid() && w.streaming.Finished() && w.streaming.cfg.evaluate == job.evaluate
    && (w.source.Some? ==>
          && |job.codec.gunzip(w.source.value).text| < U64_MAX
          && StreamsObject(job, w.source.value, if Streams(p, w.size) then w.first else w.retry, w.streaming))
  }

  /** What the pipeline relies on of an effect, whatever the policies. */
  ghost predicate Sound(w: World, e: Effect) {
    && (e.result.Ok? ==> e.objects.processed + e.objects.skipped == 1)
    && (e.result.Err? ==> e.objects.processed == e.objects.skipped == 0 && e.counts == ZERO && e.wrote == None)
    && e.objects.bytesOut == (if e.wrote.Some? then |e.wrote.value| else 0)
    && e.objects.bytesIn <= (if w.source.Some? then |w.source.value| else 0)
    && Balanced(e.counts) && e.objects.failed == 0
  }

  lemma DeliveredWithin(body: Bytes, fault: ReadFault)
    ensures |Delivered(body, fault)| <= |body| && (fault == NoFault ==> Delivered(body, fault) == body)
  {
  }

  lemma ZeroBalances()
    ensures Balanced(ZERO)
  {
  }

  lemma CopySound(p: Policies, w: World, counted: bool)
    ensures Sound(w, StreamCopyEffect(p, w, counted))
    ensures !counted ==> StreamCopyEffect(p, w, counted).objects.bytesIn == 0
    ensures counted && StreamCopyEffect(p, w, counted).objects.processed == 1 ==>
              w.source.Some? && StreamCopyEffect(p, w, counted).objects.bytesIn == |w.source.value|
  {
    hide Balanced, Delivered, ReadsIn;
    ZeroBalances();
    if w.source.Some? {
      DeliveredWithin(w.source.value, w.copy);
      ReadsInTotals(Completes(ZERO, w.source), CopyReads(w, w.source.value));
      ReadsInTotals(Fails(Backend), CopyReads(w, w.source.value));
    }
  }

  /** What a buffered outcome's counters are: an object that completes publishes its tally, or was copied. */
  lemma OutcomeShape(job: Job, p: Policies, w: World, bytes: Bytes)
    ensures var e := BufferOutcome(job, p, w, bytes);
            && e.objects.skipped == 0 && e.objects.bytesIn == 0 && e.objects.failed == 0
            && (e.result.Ok? ==> e.objects.processed == 1)
            && (e.result.Err? ==> e.objects.processed == 0 && e.counts == ZERO && e.wrote == None)
            && e.objects.bytesOut == (if e.wrote.Some? then |e.wrote.value| else 0)
            && (BufferResult(job, bytes, w.encodes).Ok? && e.result.Ok? ==> e.counts == BufferCounts(job, bytes))
            && (BufferResult(job, bytes, w.encodes).Err? ==> e.counts == ZERO)
            && (e.result == Err(ObjectTooLarge) <==> BufferResult(job, bytes, w.encodes) == Err(ObjectTooLarge))
            && (e.result == Err(ObjectTooLarge) ==> e == Fails(ObjectTooLarge))
  {
    hide BufferResult, BufferCounts;
  }

  lemma BufferSound(job: Job, p: Policies, w: World)
    requires Fits(job, p, w)
    ensures var e := BufferEffect(job, p, w);
            Sound(w, e) && (e.objects.processed == 1 ==> w.source.Some? && e.objects.bytesIn == |w.source.value|)
    ensures BufferEffect(job, p, w).result == Err(ObjectTooLarge) && p.streamTooLarge ==> BufferEffect(job, p, w).objects == QUIET
  {
    hide BufferResult, BufferOutcome, BufferCounts, Concat, Balanced, PlanFits, Streaming.Finished, StreamsObject,
         Fetch, ReadsIn;
    ZeroBalances();
    if w.source.Some? {
      ReadsInTotals(BufferOutcome(job, p, w, w.source.value), 0);
      ReadsInTotals(BufferOutcome(job, p, w, w.source.value), |w.source.value|);
      FetchIsWhole(job, w.source.value, w.first);
      OutcomeShape(job, p, w, w.source.value);
      WrittenIsEnvelope(job, w.source.value, w.encodes);
    }
  }

  lemma FetchIsWhole(job: Job, body: Bytes, fault: ReadFault)
    ensures Fetch(job, body, fault).Ok? ==> Fetch(job, body, fault) == Ok(body)
  {
  }

  lemma StreamedCounts(job: Job, body: Bytes, fault: ReadFault, run: Streaming)
    requires StreamsObject(job, body, fault, run)
    ensures var s := run.last;
            && s.pump.bytesIn <= |Delivered(body, fault)|
            && (Returned(s).Ok? ==> s.pump.bytesIn == |body| && !fault.FailsAfter?)
            && (Returned(s) == Ok(S.Written) ==> s.upload.dest.Some?)
            && BilledOut(s) == (if Returned(s) == Ok(S.Written) then |s.upload.dest.value| else 0)
            && (Returned(s).Ok? && Returned(s).value != S.Skipped ==> Balanced(s.filter.tally))
  {
    hide S.Reaches, S.Final, Concat, CountAll, Verdicts, Kept, Balanced, PlanFits;
    SuccessIsExact(run.cfg, run.last);
    CountsBalance(Verdicts(run.cfg.plan.records, run.cfg.evaluate));
  }

  lemma StreamSound(job: Job, p: Policies, w: World, fault: ReadFault)
    requires w.source.Some? ==> StreamsObject(job, w.source.value, fault, w.streaming)
    requires w.streaming.Finished()
    ensures var e := StreamEffect(p, w, fault);
            && Sound(w, e)
            && (e.objects.processed == 1 && e.objects.copiedUnparsed == 0 ==>
                  w.source.Some? && e.objects.bytesIn == |w.source.value|)
  {
    hide S.Reaches, S.Final, Concat, Balanced, Returned, PlanFits, Delivered, StreamOutcomeEffect, ReadsIn, StreamsObject;
    ZeroBalances();
    if w.source.Some? && fault != Refused {
      StreamedCounts(job, w.source.value, fault, w.streaming);
      DeliveredWithin(w.source.value, fault);
      StreamOutcomeSound(job, p, w, fault);
      ReadsInTotals(StreamOutcomeEffect(p, w), w.streaming.last.pump.bytesIn);
    }
  }

  /** What a finished streaming call moves besides the bytes it read. */
  lemma StreamOutcomeSound(job: Job, p: Policies, w: World, fault: ReadFault)
    requires w.source.Some? && StreamsObject(job, w.source.value, fault, w.streaming)
    ensures var e := StreamOutcomeEffect(p, w);
            && Sound(w, e) && e.objects.bytesIn == 0
            && (e.objects.processed == 1 && e.objects.copiedUnparsed == 0 ==> Returned(w.streaming.last).Ok?)
  {
    hide S.Reaches, S.Final, Concat, Balanced, Returned, PlanFits, StreamCopyEffect, Delivered, BilledOut, StreamsObject;
    ZeroBalances();
    CopySound(p, w, false);
    StreamedCounts(job, w.source.value, fault, w.streaming);
  }

  /** A retry leaves no trace of the attempt before it. */
  lemma RetryIsClean(job: Job, p: Policies, w: World)
    requires Fits(job, p, w) && !Streams(p, w.size) && p.streamTooLarge
    requires BufferEffect(job, p, w).result == Err(ObjectTooLarge)
    ensures ObjectEffect(job, p, w) == StreamEffect(p, w, w.retry)
  {
    hide BufferEffect, StreamEffect, StreamsObject, Sound, Streaming.Finished, Job.Valid;
    BufferSound(job, p, w);
    assert StreamEffect(p, w, w.retry) == Then(BufferEffect(job, p, w), StreamEffect(p, w, w.retry));
  }

  /** Whether the object's last attempt is a streaming one. */
  ghost predicate ComesToStream(job: Job, p: Policies, w: World) {
    Streams(p, w.size) || (BufferEffect(job, p, w).result == Err(ObjectTooLarge) && p.streamTooLarge)
  }

  /**
   Through every mode choice, policy and retry: a failed object publishes no record and lands
   nothing; a successful one is counted once; output bytes are those landed; and the source is
   billed at most once, and whole unless a streaming parse failure cut it short.
   */
  lemma ObjectSound(job: Job, p: Policies, w: World)
    requires Fits(job, p, w)
    ensures var e := ObjectEffect(job, p, w);
            && Sound(w, e)
            && (e.objects.processed == 1 && (e.objects.copiedUnparsed == 0 || !ComesToStream(job, p, w)) ==>
                  w.source.Some? && e.objects.bytesIn == |w.source.value|)
  {
    hide BufferEffect, StreamEffect, StreamsObject, Sound, Streaming.Finished, Job.Valid;
    if Streams(p, w.size) {
      StreamSound(job, p, w, w.first);
    } else {
      BufferSound(job, p, w);
      if BufferEffect(job, p, w).result == Err(ObjectTooLarge) && p.streamTooLarge {
        StreamSound(job, p, w, w.retry);
        RetryIsClean(job, p, w);
      }
    }
  }

  // ----- What may land -----

  /** The source is an envelope both readers see: its records are the ones to filter. */
  ghost predicate IsEnvelope(job: Job, body: Bytes) {
    var inflation := job.codec.gunzip(body);
    && !inflation.corrupt && Agreeable(job.parse(inflation.text)) && BufferPlan(job.parse(inflation.text)).verdict == Found
  }

  /** The text a filtered object decompresses to. */
  ghost function Filtered(job: Job, body: Bytes): Inflation {
    Inflation(Envelope(Kept(BufferPlan(job.parse(job.codec.gunzip(body).text)).records, job.evaluate)), false)
  }

  lemma BufferForwards(job: Job, p: Policies, w: World)
    requires job.Valid() && w.source.Some? && IsEnvelope(job, w.source.value)
    ensures var e := BufferEffect(job, p, w);
            && (e.wrote.Some? ==> job.codec.gunzip(e.wrote.value) == Filtered(job, w.source.value))
            && e.objects.unrecognized == 0 && e.objects.copiedUnparsed == 0
  {
    hide Fetch, Agreeable, BufferCounts, Kept, Envelope, ReadsIn, BufferPlan, MemberTexts, Concat;
    var body := w.source.value;
    FetchIsWhole(job, body, w.first);
    WrittenIsEnvelope(job, body, w.encodes);
    ReadsInTotals(BufferOutcome(job, p, w, body), 0);
    ReadsInTotals(BufferOutcome(job, p, w, body), |body|);
  }

  lemma StreamForwards(job: Job, p: Policies, w: World, fault: ReadFault)
    requires job.Valid() && w.source.Some? && IsEnvelope(job, w.source.value) && StreamsObject(job, w.source.value, fault, w.streaming)
    ensures var e := StreamEffect(p, w, fault);
            && (e.wrote.Some? ==> job.codec.gunzip(e.wrote.value) == Filtered(job, w.source.value))
            && e.objects.unrecognized == 0 && e.objects.copiedUnparsed == 0
  {
    hide Agreeable, Kept, Envelope, ReadsIn, BufferPlan, IsStreamPlan, Concat, S.Reaches, S.Final, Returned,
         StreamCopyEffect;
    var run, document := w.streaming, job.parse(job.codec.gunzip(w.source.value).text);
    ReadersAgree(document, run.cfg.plan);
    SuccessIsExact(run.cfg, run.last);
    ErrorsAreCaused(run.cfg, run.last);
    CommitsOnlyComplete(run.cfg, run.last);
    job.codec.InflatesOne(Envelope(Kept(run.cfg.plan.records, job.evaluate)));
    ReadsInTotals(StreamOutcomeEffect(p, w), run.last.pump.bytesIn);
  }

  /**
   No policy, fault or retry ever forwards an envelope unfiltered: whatever an envelope's
   processing lands is the envelope of its kept records. The verbatim copies of the fail-open
   policies are for other sources.
   */
  lemma EnvelopesAreFiltered(job: Job, p: Policies, w: World)
    requires Fits(job, p, w) && w.source.Some? && IsEnvelope(job, w.source.value)
    ensures var e := ObjectEffect(job, p, w);
            && (e.wrote.Some? ==> job.codec.gunzip(e.wrote.value) == Filtered(job, w.source.value))
            && e.objects.unrecognized == 0 && e.objects.copiedUnparsed == 0
  {
    hide BufferEffect, StreamEffect, StreamsObject, Streaming.Finished, Job.Valid, IsEnvelope, Filtered;
    if Streams(p, w.size) {
      StreamForwards(job, p, w, w.first);
    } else {
      BufferForwards(job, p, w);
      if BufferEffect(job, p, w).result == Err(ObjectTooLarge) && p.streamTooLarge {
        StreamForwards(job, p, w, w.retry);
        RetryIsClean(job, p, w);
      }
    }
  }

  /** An object copied unparsed or unrecognized lands, if anything, its source byte for byte. */
  lemma CopiesAreVerbatim(job: Job, p: Policies, w: World)
    requires Fits(job, p, w)
    ensures var e := ObjectEffect(job, p, w);
            && e.objects.copiedUnparsed + e.objects.unrecognized <= 1
            && (e.objects.copiedUnparsed + e.objects.unrecognized == 1 && e.wrote.Some? ==> e.wrote == w.source)
  {
    hide BufferEffect, StreamEffect, StreamsObject, Streaming.Finished, Job.Valid;
    StreamVerbatim(p, w, w.first);
    StreamVerbatim(p, w, w.retry);
    BufferVerbatim(job, p, w);
    if !Streams(p, w.size) && BufferEffect(job, p, w).result == Err(ObjectTooLarge) && p.streamTooLarge {
      RetryIsClean(job, p, w);
    }
  }

  predicate Verbatim(w: World, e: Effect) {
    && e.objects.copiedUnparsed + e.objects.unrecognized <= 1
    && (e.objects.copiedUnparsed + e.objects.unrecognized == 1 && e.wrote.Some? ==> e.wrote == w.source)
  }

  lemma BufferVerbatim(job: Job, p: Policies, w: World)
    ensures Verbatim(w, BufferEffect(job, p, w))
  {
    hide BufferResult, BufferCounts, Fetch, ReadsIn;
    if w.source.Some? {
      FetchIsWhole(job, w.source.value, w.first);
      ReadsInTotals(BufferOutcome(job, p, w, w.source.value), 0);
      ReadsInTotals(BufferOutcome(job, p, w, w.source.value), |w.source.value|);
    }
  }

  lemma StreamVerbatim(p: Policies, w: World, fault: ReadFault)
    requires w.streaming.Finished()
    ensures Verbatim(w, StreamEffect(p, w, fault))
  {
    hide Streaming.Finished, Returned, ReadsIn;
    if w.source.Some? {
      ReadsInTotals(StreamOutcomeEffect(p, w), w.streaming.last.pump.bytesIn);
    }
  }

  /** Records that a reader of either mode finds in the source. */
  ghost predicate FoundIn(job: Job, body: Bytes, plan: Plan) {
    plan.verdict == Found && (plan == BufferPlan(job.parse(job.codec.gunzip(body).text)) || PlanFits(job, body, plan))
  }

  /** The source byte for byte, or compressed, the envelope of those of its records that are kept. */
  ghost predicate Derived(job: Job, body: Bytes, wrote: Bytes) {
    wrote == body ||
    exists plan :: FoundIn(job, body, plan) && job.codec.gunzip(wrote) == Inflation(Envelope(Kept(plan.records, job.evaluate)), false)
  }

  lemma BufferDerives(job: Job, p: Policies, w: World)
    requires job.Valid() && BufferEffect(job, p, w).wrote.Some?
    ensures w.source.Some? && Derived(job, w.source.value, BufferEffect(job, p, w).wrote.value)
  {
    hide Fetch, BufferCounts, Kept, Envelope, ReadsIn, BufferPlan, MemberTexts, Concat, PlanFits;
    var body := w.source.value;
    FetchIsWhole(job, body, w.first);
    WrittenIsEnvelope(job, body, w.encodes);
    ReadsInTotals(BufferOutcome(job, p, w, body), 0);
    ReadsInTotals(BufferOutcome(job, p, w, body), |body|);
    var plan := BufferPlan(job.parse(job.codec.gunzip(body).text));
    assert plan.verdict == Found ==> FoundIn(job, body, plan);
  }

  lemma StreamDerives(job: Job, p: Policies, w: World, fault: ReadFault)
    requires job.Valid() && w.streaming.Finished() && StreamEffect(p, w, fault).wrote.Some?
    requires w.source.Some? ==> StreamsObject(job, w.source.value, fault, w.streaming)
    ensures w.source.Some? && Derived(job, w.source.value, StreamEffect(p, w, fault).wrote.value)
  {
    hide Kept, Envelope, ReadsIn, BufferPlan, IsStreamPlan, Concat, S.Reaches, S.Final;
    var run := w.streaming;
    SuccessIsExact(run.cfg, run.last);
    CommitsOnlyComplete(run.cfg, run.last);
    job.codec.InflatesOne(Envelope(Kept(run.cfg.plan.records, job.evaluate)));
    ReadsInTotals(StreamOutcomeEffect(p, w), run.last.pump.bytesIn);
    assert run.cfg.plan.verdict == Found ==> FoundIn(job, w.source.value, run.cfg.plan);
  }

  /** Whatever an object's processing lands was derived from the object. */
  lemma ObjectDerives(job: Job, p: Policies, w: World)
    requires Fits(job, p, w) && ObjectEffect(job, p, w).wrote.Some?
    ensures w.source.Some? && Derived(job, w.source.value, ObjectEffect(job, p, w).wrote.value)
  {
    hide BufferEffect, StreamEffect, StreamsObject, Streaming.Finished, Job.Valid, Derived;
    if Streams(p, w.size) {
      StreamDerives(job, p, w, w.first);
    } else if BufferEffect(job, p, w).result == Err(ObjectTooLarge) && p.streamTooLarge {
      RetryIsClean(job, p, w);
      StreamDerives(job, p, w, w.retry);
    } else {
      BufferDerives(job, p, w);
    }
  }

  // ----- Dry run -----

  /** The preview meets the object the live run met: same content, same answers, no fault of its own. */
  ghost predicate Previews(live: World, dry: World) {
    && dry.source == live.source && dry.size == live.size && dry.encodes == live.encodes
    && dry.first == live.first && dry.retry == live.retry && dry.streaming.cfg.window == live.streaming.cfg.window
    && dry.streaming.Finished() && !dry.streaming.last.faulty
  }

  /** How the read of the object's streaming attempt goes. */
  function StreamRead(p: Policies, w: World): ReadFault {
    if Streams(p, w.size) then w.first else w.retry
  }

  /**
   A streaming attempt on a malformed source that fails to read inside the window in which it may
   or may not have told, where only the parse failure is forgiven.
   */
  ghost predicate TornObject(job: Job, p: Policies, w: World) {
    p.copyUnparsable && w.source.Some? && ComesToStream(job, p, w) && StreamRead(p, w).FailsAfter? && Torn(w.streaming.cfg)
  }

  /**
   A source that has to be opened again for a verbatim copy, and is gone by then, with missing
   objects skipped.
   */
  predicate CopyVanishes(p: Policies, w: World) {
    w.copy == Gone && p.skipMissing &&
    match w.streaming.cfg.plan.verdict
    case Found => false
    case Unrecognized => p.onUnrecognized == CopyIt
    case Malformed => p.copyUnparsable
  }

  ghost predicate Vanishes(job: Job, p: Policies, w: World) {
    w.source.Some? && ComesToStream(job, p, w) && StreamRead(p, w) != Gone && CopyVanishes(p, w)
  }

  predicate SameCounters(a: Effect, b: Effect) {
    && a.objects.processed == b.objects.processed && a.objects.skipped == b.objects.skipped
    && a.objects.unrecognized == b.objects.unrecognized && a.objects.copiedUnparsed == b.objects.copiedUnparsed
    && a.counts == b.counts
  }

  function Dry(p: Policies): Policies {
    p.(dryRun := true)
  }

  lemma PlansAgree(document: Document, a: Plan, b: Plan)
    requires IsStreamPlan(document, a) && IsStreamPlan(document, b)
    ensures a.verdict == b.verdict && (a.verdict == Found ==> a.records == b.records)
  {
    ReadersAgree(document, a);
    if a.verdict == Found {
      var entries := document.root.entries;
      var i :| 0 <= i < |entries| && IsOnlyRecords(entries, i);
      EnvelopeReads(entries, i);
    }
  }

  /** A fault-free call on the same object, unless it is torn, comes to what a successful or copied one came to. */
  lemma StreamPreviewAgrees(job: Job, body: Bytes, fault: ReadFault, live: Streaming, dry: Streaming)
    requires StreamsObject(job, body, fault, live) && StreamsObject(job, body, fault, dry)
    requires dry.cfg.window == live.cfg.window && !Torn(live.cfg) && !dry.last.faulty
    ensures var (s, t) := (live.last, dry.last);
            && (Returned(s).Ok? || Returned(s) == Err(S.Unparsable) ==> Returned(t) == Returned(s))
            && (Returned(s).Ok? && Returned(s).value != S.Skipped ==> t.filter.tally == s.filter.tally)
  {
    hide S.Reaches, S.Final, Concat, CountAll, Verdicts, Kept, IsStreamPlan;
    SuccessIsExact(live.cfg, live.last);
    ErrorsAreCaused(live.cfg, live.last);
    if !job.codec.gunzip(body).corrupt {
      PlansAgree(job.parse(job.codec.gunzip(body).text), live.cfg.plan, dry.cfg.plan);
    }
    if fault.FailsAfter? {
      ReadFailureOutcome(dry.cfg, dry.last);
    } else {
      FaultFreeOutcome(dry.cfg, dry.last);
    }
  }

  /** A read that fails is forgiven only as a parse failure. */
  lemma ReadFailureFails(p: Policies, w: World, fault: ReadFault)
    requires w.streaming.Finished() && w.source.Some? && fault.FailsAfter? && w.streaming.cfg.readFails && !p.copyUnparsable
    ensures StreamEffect(p, w, fault).result.Err?
  {
    hide S.Reaches, S.Final, Returned;
    ReadFailureOutcome(w.streaming.cfg, w.streaming.last);
  }

  lemma StreamDryRun(job: Job, p: Policies, live: World, dry: World, fault: ReadFault)
    requires !p.dryRun && Previews(live, dry)
    requires p.copyUnparsable && fault.FailsAfter? && live.source.Some? ==> !Torn(live.streaming.cfg)
    requires live.source.Some? ==> StreamsObject(job, live.source.value, fault, live.streaming)
    requires live.source.Some? ==> StreamsObject(job, live.source.value, fault, dry.streaming)
    requires live.streaming.Finished() && StreamEffect(p, live, fault).result.Ok?
    ensures StreamEffect(Dry(p), dry, fault).result.Ok?
    ensures SameCounters(StreamEffect(Dry(p), dry, fault), StreamEffect(p, live, fault)) <==>
            !(live.source.Some? && fault != Gone && CopyVanishes(p, live))
  {
    hide S.Reaches, S.Final, Concat, Returned, PlanFits, CopyReads, BilledOut;
    if live.source.Some? {
      if fault.FailsAfter? && !p.copyUnparsable {
        ReadFailureFails(p, live, fault);
      } else {
        StreamPreviewAgrees(job, live.source.value, fault, live.streaming, dry.streaming);
        SuccessIsVerdict(live.streaming);
      }
    }
  }

  lemma SuccessIsVerdict(run: Streaming)
    requires run.Finished()
    ensures match Returned(run.last)
            case Ok(result) => run.cfg.plan.verdict == (if result.Skipped? then Verdict.Unrecognized else Verdict.Found)
            case Err(error) => error == S.Unparsable ==> run.cfg.plan.verdict == Malformed
  {
    hide S.Reaches, S.Final, Returned, Concat, Kept, ExpectedObject;
    SuccessIsExact(run.cfg, run.last);
    ErrorsAreCaused(run.cfg, run.last);
  }

  lemma OutcomeDryRun(job: Job, p: Policies, live: World, dry: World, bytes: Bytes)
    requires !p.dryRun && dry.encodes == live.encodes && BufferOutcome(job, p, live, bytes).result.Ok?
    ensures BufferOutcome(job, Dry(p), dry, bytes).result.Ok?
    ensures SameCounters(BufferOutcome(job, Dry(p), dry, bytes), BufferOutcome(job, p, live, bytes))
  {
    hide BufferResult, BufferCounts;
  }

  lemma BufferDryRun(job: Job, p: Policies, live: World, dry: World)
    requires !p.dryRun && Previews(live, dry)
    ensures BufferEffect(job, p, live).result.Ok? ==>
              BufferEffect(job, Dry(p), dry).result.Ok? && SameCounters(BufferEffect(job, Dry(p), dry), BufferEffect(job, p, live))
    ensures BufferEffect(job, p, live).result == Err(ObjectTooLarge) ==> BufferEffect(job, Dry(p), dry).result == Err(ObjectTooLarge)
  {
    hide BufferResult, BufferOutcome, BufferCounts, Streaming.Finished, S.Reaches, S.Final;
    if live.source.Some? {
      var bytes := live.source.value;
      OutcomeShape(job, p, live, bytes);
      if BufferResult(job, bytes, live.encodes) == Err(ObjectTooLarge) {
        TooLargeEither(job, p, live, dry, bytes);
      }
      if BufferOutcome(job, p, live, bytes).result.Ok? {
        OutcomeDryRun(job, p, live, dry, bytes);
      }
    }
  }

  lemma TooLargeEither(job: Job, p: Policies, live: World, dry: World, bytes: Bytes)
    requires dry.encodes == live.encodes && BufferResult(job, bytes, live.encodes) == Err(ObjectTooLarge)
    ensures BufferOutcome(job, Dry(p), dry, bytes) == Fails(ObjectTooLarge)
  {
    hide BufferResult, BufferCounts;
  }

  predicate LandsNothing(e: Effect) {
    e.wrote == None && e.objects.bytesOut == 0
  }

  lemma BufferDryLands(job: Job, p: Policies, w: World)
    requires p.dryRun
    ensures LandsNothing(BufferEffect(job, p, w))
  {
    hide BufferResult, BufferCounts, Fetch;
  }

  lemma StreamDryLands(p: Policies, w: World, fault: ReadFault)
    requires p.dryRun && w.streaming.Finished()
    ensures LandsNothing(StreamEffect(p, w, fault))
  {
    hide Streaming.Finished, S.Reaches, S.Final, Returned, BilledOut, StreamCopyEffect;
  }

  lemma DryRunLandsNothing(job: Job, p: Policies, w: World)
    requires p.dryRun && w.streaming.Finished()
    ensures ObjectEffect(job, p, w).wrote == None && ObjectEffect(job, p, w).objects.bytesOut == 0
  {
    hide BufferEffect, StreamEffect, Streaming.Finished;
    BufferDryLands(job, p, w);
    StreamDryLands(p, w, w.first);
    StreamDryLands(p, w, w.retry);
  }

  /**
   A dry run lands nothing; and whenever the live run of an object that is not torn succeeds, so
   does the dry run, through every mode choice, read failure and the too-large retry. Its
   counters are then the live run's if and only if the source did not vanish before its copy: a
   preview, which makes none, counts as processed what the live run skipped.
   */
  lemma DryRunAgrees(job: Job, p: Policies, live: World, dry: World)
    requires !p.dryRun && Previews(live, dry) && Fits(job, p, live) && Fits(job, Dry(p), dry) && !TornObject(job, p, live)
    requires ObjectEffect(job, p, live).result.Ok?
    ensures var d := ObjectEffect(job, Dry(p), dry);
            d.result.Ok? && d.wrote == None && (SameCounters(d, ObjectEffect(job, p, live)) <==> !Vanishes(job, p, live))
  {
    hide BufferEffect, StreamEffect, StreamsObject, Streaming.Finished, Job.Valid, SameCounters, S.Reaches, S.Final,
         CopyVanishes;
    DryRunLandsNothing(job, Dry(p), dry);
    if Streams(p, live.size) {
      StreamDryRun(job, p, live, dry, live.first);
    } else {
      BufferDryRun(job, p, live, dry);
      if BufferEffect(job, p, live).result == Err(ObjectTooLarge) && p.streamTooLarge {
        RetryDryRun(job, p, live, dry);
      }
    }
  }

  lemma RetryDryRun(job: Job, p: Policies, live: World, dry: World)
    requires !p.dryRun && Previews(live, dry) && Fits(job, p, live) && Fits(job, Dry(p), dry) && !Streams(p, live.size)
    requires !TornObject(job, p, live)
    requires BufferEffect(job, p, live).result == Err(ObjectTooLarge) && p.streamTooLarge
    requires BufferEffect(job, Dry(p), dry).result == Err(ObjectTooLarge)
    requires ObjectEffect(job, p, live).result.Ok?
    ensures SameCounters(ObjectEffect(job, Dry(p), dry), ObjectEffect(job, p, live)) <==> !Vanishes(job, p, live)
    ensures ObjectEffect(job, Dry(p), dry).result.Ok?
  {
    hide BufferEffect, StreamEffect, StreamsObject, Streaming.Finished, Job.Valid, S.Reaches, S.Final, ObjectEffect,
         SameCounters, CopyVanishes;
    RetryIsClean(job, p, live);
    RetryIsClean(job, Dry(p), dry);
    StreamDryRun(job, p, live, dry, live.retry);
  }

  /** The same object, streamed along another schedule. */
  function Rescheduled(w: World, s: S.State): World {
    w.(streaming := Streaming(w.streaming.cfg, s))
  }

  lemma Schedules(cfg: S.Config) returns (early: S.State, late: S.State)
    requires cfg.Valid() && Torn(cfg)
    ensures Streaming(cfg, early).Finished() && !early.faulty && Returned(early) == Err(S.Unparsable)
    ensures Streaming(cfg, late).Finished() && !late.faulty && Returned(late) == Err(S.SourceUnread)
  {
    hide S.Next, S.Final, Returned, Torn;
    assert S.Run(cfg, []) == Some(S.Init(cfg));
    var e, l := EitherMayBeReported(cfg, []);
    early, late := S.Run(cfg, [] + e).value, S.Run(cfg, [] + l).value;
  }

  lemma RescheduledFits(job: Job, p: Policies, w: World, s: S.State)
    requires Fits(job, p, w) && Streaming(w.streaming.cfg, s).Finished()
    ensures Fits(job, p, Rescheduled(w, s)) && Fits(job, Dry(p), Rescheduled(w, s))
  {
    hide Streaming.Finished, Job.Valid, PlanFits, Concat;
  }

  /**
   For such an object agreement depends on where in the window the source tells: the live run
   meets the parse failure and copies the source, the preview meets the read failure and fails.
   */
  lemma TornMayPart(job: Job, p: Policies, w: World) returns (live: World, dry: World)
    requires !p.dryRun && Fits(job, p, w) && TornObject(job, p, w) && w.copy == NoFault && w.copied == None
    ensures live == Rescheduled(w, live.streaming.last) && dry == Rescheduled(w, dry.streaming.last)
    ensures Previews(live, dry) && Fits(job, p, live) && Fits(job, Dry(p), dry)
    ensures ObjectEffect(job, p, live).result.Ok? && ObjectEffect(job, p, live).wrote == w.source
    ensures ObjectEffect(job, Dry(p), dry).result == Err(Backend)
  {
    hide BufferEffect, Streaming.Finished, Job.Valid, PlanFits, Concat, Returned;
    var cfg := w.streaming.cfg;
    assert cfg.Valid() by {
      FinishedValid(w.streaming);
    }
    var early, late := Schedules(cfg);
    live, dry := Rescheduled(w, early), Rescheduled(w, late);
    RescheduledFits(job, p, w, early);
    RescheduledFits(job, p, w, late);
    if !Streams(p, w.size) {
      BufferIgnoresSchedule(job, p, w, early);
      BufferIgnoresSchedule(job, p, w, late);
      BufferDryRun(job, p, live, dry);
    }
  }

  lemma FinishedValid(run: Streaming)
    requires run.Finished()
    ensures run.cfg.Valid()
  {
  }

  lemma BufferIgnoresSchedule(job: Job, p: Policies, w: World, s: S.State)
    ensures BufferEffect(job, p, Rescheduled(w, s)) == BufferEffect(job, p, w)
  {
    hide BufferResult, BufferCounts;
  }
}
