/**
 What becomes of one object, case by case: which inputs, policies and answers of the store make
 it land, be skipped or fail, and with what.
 */
module Fates {
  import opened Wrappers
  import opened Tally
  import opened Codecs
  import opened Envelopes
  import opened Errors
  import opened Records
  import opened Buffer
  import S = Stream
  import opened StreamSafety
  import opened StreamOutcome
  import opened StreamRaces
  import opened Effects

  // ----- The ways to end -----

  predicate Failed(e: Effect, error: CoreError) {
    e.result == Err(error) && e.wrote == None && e.counts == ZERO && e.objects.processed == 0 && e.objects.skipped == 0
  }

  /** Counted once as processed, its records published, and these bytes landed. */
  predicate Done(e: Effect, wrote: Option<Bytes>, counts: Counts) {
    && e.result == Ok(()) && e.wrote == wrote && e.counts == counts && e.objects.processed == 1 && e.objects.skipped == 0
    && e.objects.bytesOut == if wrote.Some? then |wrote.value| else 0
  }

  predicate NotThere(p: Policies, e: Effect) {
    if p.skipMissing then
      e.result == Ok(()) && e.wrote == None && e.counts == ZERO && e.objects.processed == 0 && e.objects.skipped == 1
    else Failed(e, NotFound)
  }

  /** Landed, or failed by the store. */
  predicate Landed(e: Effect, ok: bool, wrote: Bytes, counts: Counts) {
    if ok then Done(e, Some(wrote), counts) else Failed(e, Backend)
  }

  /** Landed in compressed form, or failed by the store. */
  ghost predicate LandedFiltered(job: Job, e: Effect, ok: bool, kept: seq<string>, counts: Counts) {
    if ok then
      && e.wrote.Some? && Done(e, e.wrote, counts)
      && job.codec.gunzip(e.wrote.value) == Inflation(Envelope(kept), false)
    else Failed(e, Backend)
  }

  /** A second opening of the source, and a copy of what it yields. */
  predicate CopiedAgain(p: Policies, w: World, body: Bytes, e: Effect) {
    if w.copy == Gone then NotThere(p, e)
    else Landed(e, w.copy == NoFault && w.copied == None, body, ZERO)
  }

  // ----- Buffer mode -----

  /** An object in memory, by what its text turns out to be. */
  ghost predicate BufferFate(job: Job, p: Policies, w: World, body: Bytes, e: Effect) {
    var inflation := job.codec.gunzip(body);
    var plan := BufferPlan(job.parse(inflation.text));
    var kept, counts := Kept(plan.records, job.evaluate), CountAll(Verdicts(plan.records, job.evaluate));
    && e.objects.bytesIn == |body|
    && if inflation.corrupt || plan.verdict == Malformed then
         && e.objects.unrecognized == 0 && e.objects.copiedUnparsed == (if p.copyUnparsable then 1 else 0)
         && if !p.copyUnparsable then Failed(e, if inflation.corrupt then Gzip else Json)
            else if p.dryRun then Done(e, None, ZERO)
            else Landed(e, w.putOk, body, ZERO)
       else if plan.verdict == Verdict.Unrecognized then
         && e.objects.unrecognized == 1 && e.objects.copiedUnparsed == 0
         && if p.dryRun || p.onUnrecognized == SkipIt then Done(e, None, ZERO)
            else if p.onUnrecognized == CopyIt then Landed(e, w.putOk, body, ZERO)
            else Failed(e, UnrecognizedObject)
       else
         && e.objects.unrecognized == 0 && e.objects.copiedUnparsed == 0
         && if kept == [] then Done(e, None, counts)
            else if exists i: nat :: i < |MemberTexts(Envelope(kept), job.gzipChunks)| && !w.encodes(i) then Failed(e, Internal)
            else if p.dryRun then Done(e, None, counts)
            else LandedFiltered(job, e, w.putOk, kept, counts)
  }

  lemma UnrecognizedCountsNothing(job: Job, body: Bytes)
    ensures var plan := BufferPlan(job.parse(job.codec.gunzip(body).text));
            plan.verdict != Found ==> CountAll(Verdicts(plan.records, job.evaluate)) == ZERO
  {
    NothingYet(job.evaluate);
  }

  lemma UnreadableFate(job: Job, p: Policies, w: World, body: Bytes)
    requires w.source == Some(body) && |job.codec.gunzip(body).text| <= job.maxObjectBytes
    requires job.codec.gunzip(body).corrupt || BufferPlan(job.parse(job.codec.gunzip(body).text)).verdict == Malformed
    ensures BufferFate(job, p, w, body, ReadsIn(BufferOutcome(job, p, w, body), |body|))
  {
    hide BufferPlan, Kept, CountAll, Verdicts, BufferCounts, AllEncode, MemberTexts, Concat, Envelope, LandedFiltered;
  }

  lemma UnrecognizedFate(job: Job, p: Policies, w: World, body: Bytes)
    requires w.source == Some(body) && |job.codec.gunzip(body).text| <= job.maxObjectBytes && !job.codec.gunzip(body).corrupt
    requires BufferPlan(job.parse(job.codec.gunzip(body).text)).verdict == Verdict.Unrecognized
    ensures BufferFate(job, p, w, body, ReadsIn(BufferOutcome(job, p, w, body), |body|))
  {
    hide BufferPlan, Kept, CountAll, Verdicts, AllEncode, MemberTexts, Concat, Envelope, LandedFiltered;
    UnrecognizedCountsNothing(job, body);
  }

  lemma FoundFate(job: Job, p: Policies, w: World, body: Bytes)
    requires job.Valid() && w.source == Some(body) && |job.codec.gunzip(body).text| <= job.maxObjectBytes && !job.codec.gunzip(body).corrupt
    requires BufferPlan(job.parse(job.codec.gunzip(body).text)).verdict == Found
    ensures BufferFate(job, p, w, body, ReadsIn(BufferOutcome(job, p, w, body), |body|))
  {
    hide BufferPlan, Kept, CountAll, Verdicts, MemberTexts, Concat, Envelope, Job.Valid, Codec.Members;
    WrittenIsEnvelope(job, body, w.encodes);
  }

  lemma BufferedFate(job: Job, p: Policies, w: World, body: Bytes)
    requires job.Valid() && w.source == Some(body) && |job.codec.gunzip(body).text| <= job.maxObjectBytes
    ensures BufferFate(job, p, w, body, ReadsIn(BufferOutcome(job, p, w, body), |body|))
  {
    hide BufferFate, BufferPlan, BufferOutcome, ReadsIn, Job.Valid;
    if job.codec.gunzip(body).corrupt {
      UnreadableFate(job, p, w, body);
    } else {
      match BufferPlan(job.parse(job.codec.gunzip(body).text)).verdict
      case Malformed => UnreadableFate(job, p, w, body);
      case Unrecognized => UnrecognizedFate(job, p, w, body);
      case Found => FoundFate(job, p, w, body);
    }
  }

  // ----- Stream mode -----

  /** A source whose read failed. */
  predicate UnreadFate(e: Effect) {
    Failed(e, Backend) && e.objects.unrecognized == e.objects.copiedUnparsed == 0
  }

  /** A streamed source that does not parse, forgiven or not. */
  predicate MalformedFate(p: Policies, w: World, body: Bytes, e: Effect) {
    && e.objects.unrecognized == 0 && e.objects.copiedUnparsed == (if p.copyUnparsable then 1 else 0)
    && if !p.copyUnparsable then Failed(e, Json)
       else if p.dryRun then Done(e, None, ZERO)
       else CopiedAgain(p, w, body, e)
  }

  /**
   An object streamed, by what its reader finds and whether anything failed by itself. Whatever
   else fails, an envelope lands exactly if the store committed its upload.
   */
  ghost predicate StreamFate(job: Job, p: Policies, w: World, body: Bytes, e: Effect)
    requires w.streaming.Finished()
  {
    var (cfg, s) := (w.streaming.cfg, w.streaming.last);
    var kept, counts := Kept(cfg.plan.records, job.evaluate), CountAll(Verdicts(cfg.plan.records, job.evaluate));
    && e.objects.bytesIn == s.pump.bytesIn
    && (cfg.plan.verdict == Found ==> (e.wrote.Some? <==> !p.dryRun && s.upload.pc == S.UploadDone(true)))
    && (s.upload.pc == S.UploadDone(true) ==>
          if p.dryRun then Done(e, None, counts) else LandedFiltered(job, e, true, kept, counts))
    && (cfg.plan.verdict == Found && kept != [] && s.upload.pc != S.UploadDone(true) ==> e.result.Err?)
    && (s.extractor.pc.ExtractDied? || s.filter.pc == S.FilterDone(S.Failed(S.Internal)) ==> Failed(e, Internal))
    && (!s.extractor.pc.ExtractDied? && s.filter.pc == S.FilterDone(S.Written) && s.upload.pc == S.UploadDone(false) ==> Failed(e, Backend))
    && (!s.faulty ==> if Torn(cfg) then UnreadFate(e) || MalformedFate(p, w, body, e) else ReaderFate(job, p, w, body, e))
  }

  /** The same when nothing failed by itself: what was found, or met first of the parse failure and the read failure. */
  ghost predicate ReaderFate(job: Job, p: Policies, w: World, body: Bytes, e: Effect)
    requires w.streaming.Finished()
  {
    var (cfg, s) := (w.streaming.cfg, w.streaming.last);
    var kept, counts := Kept(cfg.plan.records, job.evaluate), CountAll(Verdicts(cfg.plan.records, job.evaluate));
    var delivered := |Concat(cfg.chunks)|;
    if cfg.plan.verdict == Malformed && (!cfg.readFails || delivered >= cfg.window.latest) then MalformedFate(p, w, body, e)
    else if cfg.readFails then UnreadFate(e)
    else if cfg.plan.verdict == Verdict.Unrecognized then
      && e.objects.unrecognized == 1 && e.objects.copiedUnparsed == 0
      && if p.dryRun || p.onUnrecognized == SkipIt then Done(e, None, ZERO)
         else if p.onUnrecognized == CopyIt then CopiedAgain(p, w, body, e)
         else Failed(e, UnrecognizedObject)
    else
      && e.objects.unrecognized == e.objects.copiedUnparsed == 0
      && if kept == [] || p.dryRun then Done(e, None, counts) else LandedFiltered(job, e, true, kept, counts)
  }

  lemma CopyFate(p: Policies, w: World, body: Bytes)
    requires w.source == Some(body)
    ensures var e := StreamCopyEffect(p, w, false); CopiedAgain(p, w, body, e) && e.objects.unrecognized == e.objects.copiedUnparsed == 0
  {
  }

  lemma FinishedRun(run: Streaming)
    requires run.Finished()
    ensures run.cfg.Valid() && S.Reaches(run.cfg, run.last) && S.Final(run.last)
  {
  }

  lemma FinalUpload(run: Streaming)
    requires run.Finished()
    ensures run.last.upload.pc == S.UploadDone(true) <==> Returned(run.last) == Ok(S.Written)
  {
    hide S.Reaches;
    SuccessIsExact(run.cfg, run.last);
  }

  /** Whether anything failed or not: the upload committed exactly if the call returned a write. */
  lemma CommittedFate(job: Job, p: Policies, w: World, body: Bytes, fault: ReadFault)
    requires job.Valid() && w.source == Some(body) && fault != Gone && fault != Refused && StreamsObject(job, body, fault, w.streaming)
    ensures var (cfg, s, e) := (w.streaming.cfg, w.streaming.last, StreamEffect(p, w, fault));
            var kept, counts := Kept(cfg.plan.records, job.evaluate), CountAll(Verdicts(cfg.plan.records, job.evaluate));
            && (cfg.plan.verdict == Found ==> (e.wrote.Some? <==> !p.dryRun && s.upload.pc == S.UploadDone(true)))
            && (s.upload.pc == S.UploadDone(true) ==>
                  if p.dryRun then Done(e, None, counts) else LandedFiltered(job, e, true, kept, counts))
            && (cfg.plan.verdict == Found && kept != [] && s.upload.pc != S.UploadDone(true) ==> e.result.Err?)
  {
    hide Kept, Envelope, ReadsIn, PlanFits, Concat, S.Reaches, S.Final, CountAll, Verdicts, Job.Valid,
         StreamCopyEffect, Streaming.Finished, Returned, BilledOut;
    var run := w.streaming;
    FinishedRun(run);
    FinalUpload(run);
    SuccessIsVerdict(run);
    SuccessIsExact(run.cfg, run.last);
    CommitsOnlyComplete(run.cfg, run.last);
    InflatesEnvelope(job, Kept(run.cfg.plan.records, job.evaluate));
    ReadsInTotals(StreamOutcomeEffect(p, w), run.last.pump.bytesIn);
  }

  lemma InflatesEnvelope(job: Job, kept: seq<string>)
    requires job.Valid()
    ensures job.codec.gunzip(job.codec.Gzip(Envelope(kept))) == Inflation(Envelope(kept), false)
  {
    job.codec.InflatesOne(Envelope(kept));
  }

  /** A call that comes to an error: what the policies make of a parse failure, and only of that. */
  lemma ErrorFate(p: Policies, w: World, body: Bytes, fault: ReadFault)
    requires w.source == Some(body) && fault != Gone && fault != Refused && w.streaming.Finished()
    ensures var (r, e) := (Returned(w.streaming.last), StreamEffect(p, w, fault));
            && (r == Err(S.SourceUnread) ==> UnreadFate(e))
            && (r == Err(S.Unparsable) ==> MalformedFate(p, w, body, e))
  {
    hide Streaming.Finished, ReadsIn, Returned, StreamCopyEffect;
    CopyFate(p, w, body);
    ReadsInTotals(StreamOutcomeEffect(p, w), w.streaming.last.pump.bytesIn);
  }

  lemma SkippedFate(p: Policies, w: World, body: Bytes, fault: ReadFault)
    requires w.source == Some(body) && fault != Gone && fault != Refused && w.streaming.Finished()
    requires Returned(w.streaming.last) == Ok(S.Skipped)
    ensures var e := StreamEffect(p, w, fault);
            && e.objects.unrecognized == 1 && e.objects.copiedUnparsed == 0
            && if p.dryRun || p.onUnrecognized == SkipIt then Done(e, None, ZERO)
               else if p.onUnrecognized == CopyIt then CopiedAgain(p, w, body, e)
               else Failed(e, UnrecognizedObject)
  {
    hide Streaming.Finished, ReadsIn, Returned, StreamCopyEffect;
    CopyFate(p, w, body);
    ReadsInTotals(StreamOutcomeEffect(p, w), w.streaming.last.pump.bytesIn);
  }

  lemma KeptFate(job: Job, p: Policies, w: World, body: Bytes, fault: ReadFault)
    requires job.Valid() && w.source == Some(body) && fault != Gone && fault != Refused && StreamsObject(job, body, fault, w.streaming)
    requires Returned(w.streaming.last) == Ok(S.Written) || Returned(w.streaming.last) == Ok(S.NothingKept)
    ensures var (cfg, e) := (w.streaming.cfg, StreamEffect(p, w, fault));
            var kept, counts := Kept(cfg.plan.records, job.evaluate), CountAll(Verdicts(cfg.plan.records, job.evaluate));
            && e.objects.unrecognized == e.objects.copiedUnparsed == 0
            && if kept == [] || p.dryRun then Done(e, None, counts) else LandedFiltered(job, e, true, kept, counts)
  {
    hide Kept, Envelope, ReadsIn, PlanFits, Concat, S.Reaches, S.Final, CountAll, Verdicts, Job.Valid,
         StreamCopyEffect, Streaming.Finished, Returned, LandedFiltered;
    var run := w.streaming;
    FinishedRun(run);
    FinalUpload(run);
    SuccessIsExact(run.cfg, run.last);
    CommittedFate(job, p, w, body, fault);
    ReadsInTotals(StreamOutcomeEffect(p, w), run.last.pump.bytesIn);
  }

  lemma UnfaultedFate(job: Job, p: Policies, w: World, body: Bytes, fault: ReadFault)
    requires job.Valid() && w.source == Some(body) && fault != Gone && fault != Refused && StreamsObject(job, body, fault, w.streaming)
    requires !w.streaming.last.faulty && !Torn(w.streaming.cfg)
    ensures ReaderFate(job, p, w, body, StreamEffect(p, w, fault))
  {
    hide Kept, Envelope, ReadsIn, PlanFits, Concat, S.Reaches, S.Final, CountAll, Verdicts, Job.Valid, StreamEffect,
         Done, LandedFiltered, Failed, CopiedAgain, Returned, Streaming.Finished, MalformedFate, UnreadFate;
    var run := w.streaming;
    FinishedRun(run);
    ErrorFate(p, w, body, fault);
    if run.cfg.readFails {
      ReadFailureOutcome(run.cfg, run.last);
    } else {
      FaultFreeOutcome(run.cfg, run.last);
      match run.cfg.plan.verdict
      case Malformed =>
      case Unrecognized => SkippedFate(p, w, body, fault);
      case Found => KeptFate(job, p, w, body, fault);
    }
  }

  /** A malformed source that failed to read where either failure may be the one reported. */
  lemma TornFate(job: Job, p: Policies, w: World, body: Bytes, fault: ReadFault)
    requires w.source == Some(body) && fault != Gone && fault != Refused && w.streaming.Finished()
    requires !w.streaming.last.faulty && Torn(w.streaming.cfg)
    ensures UnreadFate(StreamEffect(p, w, fault)) || MalformedFate(p, w, body, StreamEffect(p, w, fault))
  {
    hide StreamEffect, Returned, UnreadFate, MalformedFate, Streaming.Finished, S.Reaches, S.Final, Concat;
    FinishedRun(w.streaming);
    ReadFailureOutcome(w.streaming.cfg, w.streaming.last);
    ErrorFate(p, w, body, fault);
  }

  /** Something died, or the store failed under a complete output: no policy forgives either. */
  lemma BrokenFate(p: Policies, w: World, body: Bytes, fault: ReadFault)
    requires w.source == Some(body) && fault != Gone && fault != Refused && w.streaming.Finished()
    ensures var (s, e) := (w.streaming.last, StreamEffect(p, w, fault));
            && (s.extractor.pc.ExtractDied? || s.filter.pc == S.FilterDone(S.Failed(S.Internal)) ==> Failed(e, Internal))
            && (!s.extractor.pc.ExtractDied? && s.filter.pc == S.FilterDone(S.Written) && s.upload.pc == S.UploadDone(false) ==>
                  Failed(e, Backend))
  {
    hide Streaming.Finished, ReadsIn, StreamCopyEffect;
    ReadsInTotals(StreamOutcomeEffect(p, w), w.streaming.last.pump.bytesIn);
  }

  lemma OutcomeBillsNothing(p: Policies, w: World)
    requires w.streaming.Finished()
    ensures StreamOutcomeEffect(p, w).objects.bytesIn == 0
  {
    hide Streaming.Finished, Returned, StreamCopyEffect, BilledOut, Sound;
    CopySound(p, w, false);
  }

  /** Bytes are billed as the pump read them, and once: a copy that reads again does not count. */
  lemma StreamBills(p: Policies, w: World, fault: ReadFault)
    requires w.source.Some? && fault != Gone && fault != Refused && w.streaming.Finished()
    ensures StreamEffect(p, w, fault).objects.bytesIn == w.streaming.last.pump.bytesIn
  {
    hide Streaming.Finished, ReadsIn, StreamOutcomeEffect;
    OutcomeBillsNothing(p, w);
    ReadsInTotals(StreamOutcomeEffect(p, w), w.streaming.last.pump.bytesIn);
  }

  lemma StreamedFate(job: Job, p: Policies, w: World, body: Bytes, fault: ReadFault)
    requires job.Valid() && w.source == Some(body) && fault != Gone && fault != Refused && StreamsObject(job, body, fault, w.streaming)
    ensures StreamFate(job, p, w, body, StreamEffect(p, w, fault))
  {
    hide ReaderFate, Torn, StreamEffect, Kept, CountAll, Verdicts, LandedFiltered, Done, UnreadFate, MalformedFate,
         Streaming.Finished, Job.Valid, Concat, PlanFits;
    CommittedFate(job, p, w, body, fault);
    BrokenFate(p, w, body, fault);
    StreamBills(p, w, fault);
    if !w.streaming.last.faulty {
      if Torn(w.streaming.cfg) {
        TornFate(job, p, w, body, fault);
      } else {
        UnfaultedFate(job, p, w, body, fault);
      }
    }
  }

  // ----- Every object -----

  predicate Untouched(e: Effect) {
    e.objects.unrecognized == e.objects.copiedUnparsed == e.objects.bytesIn == 0
  }

  /** One opening of the source for streaming. */
  ghost predicate StreamingFate(job: Job, p: Policies, w: World, fault: ReadFault, e: Effect)
    requires w.streaming.Finished()
  {
    if w.source.None? || fault == Gone then NotThere(p, e) && Untouched(e)
    else if fault == Refused then Failed(e, Backend) && Untouched(e)
    else StreamFate(job, p, w, w.source.value, e)
  }

  /** Too large to hold in memory, whatever `read` of it was read: streamed instead, or refused. */
  ghost predicate TooLargeFate(job: Job, p: Policies, w: World, read: nat, e: Effect)
    requires w.streaming.Finished()
  {
    if p.streamTooLarge then StreamingFate(job, p, w, w.retry, e)
    else Failed(e, ObjectTooLarge) && e.objects.unrecognized == e.objects.copiedUnparsed == 0 && e.objects.bytesIn == read
  }

  /**
   The whole decision: an object is streamed if the mode says so, or if it is known to be larger
   than the threshold and the mode is automatic; otherwise it is held in memory, unless that or
   its text turns out to take more than the cap.
   */
  ghost predicate Fate(job: Job, p: Policies, w: World, e: Effect)
    requires w.streaming.Finished()
  {
    if p.mode == StreamMode || (p.mode == Auto && w.size.Some? && w.size.value > p.streamThreshold) then
      StreamingFate(job, p, w, w.first, e)
    else if w.source.None? || w.first == Gone then NotThere(p, e) && Untouched(e)
    else if w.first == Refused then Failed(e, Backend) && Untouched(e)
    else
      var body := w.source.value;
      var read := if w.first.FailsAfter? && w.first.n < |body| then w.first.n else |body|;
      if read > job.maxObjectBytes then TooLargeFate(job, p, w, 0, e)
      else if w.first.FailsAfter? then Failed(e, Backend) && Untouched(e)
      else if |job.codec.gunzip(body).text| > job.maxObjectBytes then TooLargeFate(job, p, w, |body|, e)
      else BufferFate(job, p, w, body, e)
  }

  lemma StreamingIsFated(job: Job, p: Policies, w: World, fault: ReadFault)
    requires job.Valid() && w.streaming.Finished()
    requires w.source.Some? ==> StreamsObject(job, w.source.value, fault, w.streaming)
    ensures StreamingFate(job, p, w, fault, StreamEffect(p, w, fault))
  {
    hide StreamFate, Streaming.Finished, StreamsObject, Job.Valid, StreamOutcomeEffect;
    if w.source.Some? && fault != Gone && fault != Refused {
      StreamedFate(job, p, w, w.source.value, fault);
    }
  }

  /** An object not streamed at once, up to where its text has been read. */
  lemma BufferIsFated(job: Job, p: Policies, w: World)
    requires job.Valid()
    ensures var e := BufferEffect(job, p, w);
            if w.source.None? || w.first == Gone then NotThere(p, e) && Untouched(e)
            else if w.first == Refused then Failed(e, Backend) && Untouched(e)
            else
              var body := w.source.value;
              var read := if w.first.FailsAfter? && w.first.n < |body| then w.first.n else |body|;
              if read > job.maxObjectBytes then e == Fails(ObjectTooLarge)
              else if w.first.FailsAfter? then Failed(e, Backend) && Untouched(e)
              else if |job.codec.gunzip(body).text| > job.maxObjectBytes then
                e == ReadsIn(Fails(ObjectTooLarge), if p.streamTooLarge then 0 else |body|)
              else BufferFate(job, p, w, body, e) && e.result != Err(ObjectTooLarge)
  {
    hide BufferFate, BufferCounts, BufferOutcome, Processed, ReadsIn, Job.Valid;
    if w.source.Some? && w.first == NoFault {
      var body := w.source.value;
      ReadsInTotals(BufferOutcome(job, p, w, body), |body|);
      OutcomeShape(job, p, w, body);
      ProcessedFits(job, BufferPlan(job.parse(job.codec.gunzip(body).text)), w.encodes);
      if |job.codec.gunzip(body).text| <= job.maxObjectBytes {
        BufferedFate(job, p, w, body);
      }
    }
  }

  lemma ProcessedFits(job: Job, plan: Plan, encodes: nat -> bool)
    ensures Processed(job, plan, encodes) != Err(ObjectTooLarge)
  {
    hide Kept, MemberTexts, Concat, AllEncode;
  }

  /** Processing an object comes to its fate, whatever the object, the policies and the world. */
  lemma ObjectIsFated(job: Job, p: Policies, w: World)
    requires Fits(job, p, w)
    ensures Fate(job, p, w, ObjectEffect(job, p, w))
  {
    hide BufferFate, StreamFate, BufferEffect, StreamEffect, StreamsObject, Streaming.Finished, Job.Valid, ReadsIn;
    if Streams(p, w.size) {
      StreamingIsFated(job, p, w, w.first);
    } else {
      BufferIsFated(job, p, w);
      if w.source.Some? {
        ReadsInTotals(Fails(ObjectTooLarge), if p.streamTooLarge then 0 else |w.source.value|);
      }
      if BufferEffect(job, p, w).result == Err(ObjectTooLarge) && p.streamTooLarge {
        RetryIsClean(job, p, w);
        StreamingIsFated(job, p, w, w.retry);
      }
    }
  }

  /**
   In particular: refused as too large is exactly an object that was to be held in memory, is not
   to be streamed instead, and whose bytes or whose text take more than the cap. One known to
   be above the threshold never is, when the mode is automatic.
   */
  lemma TooLargeIff(job: Job, p: Policies, w: World)
    requires Fits(job, p, w)
    ensures ObjectEffect(job, p, w).result == Err(ObjectTooLarge) <==>
            && p.mode != StreamMode && !(p.mode == Auto && w.size.Some? && w.size.value > p.streamThreshold) && !p.streamTooLarge
            && w.source.Some? && w.first != Gone && w.first != Refused
            && var body := w.source.value;
               var read := if w.first.FailsAfter? && w.first.n < |body| then w.first.n else |body|;
               || read > job.maxObjectBytes
               || (w.first == NoFault && |job.codec.gunzip(body).text| > job.maxObjectBytes)
  {
    hide BufferFate, StreamFate, BufferEffect, StreamEffect, StreamsObject, Streaming.Finished, Job.Valid, ReadsIn;
    BufferIsFated(job, p, w);
    if w.source.Some? {
      ReadsInTotals(Fails(ObjectTooLarge), if p.streamTooLarge then 0 else |w.source.value|);
    }
    StreamFits(p, w, w.first);
    StreamFits(p, w, w.retry);
  }

  lemma StreamFits(p: Policies, w: World, fault: ReadFault)
    requires w.streaming.Finished()
    ensures StreamEffect(p, w, fault).result != Err(ObjectTooLarge)
  {
    hide Streaming.Finished, Returned, ReadsIn;
    if w.source.Some? {
      ReadsInTotals(StreamOutcomeEffect(p, w), w.streaming.last.pump.bytesIn);
    }
  }

  /**
   Without a ruleset the source is copied whole, dry run or not, or skipped, or fails; billed are
   the bytes read, up to where the read or the upload failed.
   */
  lemma RawIsFated(p: Policies, w: World)
    ensures var e := RawCopyEffect(p, w);
            && e.objects.unrecognized == e.objects.copiedUnparsed == 0
            && if w.source.None? then NotThere(p, e) && e.objects.bytesIn == 0
               else
                 var there := if w.copy.FailsAfter? && w.copy.n < |w.source.value| then w.copy.n else |w.source.value|;
                 && CopiedAgain(p, w, w.source.value, e)
                 && e.objects.bytesIn == if w.copy == Gone || w.copy == Refused then 0
                                         else if w.copied.Some? && w.copied.value < there then w.copied.value else there
  {
    hide ReadsIn;
    if w.source.Some? {
      ReadsInTotals(Completes(ZERO, w.source), CopyReads(w, w.source.value));
      ReadsInTotals(Fails(Backend), CopyReads(w, w.source.value));
    }
  }

  /**
   In plain words, for the usual case: an object held in memory, with records kept and every
   worker encoding, outside a dry run. It lands exactly if the store takes it, and then it is
   the envelope of the records kept.
   */
  lemma FilteredLandsIff(job: Job, p: Policies, w: World)
    requires Fits(job, p, w) && !p.dryRun && p.mode == BufferMode && w.source.Some? && w.first == NoFault
    requires |w.source.value| <= job.maxObjectBytes && |job.codec.gunzip(w.source.value).text| <= job.maxObjectBytes
    requires !job.codec.gunzip(w.source.value).corrupt
    requires BufferPlan(job.parse(job.codec.gunzip(w.source.value).text)).verdict == Found
    requires Kept(BufferPlan(job.parse(job.codec.gunzip(w.source.value).text)).records, job.evaluate) != []
    requires forall i: nat :: w.encodes(i)
    ensures var e := ObjectEffect(job, p, w);
            var kept := Kept(BufferPlan(job.parse(job.codec.gunzip(w.source.value).text)).records, job.evaluate);
            && (e.wrote.Some? <==> w.putOk) && e.result == (if w.putOk then Ok(()) else Err(Backend))
            && (w.putOk ==> job.codec.gunzip(e.wrote.value) == Inflation(Envelope(kept), false) && e.objects.bytesOut == |e.wrote.value|)
  {
    hide ObjectEffect, Fits, BufferPlan, Kept, Envelope, CountAll, Verdicts, StreamFate, MemberTexts,
         Streaming.Finished, Job.Valid;
    FitsFinished(job, p, w);
    ObjectIsFated(job, p, w);
  }

  lemma FitsFinished(job: Job, p: Policies, w: World)
    requires Fits(job, p, w)
    ensures w.streaming.Finished()
  {
  }
}
