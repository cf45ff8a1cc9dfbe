/**
 Buffer mode against stream mode: on the same object, every fault-free schedule of the
 streaming filter reaches the buffered run's verdict, payload and published counters, exactly
 when the two readers agree on the file.
 */
module Parity {
  import opened Wrappers
  import opened Codecs
  import opened Envelopes
  import opened Errors
  import opened Records
  import opened Buffer
  import S = Stream
  import opened StreamOutcome

  /** Both runs are given one object, the same rules and libraries, and no read fails. */
  ghost predicate SameObject(job: Job, cfg: S.Config) {
    var inflation := job.codec.gunzip(Concat(cfg.chunks));
    && job.Valid() && cfg.Valid() && cfg.codec == job.codec && cfg.evaluate == job.evaluate && !cfg.readFails
    && (if inflation.corrupt then cfg.plan.verdict == Malformed else IsStreamPlan(job.parse(inflation.text), cfg.plan))
  }

  /** One result in the two modes' terms; a bad gzip member and bad JSON are one class. */
  predicate SameOutcome(buffered: Result<Outcome, CoreError>, streamed: Result<S.FilterResult, S.StreamError>) {
    match buffered
    case Err(error) => error.IsUnparsableSource() && streamed == Err(S.Unparsable)
    case Ok(Written(_)) => streamed == Ok(S.Written)
    case Ok(NothingKept) => streamed == Ok(S.NothingKept)
    case Ok(Unrecognized) => streamed == Ok(S.Skipped)
  }

  /** The buffered run of an object within the cap, with an encoder that works. */
  ghost function Buffered(job: Job, cfg: S.Config): Result<Outcome, CoreError> {
    BufferResult(job, Concat(cfg.chunks), (_: nat) => true)
  }

  /** On an object within the cap, what the call must come to is the buffered result exactly on agreeable files. */
  lemma ExpectedMatches(job: Job, cfg: S.Config)
    requires SameObject(job, cfg)
    requires |job.codec.gunzip(Concat(cfg.chunks)).text| <= job.maxObjectBytes
    ensures var inflation := job.codec.gunzip(Concat(cfg.chunks));
            SameOutcome(Buffered(job, cfg), Expected(cfg)) <==> inflation.corrupt || Agreeable(job.parse(inflation.text))
    ensures SameOutcome(Buffered(job, cfg), Expected(cfg)) ==>
              ExpectedCounts(cfg) == if Buffered(job, cfg).Ok? then Some(BufferCounts(job, Concat(cfg.chunks))) else None
    ensures SameOutcome(Buffered(job, cfg), Expected(cfg)) && Expected(cfg) == Ok(S.Written) ==>
              cfg.plan.records == BufferPlan(job.parse(job.codec.gunzip(Concat(cfg.chunks)).text)).records
  {
    hide Concat, IsStreamPlan, BufferPlan, Agreeable, Kept, Job.Valid, S.Config.Valid;
    var document := job.parse(job.codec.gunzip(Concat(cfg.chunks)).text);
    if !job.codec.gunzip(Concat(cfg.chunks)).corrupt {
      ReadersAgree(document, cfg.plan);
      OnlyFoundHasRecords(document);
      NothingYet(job.evaluate);
    }
  }

  lemma OnlyFoundHasRecords(document: Document)
    ensures BufferPlan(document).verdict != Found ==> BufferPlan(document).records == []
  {
  }

  /**
   Every fault-free schedule ends as the buffered run does, exactly when the file is agreeable:
   same verdict, same published counters, and the same text at the destination.
   */
  lemma ModesAgree(job: Job, cfg: S.Config, s: S.State)
    requires SameObject(job, cfg)
    requires |job.codec.gunzip(Concat(cfg.chunks)).text| <= job.maxObjectBytes
    requires S.Reaches(cfg, s) && S.Final(s) && !s.faulty
    ensures var inflation := job.codec.gunzip(Concat(cfg.chunks));
            var b := Buffered(job, cfg);
            && (SameOutcome(b, Returned(s)) <==> inflation.corrupt || Agreeable(job.parse(inflation.text)))
            && (SameOutcome(b, Returned(s)) ==>
                  && Published(s) == (if b.Ok? then Some(BufferCounts(job, Concat(cfg.chunks))) else None)
                  && if b.Ok? && b.value.Written? then
                       s.upload.dest.Some? && b.value.body.Some?
                       && job.codec.gunzip(s.upload.dest.value) == job.codec.gunzip(b.value.body.value)
                     else s.upload.dest == cfg.before)
  {
    hide Concat, SameOutcome, IsStreamPlan, BufferPlan, Agreeable, S.Reaches, Kept, BufferCounts, ExpectedCounts;
    FaultFreeOutcome(cfg, s);
    ExpectedMatches(job, cfg);
    if SameOutcome(Buffered(job, cfg), Expected(cfg)) {
      SamePayload(job, cfg);
    }
  }

  lemma SamePayload(job: Job, cfg: S.Config)
    requires SameObject(job, cfg) && SameOutcome(Buffered(job, cfg), Expected(cfg))
    requires |job.codec.gunzip(Concat(cfg.chunks)).text| <= job.maxObjectBytes
    ensures var b := Buffered(job, cfg);
            if b.Ok? && b.value.Written? then
              && ExpectedObject(cfg).Some? && b.value.body.Some?
              && job.codec.gunzip(ExpectedObject(cfg).value) == job.codec.gunzip(b.value.body.value)
            else ExpectedObject(cfg) == cfg.before
  {
    hide Concat, IsStreamPlan, BufferPlan, Kept, BufferCounts, BufferResult;
    WrittenIsEnvelope(job, Concat(cfg.chunks), (_: nat) => true);
    ExpectedMatches(job, cfg);
    job.codec.InflatesOne(Envelope(Kept(cfg.plan.records, cfg.evaluate)));
  }
}
