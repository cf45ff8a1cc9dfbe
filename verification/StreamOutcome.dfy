/**
 What a streaming call returns once its four components are done, and what it publishes:
 without faults neither depends on the schedule.
 */
module StreamOutcome {
  import opened Wrappers
  import opened Tally
  import opened Codecs
  import opened Envelopes
  import opened Records
  import opened Stream
  import opened StreamSafety

  /** The call's result: a dead extractor outranks the filter, a failed upload undoes a write. */
  function Returned(s: State): Result<FilterResult, StreamError>
    requires Final(s)
  {
    if s.extractor.pc.ExtractDied? then Err(Internal)
    else
      match s.filter.pc.result
      case Failed(error) => Err(error)
      case Written => if s.upload.pc.ok then Ok(Written) else Err(UploadFailed)
      case other => Ok(other)
  }

  /** The counters committed: none on an error, zeros for an object without records. */
  function Published(s: State): Option<Counts>
    requires Final(s)
  {
    match Returned(s)
    case Err(_) => None
    case Ok(Skipped) => Some(ZERO)
    case Ok(_) => Some(s.filter.tally)
  }

  /** The output bytes accounted for. */
  function BilledOut(s: State): nat
    requires Final(s)
  {
    if Returned(s) == Ok(Written) then s.filter.bytesOut else 0
  }

  /** What a fault-free call on a readable input must come to. */
  function Expected(cfg: Config): Result<FilterResult, StreamError> {
    match cfg.plan.verdict
    case Malformed => Err(Unparsable)
    case Unrecognized => Ok(Skipped)
    case Found => Ok(if Kept(cfg.plan.records, cfg.evaluate) == [] then NothingKept else Written)
  }

  function ExpectedCounts(cfg: Config): Option<Counts> {
    match cfg.plan.verdict
    case Malformed => None
    case Unrecognized => Some(ZERO)
    case Found => Some(CountAll(Verdicts(cfg.plan.records, cfg.evaluate)))
  }

  /** The object at the destination after a fault-free call. */
  function ExpectedObject(cfg: Config): Option<Bytes> {
    if Expected(cfg) == Ok(Written) then Some(cfg.codec.Gzip(Envelope(Kept(cfg.plan.records, cfg.evaluate))))
    else cfg.before
  }

  lemma ConsumedIsCounted(cfg: Config, s: State)
    requires InputOk(cfg, s)
    ensures s.pump.bytesIn <= |Concat(cfg.chunks)|
    ensures s.extractor.eofSeen ==> s.pump.bytesIn == |Concat(cfg.chunks)|
  {
  }

  /**
   Whatever fails: success is reported exactly for the planned outcome of a source read to its
   end, a write is reported exactly when the object landed, and the counters say what happened.
   */
  lemma SuccessIsExact(cfg: Config, s: State)
    requires cfg.Valid() && Reaches(cfg, s) && Final(s)
    ensures && (Returned(s) == Ok(Written) <==> s.upload.pc.ok)
            && s.pump.bytesIn <= |Concat(cfg.chunks)|
            && (Returned(s).Ok? ==>
                  && Returned(s) == Expected(cfg) && !cfg.readFails && Published(s) == ExpectedCounts(cfg)
                  && s.upload.dest == ExpectedObject(cfg) && s.pump.bytesIn == |Concat(cfg.chunks)|)
            && (Returned(s).Err? ==> Published(s) == None && BilledOut(s) == 0 && s.upload.dest == cfg.before)
            && BilledOut(s) == (if s.upload.pc.ok then |s.upload.dest.value| else 0)
  {
    hide Reaches, Concat, Chunks, Texts, Payload, Join, Kept, CountAll, Verdicts;
    ReachedKeeps(cfg, s);
    ConsumedIsCounted(cfg, s);
    CommitsOnlyComplete(cfg, s);
  }

  /** Every error has its cause. */
  lemma ErrorsAreCaused(cfg: Config, s: State)
    requires cfg.Valid() && Reaches(cfg, s) && Final(s)
    ensures match Returned(s)
            case Ok(_) => true
            case Err(Unparsable) => MayMisparse(cfg)
            case Err(SourceUnread) => MayMisread(cfg)
            case Err(_) => s.faulty
  {
    hide Reaches, Concat, Chunks, Texts, Payload, Join, Kept, CountAll, Verdicts;
    ReachedKeeps(cfg, s);
  }

  /** Without faults, the result, the destination and the published counters follow from the input alone. */
  lemma FaultFreeOutcome(cfg: Config, s: State)
    requires cfg.Valid() && Reaches(cfg, s) && Final(s)
    requires !s.faulty && !cfg.readFails
    ensures Returned(s) == Expected(cfg) && Published(s) == ExpectedCounts(cfg) && s.upload.dest == ExpectedObject(cfg)
  {
    hide Reaches, Concat, Join, Kept, CountAll, Verdicts;
    SuccessIsExact(cfg, s);
    ErrorsAreCaused(cfg, s);
  }

  /**
   A source that fails to read is never reported as a success, and never reaches the destination.
   Without a fault besides, a malformed one is reported as unparsable if it delivered enough to
   tell, as unread if it did not deliver enough for it, and as either in between; any other one
   is reported as unread.
   */
  lemma ReadFailureOutcome(cfg: Config, s: State)
    requires cfg.Valid() && Reaches(cfg, s) && Final(s) && cfg.readFails
    ensures Returned(s).Err? && s.upload.dest == cfg.before && Published(s) == None
    ensures !s.faulty ==>
              var delivered := |Concat(cfg.chunks)|;
              if cfg.plan.verdict != Malformed || delivered < cfg.window.soonest then Returned(s) == Err(SourceUnread)
              else if delivered >= cfg.window.latest then Returned(s) == Err(Unparsable)
              else Returned(s) == Err(SourceUnread) || Returned(s) == Err(Unparsable)
  {
    hide Reaches, Concat, Join, Kept, CountAll, Verdicts;
    SuccessIsExact(cfg, s);
    ErrorsAreCaused(cfg, s);
  }
}
