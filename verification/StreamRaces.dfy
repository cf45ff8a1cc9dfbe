/**
 Two failures, one report: when a malformed source fails to read inside the window in which it
 may or may not have told, either failure may be the one a streaming call returns.
 */
module StreamRaces {
  import opened Wrappers
  import opened Tally
  import opened Codecs
  import opened Envelopes
  import opened Stream
  import opened StreamSafety
  import opened StreamProgress
  import opened StreamOutcome

  function ErrorOf(kind: FinishKind): StreamError
    requires kind.ParseFailure? || kind.TransportFailure?
  {
    if kind.ParseFailure? then Unparsable else SourceUnread
  }

  /** The extractor's finish report is this one, and it has not been lost. */
  predicate Reports(s: State, kind: FinishKind)
    requires kind.ParseFailure? || kind.TransportFailure?
  {
    match s.extractor.pc
    case Finishing(k) => k == kind && Live(s.filter.pc)
    case ExtractDone =>
      if Live(s.filter.pc) then s.recQ != [] && s.recQ[|s.recQ| - 1] == Finished(kind)
      else s.filter.pc.result == Failed(ErrorOf(kind))
    case _ => false
  }

  /** It has not made one yet. */
  predicate Undecided(s: State) {
    (s.extractor.pc.Choosing? || s.extractor.pc.Receiving? || s.extractor.pc.Emitting?) && Live(s.filter.pc)
  }

  /** A malformed source delivers enough to be told, but not so much that it must be, and then fails. */
  predicate Torn(cfg: Config) {
    cfg.readFails && cfg.plan.verdict == Malformed && cfg.window.soonest <= |Concat(cfg.chunks)| < cfg.window.latest
  }

  /** The manner in which each of the two reports is come to. */
  function MannerOf(kind: FinishKind): Manner
    requires kind.ParseFailure? || kind.TransportFailure?
  {
    if kind.ParseFailure? then Hasty else Patient
  }

  /** No report yet, and none to come but this one: a hasty extractor that is receiving could not tell before. */
  predicate Heads(cfg: Config, s: State, kind: FinishKind)
    requires kind.ParseFailure? || kind.TransportFailure?
  {
    Reports(s, kind) ||
    (Undecided(s) && (kind.ParseFailure? && s.extractor.pc.Receiving? ==> !MayTell(cfg, s.extractor)))
  }

  /** Without a fault, an extractor that is still choosing has reported nothing. */
  lemma ChoosingIsUndecided(cfg: Config, s: State)
    requires RecordsOk(cfg, s) && !s.faulty && s.extractor.pc == Choosing
    ensures Undecided(s)
  {
    hide RecordsPlaced, FinishLast, EmitsInOrder;
  }

  /** Sending, or handing in the report. */
  lemma SendHeads(cfg: Config, s: State, kind: FinishKind)
    requires kind.ParseFailure? || kind.TransportFailure?
    requires Heads(cfg, s, kind) && !s.extractor.pc.Receiving? && ExtractNext(cfg, s).Some?
    ensures Heads(cfg, ExtractNext(cfg, s).value, kind)
  {
    hide Concat;
  }

  /** Receiving: the read failure is met by the patient only, since the hasty tell before it. */
  lemma ReceiveHeads(cfg: Config, s: State, kind: FinishKind)
    requires kind.ParseFailure? || kind.TransportFailure?
    requires Torn(cfg) && ChunksPlaced(cfg, s) && ErrorKept(cfg, s)
    requires Heads(cfg, s, kind) && s.extractor.pc.Receiving? && ExtractNext(cfg, s).Some?
    ensures Heads(cfg, ExtractNext(cfg, s).value, kind)
  {
    hide Concat, Chunks, ChunksPlaced, ErrorKept;
    if s.inQ != [] && s.inQ[0] == ReadError {
      ErrorComesLast(cfg, s);
    }
  }

  /** Choosing: the patient can receive more, and so do not give the source up. */
  lemma ChooseHeads(cfg: Config, s: State, choice: Choice, kind: FinishKind)
    requires kind.ParseFailure? || kind.TransportFailure?
    requires Torn(cfg) && ChunksPlaced(cfg, s) && EofGenuine(cfg, s) && Follows(cfg, s, ExtractChoose(choice), MannerOf(kind))
    requires Heads(cfg, s, kind) && ExtractChooseNext(cfg, s, choice).Some?
    ensures Heads(cfg, ExtractChooseNext(cfg, s, choice).value, kind)
  {
    hide Concat, Chunks, ChunksPlaced;
    ReceivedWithin(cfg, s);
  }

  lemma MessageReports(cfg: Config, s: State, kind: FinishKind, drainTo: Option<nat>)
    requires kind.ParseFailure? || kind.TransportFailure?
    requires EndsLast(s.recQ) && Reports(s, kind) && s.extractor.pc == ExtractDone && s.filter.pc == Awaiting && s.recQ != []
    requires FilterNext(cfg, s, true, drainTo).Some?
    ensures Reports(FilterNext(cfg, s, true, drainTo).value, kind)
  {
    hide Count, Survives, Fed;
    if s.recQ[0].Finished? {
      assert |s.recQ| == 1;
    }
  }

  lemma RecordKeepsLive(cfg: Config, s: State, drainTo: Option<nat>)
    requires s.filter.pc == Awaiting && s.recQ != [] && s.recQ[0].Record? && FilterNext(cfg, s, true, drainTo).Some?
    ensures Live(FilterNext(cfg, s, true, drainTo).value.filter.pc)
  {
    hide Count, Survives, Fed;
  }

  lemma FilterHeads(cfg: Config, s: State, kind: FinishKind, drainTo: Option<nat>)
    requires kind.ParseFailure? || kind.TransportFailure?
    requires FinishLast(cfg, s) && Heads(cfg, s, kind) && FilterNext(cfg, s, true, drainTo).Some?
    ensures Heads(cfg, FilterNext(cfg, s, true, drainTo).value, kind)
  {
    hide OnMessage, KindOk, MayTell;
    if s.filter.pc == Awaiting && s.recQ != [] {
      if s.extractor.pc == ExtractDone {
        MessageReports(cfg, s, kind, drainTo);
      } else {
        assert !Ended(s.recQ) && s.recQ[0].Record?;
        RecordKeepsLive(cfg, s, drainTo);
      }
    }
  }

  lemma StepFaultless(cfg: Config, s: State, e: Event)
    requires Ordinary(e) && Next(cfg, s, e).Some?
    ensures Next(cfg, s, e).value.faulty == s.faulty
  {
    hide OnMessage, MayReceive, MayFinish;
  }

  lemma ElsewhereHeads(cfg: Config, s: State, e: Event, kind: FinishKind)
    requires kind.ParseFailure? || kind.TransportFailure?
    requires (e == PumpStep || e == UploadStep) && Next(cfg, s, e).Some? && Heads(cfg, s, kind)
    ensures Heads(cfg, Next(cfg, s, e).value, kind)
  {
    hide MayTell;
  }

  /** On a torn source, a fault-free step in either manner keeps heading for its report. */
  lemma StepHeads(cfg: Config, s: State, e: Event, kind: FinishKind)
    requires kind.ParseFailure? || kind.TransportFailure?
    requires Torn(cfg) && Invariant(cfg, s) && Follows(cfg, s, e, MannerOf(kind)) && Next(cfg, s, e).Some? && Heads(cfg, s, kind)
    ensures Heads(cfg, Next(cfg, s, e).value, kind)
  {
    hide ChunksPlaced, EofGenuine, ErrorKept, BytesCounted, EncoderOk, OutputOk, RecordsPlaced, EmitsInOrder,
         ResultsOk, FinishLast;
    hide PumpNext, FilterNext, ExtractNext, ExtractChooseNext, UploadNext, Heads, Torn, MayTell, MayReceive;
    match e
    case ExtractChoose(choice) => ChooseHeads(cfg, s, choice, kind);
    case ExtractStep =>
      if s.extractor.pc.Receiving? {
        ReceiveHeads(cfg, s, kind);
      } else {
        SendHeads(cfg, s, kind);
      }
    case FilterStep(_, drainTo) => FilterHeads(cfg, s, kind, drainTo);
    case _ => ElsewhereHeads(cfg, s, e, kind);
  }

  lemma {:induction false} StaysHeaded(cfg: Config, events: seq<Event>, more: seq<Event>, kind: FinishKind)
    requires kind.ParseFailure? || kind.TransportFailure?
    requires cfg.Valid() && Torn(cfg) && Run(cfg, events).Some?
    requires !Run(cfg, events).value.faulty && Heads(cfg, Run(cfg, events).value, kind)
    requires GoesOn(cfg, events, more, MannerOf(kind)) && Run(cfg, events + more).Some?
    ensures !Run(cfg, events + more).value.faulty && Heads(cfg, Run(cfg, events + more).value, kind)
    decreases |more|
  {
    hide Next, Follows, Invariant, Config.Valid, Heads, Torn;
    if more == [] {
      assert events + more == events;
    } else {
      var n := |more| - 1;
      var before := events + more[..n];
      assert FollowsAt(cfg, before, more[n], MannerOf(kind));
      assert (events + more)[..|events + more| - 1] == before && (events + more)[|events + more| - 1] == more[n];
      GoesOnPrefix(cfg, events, more, MannerOf(kind));
      StaysHeaded(cfg, events, more[..n], kind);
      RunKeeps(cfg, before);
      var s := Run(cfg, before).value;
      StepHeads(cfg, s, more[n], kind);
      assert Ordinary(more[n]) by {
        FollowsIsOrdinary(cfg, s, more[n], MannerOf(kind));
      }
      StepFaultless(cfg, s, more[n]);
    }
  }

  lemma FollowsIsOrdinary(cfg: Config, s: State, e: Event, manner: Manner)
    requires Follows(cfg, s, e, manner)
    ensures Ordinary(e)
  {
  }

  lemma GoesOnPrefix(cfg: Config, events: seq<Event>, more: seq<Event>, manner: Manner)
    requires more != [] && GoesOn(cfg, events, more, manner)
    ensures GoesOn(cfg, events, more[..|more| - 1], manner)
  {
    hide FollowsAt;
    var shorter := more[..|more| - 1];
    forall k | 0 <= k < |shorter| ensures FollowsAt(cfg, events + shorter[..k], shorter[k], manner) {
      assert shorter[..k] == more[..k];
      assert FollowsAt(cfg, events + more[..k], more[k], manner);
    }
  }

  lemma HeadedReturns(cfg: Config, s: State, kind: FinishKind)
    requires kind.ParseFailure? || kind.TransportFailure?
    requires Final(s) && Heads(cfg, s, kind)
    ensures Returned(s) == Err(ErrorOf(kind))
  {
  }

  lemma InvariantRecords(cfg: Config, s: State)
    requires Invariant(cfg, s)
    ensures RecordsOk(cfg, s)
  {
    hide InputOk, RecordsOk, EncoderOk, OutputOk;
  }

  lemma MayEndSo(cfg: Config, events: seq<Event>, kind: FinishKind) returns (more: seq<Event>)
    requires kind.ParseFailure? || kind.TransportFailure?
    requires cfg.Valid() && Torn(cfg)
    requires Run(cfg, events).Some? && !Run(cfg, events).value.faulty && Run(cfg, events).value.extractor.pc == Choosing
    ensures var s := Run(cfg, events + more); s.Some? && Final(s.value) && !s.value.faulty && Returned(s.value) == Err(ErrorOf(kind))
  {
    hide Invariant, Config.Valid, Run, Final, Returned, GoesOn, RecordsOk, Torn, MayTell;
    RunKeeps(cfg, events);
    InvariantRecords(cfg, Run(cfg, events).value);
    ChoosingIsUndecided(cfg, Run(cfg, events).value);
    more := Completes(cfg, events, MannerOf(kind));
    StaysHeaded(cfg, events, more, kind);
    HeadedReturns(cfg, Run(cfg, events + more).value, kind);
  }

  /**
   From any point of a fault-free run on a torn source at which the extractor is still choosing
   and has reported nothing, both ends are open: the parse failure, and the read failure.
   */
  lemma EitherMayBeReported(cfg: Config, events: seq<Event>) returns (early: seq<Event>, late: seq<Event>)
    requires cfg.Valid() && Torn(cfg)
    requires Run(cfg, events).Some? && !Run(cfg, events).value.faulty && Run(cfg, events).value.extractor.pc == Choosing
    ensures var s := Run(cfg, events + early); s.Some? && Final(s.value) && !s.value.faulty && Returned(s.value) == Err(Unparsable)
    ensures var s := Run(cfg, events + late); s.Some? && Final(s.value) && !s.value.faulty && Returned(s.value) == Err(SourceUnread)
  {
    hide Config.Valid, Run, Final, Returned, Torn;
    early := MayEndSo(cfg, events, ParseFailure);
    late := MayEndSo(cfg, events, TransportFailure);
  }
}
