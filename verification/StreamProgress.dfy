/** Every schedule of the streaming filter ends, and only ends with all four components finished. */
module StreamProgress {
  import opened Wrappers
  import opened Stream
  import opened Tally

  /** Steps the program takes by itself: nothing dies and nothing fails. */
  predicate Ordinary(e: Event) {
    match e
    case ExtractDie => false
    case UploadFail => false
    case FilterStep(encoderOk, _) => encoderOk
    case _ => true
  }

  /** How the extractor goes about a malformed source: reads on as long as it may, or no more than it must. */
  datatype Manner = Patient | Hasty

  predicate Follows(cfg: Config, s: State, e: Event, manner: Manner) {
    Ordinary(e) &&
    (e.ExtractChoose? ==>
       match manner
       case Patient => e.choice == ChooseFinish ==> !MayReceive(cfg, s.extractor)
       case Hasty => e.choice == ChooseReceive ==> !MayTell(cfg, s.extractor))
  }

  ghost predicate Enabled(cfg: Config, s: State, e: Event, manner: Manner) {
    Follows(cfg, s, e, manner) && Next(cfg, s, e).Some?
  }

  lemma FeedProgress(cfg: Config, s: State, manner: Manner)
    requires cfg.Valid() && s.extractor.pc == Receiving
    ensures exists e :: Enabled(cfg, s, e, manner)
  {
    if s.inQ != [] || s.pump.pc.PumpDone? {
      assert Enabled(cfg, s, ExtractStep, manner);
    } else {
      assert Enabled(cfg, s, PumpStep, manner);
    }
  }

  lemma ExtractProgress(cfg: Config, s: State, manner: Manner)
    requires cfg.Valid() && !ExtractorGone(s) && (s.filter.pc.FilterDone? || s.recQ == [])
    ensures exists e :: Enabled(cfg, s, e, manner)
  {
    match s.extractor.pc
    case Choosing =>
      if MayReceive(cfg, s.extractor) && !(manner.Hasty? && MayTell(cfg, s.extractor)) {
        assert Enabled(cfg, s, ExtractChoose(ChooseReceive), manner);
      } else if s.extractor.emitted < |cfg.plan.records| {
        assert Enabled(cfg, s, ExtractChoose(ChooseEmit), manner);
      } else {
        assert Enabled(cfg, s, ExtractChoose(ChooseFinish), manner);
      }
    case Receiving => FeedProgress(cfg, s, manner);
    case Emitting(_) => assert Enabled(cfg, s, ExtractStep, manner);
    case Finishing(_) => assert Enabled(cfg, s, ExtractStep, manner);
  }

  lemma FilterProgress(cfg: Config, s: State, manner: Manner)
    requires cfg.Valid() && !s.filter.pc.FilterDone?
    ensures exists e :: Enabled(cfg, s, e, manner)
  {
    if FilterNext(cfg, s, true, None).Some? {
      assert Enabled(cfg, s, FilterStep(true, None), manner);
    } else if s.filter.pc.Awaiting? {
      ExtractProgress(cfg, s, manner);
    } else {
      assert Enabled(cfg, s, UploadStep, manner);
    }
  }

  /** A state that is not final always has an ordinary step left: nothing can deadlock. */
  lemma NeverStuck(cfg: Config, s: State, manner: Manner)
    requires cfg.Valid() && !Final(s)
    ensures exists e :: Follows(cfg, s, e, manner) && Next(cfg, s, e).Some?
  {
    if !s.filter.pc.FilterDone? {
      FilterProgress(cfg, s, manner);
    } else if !ExtractorGone(s) {
      ExtractProgress(cfg, s, manner);
    } else if !s.pump.pc.PumpDone? {
      assert Enabled(cfg, s, PumpStep, manner);
    } else {
      assert Enabled(cfg, s, UploadStep, manner);
    }
    var e :| Enabled(cfg, s, e, manner);
  }

  // ----- Termination -----

  function PumpWeight(pump: PumpPc): nat {
    match pump
    case Reading => 10
    case Sending(Chunk(_)) => 15
    case Sending(ReadError) => 9
    case PumpDone => 0
  }

  function ExtractWeight(extract: ExtractPc): nat {
    match extract
    case Choosing => 6
    case Receiving => 5
    case Emitting(_) => 5
    case Finishing(_) => 4
    case ExtractDone => 0
    case ExtractDied => 0
  }

  function FilterWeight(filter: FilterPc): nat {
    match filter
    case Starting => 5
    case Awaiting => 4
    case Flushing(_) => 6
    case Ending(msgs, _) => 1 + 2 * |msgs|
    case FilterDone(_) => 0
  }

  /** What `Measure` needs of a state: no record is emitted twice, and no read follows end of file. */
  predicate Counted(cfg: Config, s: State) {
    && s.extractor.emitted <= |cfg.plan.records|
    && (s.extractor.pc == Receiving ==> !s.extractor.eofSeen)
    && (s.extractor.pc.Emitting? ==> s.extractor.emitted < |cfg.plan.records|)
  }

  function Measure(cfg: Config, s: State): nat
    requires Counted(cfg, s)
  {
    6 * |s.pump.unread| + PumpWeight(s.pump.pc) + 4 * |s.inQ| + (if s.extractor.eofSeen then 0 else 2)
    + 5 * (|cfg.plan.records| - s.extractor.emitted) + ExtractWeight(s.extractor.pc) + 3 * |s.recQ|
    + FilterWeight(s.filter.pc) + |s.outQ| + (if s.upload.pc.Uploading? then 1 else 0)
  }

  lemma ChooseDecreases(cfg: Config, s: State, choice: Choice)
    requires Counted(cfg, s) && ExtractChooseNext(cfg, s, choice).Some?
    ensures Counted(cfg, ExtractChooseNext(cfg, s, choice).value)
    ensures Measure(cfg, ExtractChooseNext(cfg, s, choice).value) < Measure(cfg, s)
  {
    hide FilterWeight, PumpWeight, MayFinish;
  }

  lemma ReceiveDecreases(cfg: Config, s: State)
    requires Counted(cfg, s) && s.extractor.pc == Receiving && ExtractNext(cfg, s).Some?
    ensures Counted(cfg, ExtractNext(cfg, s).value)
    ensures Measure(cfg, ExtractNext(cfg, s).value) < Measure(cfg, s)
  {
    hide FilterWeight, PumpWeight;
  }

  lemma SendDecreases(cfg: Config, s: State)
    requires Counted(cfg, s) && s.extractor.pc != Receiving && ExtractNext(cfg, s).Some?
    ensures Counted(cfg, ExtractNext(cfg, s).value)
    ensures Measure(cfg, ExtractNext(cfg, s).value) < Measure(cfg, s)
  {
    hide FilterWeight, PumpWeight;
  }

  lemma MessageDecreases(cfg: Config, f: Filter, msg: RecMsg, encoderOk: bool, drainTo: Option<nat>)
    requires f.pc == Awaiting && OnMessage(cfg, f, msg, encoderOk, drainTo).Some?
    ensures FilterWeight(OnMessage(cfg, f, msg, encoderOk, drainTo).value.pc) <= FilterWeight(f.pc) + 2
  {
    hide Count, Get, Join, Survives;
  }

  lemma FilterDecreases(cfg: Config, s: State, encoderOk: bool, drainTo: Option<nat>)
    requires Counted(cfg, s) && FilterNext(cfg, s, encoderOk, drainTo).Some?
    ensures Counted(cfg, FilterNext(cfg, s, encoderOk, drainTo).value)
    ensures Measure(cfg, FilterNext(cfg, s, encoderOk, drainTo).value) < Measure(cfg, s)
  {
    hide OnMessage, PumpWeight, ExtractWeight;
    if s.filter.pc.Awaiting? && s.recQ != [] {
      MessageDecreases(cfg, s.filter, s.recQ[0], encoderOk, drainTo);
    }
  }

  lemma PumpDecreases(cfg: Config, s: State)
    requires Counted(cfg, s) && PumpNext(cfg, s).Some?
    ensures Counted(cfg, PumpNext(cfg, s).value)
    ensures Measure(cfg, PumpNext(cfg, s).value) < Measure(cfg, s)
  {
    hide FilterWeight, ExtractWeight;
  }

  lemma UploadDecreases(cfg: Config, s: State)
    requires Counted(cfg, s) && UploadNext(s).Some?
    ensures Counted(cfg, UploadNext(s).value)
    ensures Measure(cfg, UploadNext(s).value) < Measure(cfg, s)
  {
    hide FilterWeight, ExtractWeight, PumpWeight;
  }

  lemma StepDecreases(cfg: Config, s: State, e: Event)
    requires Counted(cfg, s) && Next(cfg, s, e).Some?
    ensures Counted(cfg, Next(cfg, s, e).value)
    ensures Measure(cfg, Next(cfg, s, e).value) < Measure(cfg, s)
  {
    hide PumpNext, FilterNext, ExtractNext, ExtractChooseNext, UploadNext, FilterWeight, PumpWeight;
    match e
    case PumpStep => PumpDecreases(cfg, s);
    case ExtractChoose(choice) => ChooseDecreases(cfg, s, choice);
    case ExtractStep =>
      if s.extractor.pc == Receiving {
        ReceiveDecreases(cfg, s);
      } else {
        SendDecreases(cfg, s);
      }
    case FilterStep(encoderOk, drainTo) => FilterDecreases(cfg, s, encoderOk, drainTo);
    case UploadStep => UploadDecreases(cfg, s);
    case ExtractDie =>
    case UploadFail =>
  }

  lemma {:induction false} RunBounded(cfg: Config, events: seq<Event>)
    requires Run(cfg, events).Some?
    ensures Counted(cfg, Run(cfg, events).value)
    ensures |events| + Measure(cfg, Run(cfg, events).value) <= Measure(cfg, Init(cfg))
  {
    if events != [] {
      var n := |events| - 1;
      RunBounded(cfg, events[..n]);
      StepDecreases(cfg, Run(cfg, events[..n]).value, events[n]);
    }
  }

  /** No schedule is longer than this, whatever fails and however the components interleave. */
  lemma Terminates(cfg: Config, events: seq<Event>)
    requires Run(cfg, events).Some?
    ensures |events| <= 6 * |cfg.chunks| + 5 * |cfg.plan.records| + 24
  {
    RunBounded(cfg, events);
  }

  lemma RunSnoc(cfg: Config, events: seq<Event>, e: Event)
    requires Run(cfg, events).Some? && Next(cfg, Run(cfg, events).value, e).Some?
    ensures Run(cfg, events + [e]) == Next(cfg, Run(cfg, events).value, e)
  {
    hide Next;
    assert (events + [e])[..|events|] == events;
  }

  /** What follows `events` keeps to the manner step by step. */
  ghost predicate GoesOn(cfg: Config, events: seq<Event>, more: seq<Event>, manner: Manner) {
    forall k :: 0 <= k < |more| ==> FollowsAt(cfg, events + more[..k], more[k], manner)
  }

  ghost predicate FollowsAt(cfg: Config, events: seq<Event>, e: Event, manner: Manner) {
    Run(cfg, events).Some? && Follows(cfg, Run(cfg, events).value, e, manner)
  }

  lemma GoesOnCons(cfg: Config, events: seq<Event>, e: Event, rest: seq<Event>, manner: Manner)
    requires FollowsAt(cfg, events, e, manner) && GoesOn(cfg, events + [e], rest, manner)
    ensures GoesOn(cfg, events, [e] + rest, manner)
  {
    hide FollowsAt;
    var more := [e] + rest;
    forall k | 0 <= k < |more| ensures FollowsAt(cfg, events + more[..k], more[k], manner) {
      if k == 0 {
        assert events + more[..0] == events;
      } else {
        assert events + more[..k] == events + [e] + rest[..k-1];
        assert FollowsAt(cfg, events + [e] + rest[..k-1], rest[k-1], manner);
      }
    }
  }

  /** Every schedule can be carried on in either manner, without another fault, until all four components are done. */
  lemma {:induction false} Completes(cfg: Config, events: seq<Event>, manner: Manner) returns (more: seq<Event>)
    requires cfg.Valid() && Run(cfg, events).Some?
    ensures GoesOn(cfg, events, more, manner)
    ensures Run(cfg, events + more).Some? && Final(Run(cfg, events + more).value)
    decreases 6 * |cfg.chunks| + 5 * |cfg.plan.records| + 24 - |events|
  {
    hide Run, Next, Final, Config.Valid, Follows, GoesOn;
    var s := Run(cfg, events).value;
    if Final(s) {
      assert events + [] == events;
      more := [];
      assert GoesOn(cfg, events, [], manner) by {
        NothingMore(cfg, events, manner);
      }
    } else {
      NeverStuck(cfg, s, manner);
      var e :| Follows(cfg, s, e, manner) && Next(cfg, s, e).Some?;
      RunSnoc(cfg, events, e);
      Terminates(cfg, events + [e]);
      var rest := Completes(cfg, events + [e], manner);
      GoesOnCons(cfg, events, e, rest, manner);
      assert events + ([e] + rest) == events + [e] + rest;
      more := [e] + rest;
    }
  }

  lemma NothingMore(cfg: Config, events: seq<Event>, manner: Manner)
    ensures GoesOn(cfg, events, [], manner)
  {
  }
}
