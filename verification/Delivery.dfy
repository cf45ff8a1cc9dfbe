/**
 The filter's output as a real store reads it: the messages handed over in a run, put through
 the polled reader and the in-memory store's upload loop.
 */
module Delivery {
  import opened Wrappers
  import opened Tally
  import opened Records
  import opened Stream
  import opened StreamSafety
  import R = ChannelReaders

  /** What a step of the filter hands over. */
  function Sends(s: State, e: Event): seq<OutMsg> {
    if !e.FilterStep? then []
    else
      match s.filter.pc
      case Flushing(chunk) => [Data(chunk)]
      case Ending(msgs, _) => if msgs == [] then [] else [msgs[0]]
      case _ => []
  }

  /** What it has handed over in a run, whether or not the upload was still there to take it. */
  function Offered(cfg: Config, events: seq<Event>): seq<OutMsg>
    requires Run(cfg, events).Some?
  {
    if events == [] then []
    else
      var before := events[..|events| - 1];
      Offered(cfg, before) + Sends(Run(cfg, before).value, events[|events| - 1])
  }

  /** The same state, were the upload yet to read the first byte. */
  function Unread(cfg: Config, s: State, offered: seq<OutMsg>): State {
    s.(outQ := offered, upload := Upload(Uploading, [], cfg.before))
  }

  function Roomy(cfg: Config, n: nat): Config {
    cfg.(outCap := n)
  }

  lemma RoomIsNoMatter(cfg: Config, n: nat, s: State)
    ensures OutputOk(Roomy(cfg, n), s) <==> OutputOk(cfg, s)
    ensures EncoderOk(Roomy(cfg, n), s.filter) <==> EncoderOk(cfg, s.filter)
  {
    hide Payload, Kept, CountAll, Verdicts, Join;
  }

  /** The filter does not notice the difference. */
  lemma FilterUnread(cfg: Config, s: State, offered: seq<OutMsg>, encoderOk: bool, drainTo: Option<nat>)
    requires FilterNext(cfg, s, encoderOk, drainTo).Some?
    ensures FilterNext(Roomy(cfg, |offered| + 1), Unread(cfg, s, offered), encoderOk, drainTo) ==
            Some(Unread(cfg, FilterNext(cfg, s, encoderOk, drainTo).value, offered + Sends(s, FilterStep(encoderOk, drainTo))))
  {
    hide OnMessage;
    assert offered + [] == offered;
    if s.filter.pc.Awaiting? && s.recQ != [] {
      MessageUnread(cfg, |offered| + 1, s.filter, s.recQ[0], encoderOk, drainTo);
    }
  }

  lemma MessageUnread(cfg: Config, n: nat, f: Filter, msg: RecMsg, encoderOk: bool, drainTo: Option<nat>)
    ensures OnMessage(Roomy(cfg, n), f, msg, encoderOk, drainTo) == OnMessage(cfg, f, msg, encoderOk, drainTo)
  {
    hide Count, Survives, Fed;
  }

  lemma OthersUnread(cfg: Config, s: State, e: Event, offered: seq<OutMsg>)
    requires OutputOk(cfg, Unread(cfg, s, offered)) && !e.FilterStep? && Next(cfg, s, e).Some?
    ensures OutputOk(cfg, Unread(cfg, Next(cfg, s, e).value, offered + Sends(s, e)))
  {
    hide Payload;
    assert offered + [] == offered;
  }

  /** At every point of every run, what was handed over and what is held back are in step. */
  lemma {:induction false} OfferedOk(cfg: Config, events: seq<Event>)
    requires cfg.Valid() && Run(cfg, events).Some?
    ensures OutputOk(cfg, Unread(cfg, Run(cfg, events).value, Offered(cfg, events)))
  {
    hide OutputOk, EncoderOk, InputOk, RecordsOk, FilterNext, Next;
    if events == [] {
      UnreadInit(cfg);
    } else {
      var before, e := events[..|events| - 1], events[|events| - 1];
      var s, offered := Run(cfg, before).value, Offered(cfg, before);
      OfferedOk(cfg, before);
      RunKeeps(cfg, before);
      if e.FilterStep? {
        StepFilters(cfg, s, e);
        var roomy := Roomy(cfg, |offered| + 1);
        FilterUnread(cfg, s, offered, e.encoderOk, e.drainTo);
        RoomIsNoMatter(cfg, |offered| + 1, Unread(cfg, s, offered));
        RoomIsNoMatter(cfg, |offered| + 1, Unread(cfg, FilterNext(cfg, s, e.encoderOk, e.drainTo).value, offered + Sends(s, e)));
        OutputFilter(roomy, Unread(cfg, s, offered), e.encoderOk, e.drainTo);
      } else {
        OthersUnread(cfg, s, e, offered);
      }
    }
  }

  lemma StepFilters(cfg: Config, s: State, e: Event)
    requires e.FilterStep?
    ensures Next(cfg, s, e) == FilterNext(cfg, s, e.encoderOk, e.drainTo)
  {
    hide FilterNext;
  }

  lemma UnreadInit(cfg: Config)
    requires cfg.Valid()
    ensures OutputOk(cfg, Unread(cfg, Init(cfg), []))
  {
    assert cfg.codec.partial("")[..0] == [];
  }

  /**
   Once the filter is done, what it has handed over is the compressed envelope of the kept
   records, if its result is that it wrote; and otherwise ends in an abort.
   */
  lemma OfferedIsEnvelope(cfg: Config, events: seq<Event>)
    requires cfg.Valid() && Run(cfg, events).Some? && Run(cfg, events).value.filter.pc.FilterDone?
    ensures Run(cfg, events).value.filter.pc.result == Written <==> Abort !in Offered(cfg, events)
    ensures Abort !in Offered(cfg, events) ==>
              Payload(Offered(cfg, events)) == cfg.codec.Gzip(Envelope(Kept(cfg.plan.records, cfg.evaluate)))
  {
    hide Run, Payload, Kept, CountAll, Verdicts, Join, InputOk;
    OfferedOk(cfg, events);
    RunKeeps(cfg, events);
  }

  // ----- Through the store -----

  function Sent(msg: OutMsg): R.ByteMsg {
    match msg case Data(data) => Ok(data) case Abort => Err("aborted")
  }

  function Wire(msgs: seq<OutMsg>): (wire: seq<R.ByteMsg>)
    ensures |wire| == |msgs|
  {
    seq(|msgs|, i requires 0 <= i < |msgs| => Sent(msgs[i]))
  }

  lemma {:induction false} WireCarries(msgs: seq<OutMsg>)
    ensures R.Clean(Wire(msgs)) <==> Abort !in msgs
    ensures R.DataOf(Wire(msgs)) == Payload(msgs)
  {
    if msgs != [] {
      var n := |msgs| - 1;
      WireCarries(msgs[..n]);
      assert msgs == msgs[..n] + [msgs[n]];
      assert Wire(msgs) == Wire(msgs[..n]) + [Sent(msgs[n])];
      R.DataOfAppend(Wire(msgs[..n]), [Sent(msgs[n])]);
      R.CleanAppend(Wire(msgs[..n]), [Sent(msgs[n])]);
      R.CleanSmall(Sent(msgs[n]));
    }
  }

  /**
   However the reader polls and the filter's messages arrive: end of file without an error means
   that the filter wrote, and that the bytes read are the whole compressed envelope. If it wrote,
   no polling meets an error.
   */
  lemma AnyPollingDelivers(cfg: Config, events: seq<Event>, ops: seq<R.Op>)
    requires cfg.Valid() && Run(cfg, events).Some? && Run(cfg, events).value.filter.pc.FilterDone?
    requires R.ApplyAll(ops).sent == Wire(Offered(cfg, events))
    ensures var s := R.ApplyAll(ops);
            s.eof && !s.failed ==>
              && Run(cfg, events).value.filter.pc.result == Written
              && s.delivered == cfg.codec.Gzip(Envelope(Kept(cfg.plan.records, cfg.evaluate)))
    ensures Run(cfg, events).value.filter.pc.result == Written ==> !R.ApplyAll(ops).failed
  {
    hide Run, Payload, Kept, Join, R.Clean, R.DataOf, R.ApplyAll, Wire;
    OfferedIsEnvelope(cfg, events);
    WireCarries(Offered(cfg, events));
    R.EofMeansEverything(ops);
  }

  /**
   The upload loop over the filter's messages, any number of them queued before it starts: it
   commits the compressed envelope if the filter wrote, and changes no object otherwise.
   */
  method UploadMessages(
      store: R.InMemoryStore, bucket: string, key: string, cfg: Config, ghost events: seq<Event>,
      msgs: seq<OutMsg>, early: nat)
      returns (ok: bool)
    requires cfg.Valid() && Run(cfg, events).Some? && Run(cfg, events).value.filter.pc.FilterDone?
    requires msgs == Offered(cfg, events) && early <= |msgs|
    modifies store
    ensures ok <==> Run(cfg, events).value.filter.pc.result == Written
    ensures store.objects ==
            if ok then old(store.objects)[(bucket, key) := cfg.codec.Gzip(Envelope(Kept(cfg.plan.records, cfg.evaluate)))]
            else old(store.objects)
  {
    hide Run, Payload, Kept, Join, R.Clean, R.DataOf, Envelope;
    var wire := Wire(msgs);
    var reader := new R.ChannelAsyncRead();
    for i := 0 to early
      invariant reader.View() == R.Channel([], wire[..i], true) && fresh(reader)
      invariant store.objects == old(store.objects)
    {
      assert wire[..i + 1] == wire[..i] + [wire[i]];
      reader.Arrive(wire[i]);
    }
    assert wire[..early] + wire[early..] == wire;
    OfferedIsEnvelope(cfg, events);
    WireCarries(msgs);
    ok := store.PutStream(bucket, key, reader, wire[early..]);
  }
}
