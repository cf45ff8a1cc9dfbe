/**
 What every reachable state of the streaming filter keeps: where each input chunk, record and
 output byte is, and when the destination may change.
 */
module StreamSafety {
  import opened Wrappers
  import opened Tally
  import opened Codecs
  import opened Envelopes
  import opened Records
  import opened Stream

  // ----- What the queues hold -----

  function Chunks(q: seq<InMsg>): seq<Bytes> {
    if q == [] then []
    else Chunks(q[..|q| - 1]) + (match q[|q| - 1] case Chunk(data) => [data] case ReadError => [])
  }

  lemma {:induction false} ChunksPop(q: seq<InMsg>)
    requires q != []
    ensures Chunks(q) == (match q[0] case Chunk(data) => [data] case ReadError => []) + Chunks(q[1..])
  {
    if |q| > 1 {
      ChunksPop(q[..|q| - 1]);
      assert q[..|q| - 1][1..] == q[1..][..|q| - 2];
    }
  }

  function Texts(q: seq<RecMsg>): seq<string> {
    if q == [] then []
    else Texts(q[..|q| - 1]) + (match q[|q| - 1] case Record(text) => [text] case Finished(_) => [])
  }

  lemma {:induction false} TextsPop(q: seq<RecMsg>)
    requires q != []
    ensures Texts(q) == (match q[0] case Record(text) => [text] case Finished(_) => []) + Texts(q[1..])
  {
    if |q| > 1 {
      TextsPop(q[..|q| - 1]);
      assert q[..|q| - 1][1..] == q[1..][..|q| - 2];
    }
  }

  function Payload(q: seq<OutMsg>): Bytes {
    if q == [] then []
    else Payload(q[..|q| - 1]) + (match q[|q| - 1] case Data(data) => data case Abort => [])
  }

  lemma {:induction false} PayloadPop(q: seq<OutMsg>)
    requires q != []
    ensures Payload(q) == (match q[0] case Data(data) => data case Abort => []) + Payload(q[1..])
  {
    if |q| > 1 {
      PayloadPop(q[..|q| - 1]);
      assert q[..|q| - 1][1..] == q[1..][..|q| - 2];
    }
  }

  lemma PayloadPush(q: seq<OutMsg>, msg: OutMsg)
    ensures Payload(q + [msg]) == Payload(q) + (match msg case Data(data) => data case Abort => [])
  {
    assert (q + [msg])[..|q|] == q;
  }

  // ----- Input: no chunk is lost, and end of file is genuine -----

  function Held(pump: PumpPc): seq<Bytes> {
    if pump.Sending? && pump.msg.Chunk? then [pump.msg.data] else []
  }

  /** Every chunk is consumed, queued, held by the pump, or unread; all are in order. */
  predicate ChunksPlaced(cfg: Config, s: State) {
    ExtractorGone(s) || s.extractor.consumed + Chunks(s.inQ) + Held(s.pump.pc) + s.pump.unread == cfg.chunks
  }

  /** End of file is seen only after the whole source was consumed. */
  predicate EofGenuine(cfg: Config, s: State) {
    && (s.extractor.eofSeen ==> s.extractor.consumed == cfg.chunks && !cfg.readFails && s.pump.pc == PumpDone && s.pump.unread == [])
    && (s.extractor.eofSeen ==> s.extractor.pc != Receiving)
  }

  /** A read failure is reported only if there is one, and is not forgotten. */
  predicate ErrorKept(cfg: Config, s: State) {
    && (s.pump.pc == Sending(ReadError) ==> cfg.readFails && s.pump.unread == [])
    && (!ExtractorGone(s) && s.pump.pc == PumpDone ==> s.pump.unread == [] && (cfg.readFails ==> ErrorAhead(s)))
    && (ReadError in s.inQ ==> cfg.readFails && s.pump.pc == PumpDone && s.pump.unread == [])
    && (forall i :: 0 <= i < |s.inQ| - 1 ==> s.inQ[i].Chunk?)
  }

  /** The read failure is queued, or being reported. */
  predicate ErrorAhead(s: State) {
    s.extractor.pc == Finishing(TransportFailure) || (s.inQ != [] && s.inQ[|s.inQ| - 1] == ReadError)
  }

  predicate BytesCounted(cfg: Config, s: State) {
    s.pump.bytesIn + |Concat(s.pump.unread)| == |Concat(cfg.chunks)|
  }

  /** A malformed source is not received beyond the point where it must have told. */
  predicate StopsInTime(cfg: Config, s: State) {
    s.extractor.pc == Receiving && cfg.plan.verdict == Malformed ==> Received(s.extractor) < cfg.window.latest
  }

  predicate InputOk(cfg: Config, s: State) {
    ChunksPlaced(cfg, s) && EofGenuine(cfg, s) && ErrorKept(cfg, s) && BytesCounted(cfg, s) && StopsInTime(cfg, s)
  }

  /** The read failure is met only behind every chunk delivered. */
  lemma ErrorComesLast(cfg: Config, s: State)
    requires ChunksPlaced(cfg, s) && ErrorKept(cfg, s) && s.extractor.pc == Receiving && s.inQ != [] && s.inQ[0] == ReadError
    ensures s.extractor.consumed == cfg.chunks
  {
    assert s.inQ[0] in s.inQ;
    assert |s.inQ| == 1 && Chunks(s.inQ) == [];
  }

  lemma {:induction false} ConcatPrefix(a: seq<Bytes>, b: seq<Bytes>)
    ensures |Concat(a)| <= |Concat(a + b)|
  {
    if a == [] {
      assert a + b == b;
    } else {
      assert (a + b)[1..] == a[1..] + b;
      ConcatPrefix(a[1..], b);
    }
  }

  /** What has been received was delivered. */
  lemma ReceivedWithin(cfg: Config, s: State)
    requires ChunksPlaced(cfg, s) && !ExtractorGone(s)
    ensures Received(s.extractor) <= |Concat(cfg.chunks)|
  {
    hide Concat, Chunks;
    var rest := Chunks(s.inQ) + Held(s.pump.pc) + s.pump.unread;
    assert s.extractor.consumed + rest == cfg.chunks;
    ConcatPrefix(s.extractor.consumed, rest);
  }

  lemma PumpPlaces(cfg: Config, s: State)
    requires ChunksPlaced(cfg, s) && PumpNext(cfg, s).Some?
    ensures ChunksPlaced(cfg, PumpNext(cfg, s).value)
  {
    hide Concat, Join;
    if s.pump.pc == Reading && s.pump.unread != [] {
      assert s.pump.unread == [s.pump.unread[0]] + s.pump.unread[1..];
    }
    if s.pump.pc.Sending? {
      assert (s.inQ + [s.pump.pc.msg])[..|s.inQ|] == s.inQ;
    }
  }

  lemma InputPump(cfg: Config, s: State)
    requires InputOk(cfg, s) && PumpNext(cfg, s).Some?
    ensures InputOk(cfg, PumpNext(cfg, s).value)
  {
    hide Chunks, Join, ChunksPlaced;
    PumpPlaces(cfg, s);
  }

  lemma ReceiveKeepsError(cfg: Config, s: State)
    requires ErrorKept(cfg, s) && s.extractor.pc == Receiving && ExtractNext(cfg, s).Some?
    ensures ErrorKept(cfg, ExtractNext(cfg, s).value)
  {
    hide Chunks, Concat, Join;
    var t := ExtractNext(cfg, s).value;
    if s.inQ != [] {
      assert forall msg :: msg in t.inQ ==> msg in s.inQ;
      assert s.inQ[0] in s.inQ;
    }
  }

  lemma ReceivePlaces(cfg: Config, s: State)
    requires ChunksPlaced(cfg, s) && s.extractor.pc == Receiving && ExtractNext(cfg, s).Some?
    ensures ChunksPlaced(cfg, ExtractNext(cfg, s).value)
  {
    hide Chunks, Concat, Join;
    if s.inQ != [] {
      ChunksPop(s.inQ);
    }
  }

  /** The extractor sees end of file only once every chunk went through its hands. */
  lemma ReceiveSeesEof(cfg: Config, s: State)
    requires InputOk(cfg, s) && s.extractor.pc == Receiving && s.inQ == [] && s.pump.pc == PumpDone
    ensures s.extractor.consumed == cfg.chunks && s.pump.unread == [] && !cfg.readFails
  {
    hide Concat, Join;
  }

  lemma InputReceive(cfg: Config, s: State)
    requires InputOk(cfg, s) && s.extractor.pc == Receiving && ExtractNext(cfg, s).Some?
    ensures InputOk(cfg, ExtractNext(cfg, s).value)
  {
    hide Chunks, Concat, Join, ErrorKept, ChunksPlaced;
    ReceiveKeepsError(cfg, s);
    ReceivePlaces(cfg, s);
    if s.inQ == [] {
      ReceiveSeesEof(cfg, s);
    }
  }

  lemma InputSend(cfg: Config, s: State)
    requires InputOk(cfg, s) && s.extractor.pc != Receiving && ExtractNext(cfg, s).Some?
    ensures InputOk(cfg, ExtractNext(cfg, s).value)
  {
    hide Chunks, Concat, Join;
  }

  // ----- Records: none lost, none invented, and the end is reported once -----

  predicate Live(filter: FilterPc) {
    filter.Starting? || filter.Awaiting? || filter.Flushing?
  }

  /** When a call may report that its source does not parse: it was read to its end, or far enough to tell. */
  predicate MayMisparse(cfg: Config) {
    cfg.plan.verdict == Malformed && (cfg.readFails ==> cfg.window.soonest <= |Concat(cfg.chunks)|)
  }

  /** When it may report that its source was not read: a malformed one need not have told by then. */
  predicate MayMisread(cfg: Config) {
    cfg.readFails && (cfg.plan.verdict == Malformed ==> |Concat(cfg.chunks)| < cfg.window.latest)
  }

  /** How a finish report is justified. */
  predicate KindOk(cfg: Config, s: State, kind: FinishKind) {
    match kind
    case RecordsFound => cfg.plan.verdict == Found && s.extractor.eofSeen && s.extractor.emitted == |cfg.plan.records|
    case NoRecords => cfg.plan.verdict == Unrecognized && s.extractor.eofSeen && s.extractor.emitted == |cfg.plan.records|
    case ParseFailure => MayMisparse(cfg)
    case TransportFailure => MayMisread(cfg)
  }

  predicate Exhausted(s: State) {
    s.extractor.pc == ExtractDone && s.extractor.eofSeen
  }

  predicate ResultOk(cfg: Config, s: State, result: FilterResult) {
    match result
    case Written => Exhausted(s) && cfg.plan.verdict == Found && s.filter.processed == cfg.plan.records
    case NothingKept => Exhausted(s) && cfg.plan.verdict == Found && s.filter.processed == cfg.plan.records
    case Skipped => Exhausted(s) && cfg.plan.verdict == Unrecognized
    case Failed(error) =>
      match error
      case Unparsable => MayMisparse(cfg) && s.extractor.pc == ExtractDone
      case SourceUnread => MayMisread(cfg) && s.extractor.pc == ExtractDone
      case Internal => s.faulty
      case UploadFailed => false
  }

  predicate EmitsInOrder(cfg: Config, s: State) {
    && s.extractor.emitted <= |cfg.plan.records|
    && (s.extractor.pc.Emitting? ==>
          s.extractor.emitted < |cfg.plan.records| && s.extractor.pc.text == cfg.plan.records[s.extractor.emitted])
  }

  /** Every emitted record is processed or queued; all are in order. */
  predicate RecordsPlaced(cfg: Config, s: State) {
    Live(s.filter.pc) ==>
      s.extractor.emitted <= |cfg.plan.records| &&
      s.filter.processed + Texts(s.recQ) == cfg.plan.records[..s.extractor.emitted]
  }

  predicate Ended(q: seq<RecMsg>) {
    q != [] && q[|q| - 1].Finished?
  }

  predicate EndsLast(q: seq<RecMsg>) {
    forall i :: 0 <= i < |q| - 1 ==> q[i].Record?
  }

  /** The finish report comes last, once, and is justified. */
  predicate FinishLast(cfg: Config, s: State) {
    && (s.extractor.pc.Finishing? && !s.filter.pc.FilterDone? ==> KindOk(cfg, s, s.extractor.pc.kind))
    && (Live(s.filter.pc) && s.extractor.pc == ExtractDone ==> Ended(s.recQ))
    && (Ended(s.recQ) ==> s.extractor.pc == ExtractDone && KindOk(cfg, s, s.recQ[|s.recQ| - 1].kind))
    && EndsLast(s.recQ)
  }

  predicate ResultsOk(cfg: Config, s: State) {
    && (s.filter.pc.Ending? || s.filter.pc.FilterDone? ==> ResultOk(cfg, s, s.filter.pc.result))
    && (s.extractor.pc == ExtractDied ==> s.faulty)
  }

  predicate RecordsOk(cfg: Config, s: State) {
    EmitsInOrder(cfg, s) && RecordsPlaced(cfg, s) && FinishLast(cfg, s) && ResultsOk(cfg, s)
  }

  lemma RecordsChoose(cfg: Config, s: State, choice: Choice)
    requires RecordsOk(cfg, s) && InputOk(cfg, s) && ExtractChooseNext(cfg, s, choice).Some?
    ensures RecordsOk(cfg, ExtractChooseNext(cfg, s, choice).value)
  {
    hide Texts, Join, Concat, Chunks;
    ReceivedWithin(cfg, s);
  }

  lemma EmitPlaces(cfg: Config, s: State)
    requires EmitsInOrder(cfg, s) && RecordsPlaced(cfg, s) && s.extractor.pc.Emitting? && ExtractNext(cfg, s).Some?
    ensures RecordsPlaced(cfg, ExtractNext(cfg, s).value)
  {
    hide Chunks, Concat, Join;
    var t := ExtractNext(cfg, s).value;
    if t.recQ != s.recQ {
      assert t.recQ[..|t.recQ| - 1] == s.recQ;
      assert cfg.plan.records[..t.extractor.emitted] == cfg.plan.records[..s.extractor.emitted] + [s.extractor.pc.text];
      assert Texts(t.recQ) == Texts(s.recQ) + [s.extractor.pc.text];
    }
  }

  lemma SendPlaces(cfg: Config, s: State)
    requires EmitsInOrder(cfg, s) && RecordsPlaced(cfg, s) && ExtractNext(cfg, s).Some?
    ensures EmitsInOrder(cfg, ExtractNext(cfg, s).value) && RecordsPlaced(cfg, ExtractNext(cfg, s).value)
  {
    hide Chunks, Concat, Join, Texts;
    if s.extractor.pc.Emitting? {
      EmitPlaces(cfg, s);
    } else if s.extractor.pc.Finishing? {
      FinishHasNoText(s.recQ, s.extractor.pc.kind);
    }
  }

  lemma FinishHasNoText(q: seq<RecMsg>, kind: FinishKind)
    ensures Texts(q + [Finished(kind)]) == Texts(q)
  {
    assert (q + [Finished(kind)])[..|q|] == q;
  }

  lemma PushFinishes(q: seq<RecMsg>, msg: RecMsg)
    requires EndsLast(q) && !Ended(q)
    ensures EndsLast(q + [msg]) && (Ended(q + [msg]) <==> msg.Finished?)
  {
  }

  lemma ReceiveFinishes(cfg: Config, s: State)
    requires FinishLast(cfg, s) && InputOk(cfg, s) && s.extractor.pc == Receiving && ExtractNext(cfg, s).Some?
    ensures FinishLast(cfg, ExtractNext(cfg, s).value)
  {
    hide Chunks, Concat, Join, Texts, EndsLast;
    if s.inQ != [] {
      assert s.inQ[0] in s.inQ;
      if s.inQ[0] == ReadError {
        ErrorComesLast(cfg, s);
      }
    }
  }

  lemma EmitFinishes(cfg: Config, s: State)
    requires FinishLast(cfg, s) && s.extractor.pc.Emitting? && ExtractNext(cfg, s).Some?
    ensures FinishLast(cfg, ExtractNext(cfg, s).value)
  {
    hide Chunks, Concat, Join, Texts, EndsLast;
    PushFinishes(s.recQ, Record(s.extractor.pc.text));
  }

  lemma ReportFinishes(cfg: Config, s: State)
    requires FinishLast(cfg, s) && s.extractor.pc.Finishing? && ExtractNext(cfg, s).Some?
    ensures FinishLast(cfg, ExtractNext(cfg, s).value)
  {
    hide Chunks, Concat, Join, Texts, EndsLast;
    PushFinishes(s.recQ, Finished(s.extractor.pc.kind));
  }

  lemma RecordsExtract(cfg: Config, s: State)
    requires RecordsOk(cfg, s) && InputOk(cfg, s) && ExtractNext(cfg, s).Some?
    ensures RecordsOk(cfg, ExtractNext(cfg, s).value)
  {
    hide Chunks, Concat, Join, Texts, RecordsPlaced, FinishLast, EmitsInOrder;
    SendPlaces(cfg, s);
    match s.extractor.pc
    case Receiving => ReceiveFinishes(cfg, s);
    case Emitting(_) => EmitFinishes(cfg, s);
    case Finishing(_) => ReportFinishes(cfg, s);
  }

  lemma PopFinishes(q: seq<RecMsg>)
    requires q != [] && EndsLast(q)
    ensures EndsLast(q[1..]) && (q[0].Finished? ==> |q| == 1) && (Ended(q[1..]) <==> Ended(q) && |q| > 1)
  {
  }

  lemma RecordKeepsRecords(cfg: Config, s: State, encoderOk: bool, drainTo: Option<nat>)
    requires RecordsOk(cfg, s) && s.filter.pc == Awaiting && s.recQ != [] && s.recQ[0].Record?
    requires FilterNext(cfg, s, encoderOk, drainTo).Some?
    ensures RecordsOk(cfg, FilterNext(cfg, s, encoderOk, drainTo).value)
  {
    hide Chunks, Concat, Join, Texts, EndsLast, Count, Survives, Get;
    PopFinishes(s.recQ);
    TextsPop(s.recQ);
  }

  lemma FinishKeepsRecords(cfg: Config, s: State, encoderOk: bool, drainTo: Option<nat>)
    requires RecordsOk(cfg, s) && s.filter.pc == Awaiting && s.recQ != [] && s.recQ[0].Finished?
    requires FilterNext(cfg, s, encoderOk, drainTo).Some?
    ensures RecordsOk(cfg, FilterNext(cfg, s, encoderOk, drainTo).value)
  {
    hide Chunks, Concat, Join, EndsLast, Count, Survives, Get;
    PopFinishes(s.recQ);
    assert Texts(s.recQ) == [];
    assert cfg.plan.records[..|cfg.plan.records|] == cfg.plan.records;
  }

  lemma StartKeepsRecords(cfg: Config, s: State, encoderOk: bool, drainTo: Option<nat>)
    requires RecordsOk(cfg, s) && FilterNext(cfg, s, encoderOk, drainTo).Some?
    requires s.filter.pc.Starting? || (s.filter.pc == Awaiting && s.recQ == [])
    ensures RecordsOk(cfg, FilterNext(cfg, s, encoderOk, drainTo).value)
  {
    hide Chunks, Concat, Texts, OnMessage;
  }

  lemma SendKeepsRecords(cfg: Config, s: State, encoderOk: bool, drainTo: Option<nat>)
    requires RecordsOk(cfg, s) && FilterNext(cfg, s, encoderOk, drainTo).Some?
    requires s.filter.pc.Flushing? || s.filter.pc.Ending?
    ensures RecordsOk(cfg, FilterNext(cfg, s, encoderOk, drainTo).value)
  {
    hide Chunks, Concat, Texts, OnMessage;
  }

  lemma FilterKeepsRecords(cfg: Config, s: State, encoderOk: bool, drainTo: Option<nat>)
    requires RecordsOk(cfg, s) && FilterNext(cfg, s, encoderOk, drainTo).Some?
    ensures RecordsOk(cfg, FilterNext(cfg, s, encoderOk, drainTo).value)
  {
    hide RecordsOk, OnMessage;
    if s.filter.pc == Awaiting && s.recQ != [] {
      match s.recQ[0]
      case Record(_) => RecordKeepsRecords(cfg, s, encoderOk, drainTo);
      case Finished(_) => FinishKeepsRecords(cfg, s, encoderOk, drainTo);
    } else if s.filter.pc.Flushing? || s.filter.pc.Ending? {
      SendKeepsRecords(cfg, s, encoderOk, drainTo);
    } else {
      StartKeepsRecords(cfg, s, encoderOk, drainTo);
    }
  }

  // ----- Encoder: the text fed, the tally and the byte count follow the processed records -----

  predicate EncoderOk(cfg: Config, f: Filter) {
    var kept := Kept(f.processed, cfg.evaluate);
    match f.pc
    case Starting => f == Filter(Starting, [], "", true, 0, ZERO, 0)
    case Awaiting => Feeding(cfg, f)
    case Flushing(_) => Feeding(cfg, f)
    case Ending(_, result) => Finishes(cfg, f, result)
    case FilterDone(result) => Finishes(cfg, f, result)
  }

  predicate Tallied(cfg: Config, f: Filter) {
    f.tally == CountAll(Verdicts(f.processed, cfg.evaluate))
  }

  predicate Feeding(cfg: Config, f: Filter) {
    var kept := Kept(f.processed, cfg.evaluate);
    Tallied(cfg, f) && f.fed == Body(kept) && (f.first <==> kept == []) &&
    f.drained <= |cfg.codec.partial(f.fed)| && f.bytesOut == f.drained
  }

  predicate Finishes(cfg: Config, f: Filter, result: FilterResult) {
    var kept := Kept(f.processed, cfg.evaluate);
    match result
    case Written => Tallied(cfg, f) && kept != [] && f.fed == Envelope(kept) && f.bytesOut == |cfg.codec.Gzip(f.fed)|
    case NothingKept => Tallied(cfg, f) && kept == []
    case _ => true
  }

  lemma EncoderRecord(cfg: Config, f: Filter, text: string, encoderOk: bool, drainTo: Option<nat>)
    requires cfg.Valid() && f.pc == Awaiting && Feeding(cfg, f) && OnRecord(cfg, f, text, encoderOk, drainTo).Some?
    ensures EncoderOk(cfg, OnRecord(cfg, f, text, encoderOk, drainTo).value)
    ensures cfg.codec.partial(f.fed) <= cfg.codec.partial(Fed(f, text, Survives(cfg.evaluate(text))))
  {
    hide Count, Survives, Join, Kept, CountAll, Verdicts;
    var kept := Kept(f.processed, cfg.evaluate);
    KeptSnoc(f.processed, cfg.evaluate, text);
    var more := (if f.first then "" else ",") + text;
    assert cfg.codec.partial(f.fed) <= cfg.codec.partial(f.fed + more);
    if Survives(cfg.evaluate(text)) {
      JoinSnoc(kept, ",", text);
      NothingYet(cfg.evaluate);
      assert f.fed + more == Body(kept + [text]) == Fed(f, text, true);
    } else {
      assert kept + [] == kept;
    }
  }

  lemma EncoderFinished(cfg: Config, f: Filter, kind: FinishKind, encoderOk: bool)
    requires cfg.Valid() && f.pc == Awaiting && Feeding(cfg, f)
    ensures EncoderOk(cfg, OnFinished(cfg, f, kind, encoderOk))
    ensures cfg.codec.partial(f.fed) <= cfg.codec.partial(f.fed + CLOSE)
  {
    hide Count, Survives, Join, Kept, CountAll, Verdicts;
    KeptCount(f.processed, cfg.evaluate);
  }

  lemma EncoderFilter(cfg: Config, s: State, encoderOk: bool, drainTo: Option<nat>)
    requires cfg.Valid() && EncoderOk(cfg, s.filter) && FilterNext(cfg, s, encoderOk, drainTo).Some?
    ensures EncoderOk(cfg, FilterNext(cfg, s, encoderOk, drainTo).value.filter)
  {
    hide Count, Survives, Join, CountAll, Verdicts, OnRecord, OnFinished;
    match s.filter.pc
    case Starting => NothingYet(cfg.evaluate);
    case Awaiting =>
      if s.recQ != [] {
        match s.recQ[0]
        case Record(text) => EncoderRecord(cfg, s.filter, text, encoderOk, drainTo);
        case Finished(kind) => EncoderFinished(cfg, s.filter, kind, encoderOk);
      }
    case _ =>
  }

  // ----- Output: what the store has read, what is on the way, and when it may commit -----

  /** What has been read, is queued and is held makes up `target`, and nothing fails the reader. */
  predicate Shipping(received: Bytes, q: seq<OutMsg>, held: Bytes, target: Bytes) {
    received + Payload(q) + held == target && Abort !in q
  }

  lemma ShipPush(received: Bytes, q: seq<OutMsg>, data: Bytes, target: Bytes)
    requires Shipping(received, q, data, target)
    ensures Shipping(received, q + [Data(data)], [], target)
  {
    PayloadPush(q, Data(data));
  }

  lemma ShipPop(received: Bytes, q: seq<OutMsg>, held: Bytes, target: Bytes)
    requires Shipping(received, q, held, target) && q != []
    ensures q[0].Data? && Shipping(received + q[0].data, q[1..], held, target)
  {
    PayloadPop(q);
    assert q[0] in q;
    assert forall msg :: msg in q[1..] ==> msg in q;
  }

  /** What the filter holds back from the output queue. */
  function Holding(pc: FilterPc): Bytes {
    match pc
    case Flushing(chunk) => chunk
    case Ending(msgs, _) => if msgs != [] && msgs[0].Data? then msgs[0].data else []
    case _ => []
  }

  function Target(cfg: Config, f: Filter): Bytes
    requires Live(f.pc) ==> f.drained <= |cfg.codec.partial(f.fed)|
  {
    if Live(f.pc) then cfg.codec.partial(f.fed)[..f.drained] else cfg.codec.Gzip(f.fed)
  }

  predicate Intact(pc: FilterPc) {
    Live(pc) || ((pc.Ending? || pc.FilterDone?) && pc.result == Written)
  }

  predicate Shape(pc: FilterPc) {
    pc.Ending? ==>
      if pc.result == Written then pc.msgs == [] || (|pc.msgs| == 1 && pc.msgs[0].Data?)
      else pc.msgs == [] || pc.msgs == [Abort]
  }

  predicate OutputOk(cfg: Config, s: State) {
    && Shape(s.filter.pc)
    && (Live(s.filter.pc) ==> s.filter.drained <= |cfg.codec.partial(s.filter.fed)|)
    && (s.upload.pc == Uploading ==>
          if Intact(s.filter.pc) then Shipping(s.upload.received, s.outQ, Holding(s.filter.pc), Target(cfg, s.filter))
          else Abort in s.outQ || (s.filter.pc.Ending? && s.filter.pc.msgs == [Abort]))
    && (s.upload.pc == UploadDone(true) ==>
          s.filter.pc == FilterDone(Written) && s.upload.dest == Some(cfg.codec.Gzip(s.filter.fed)))
    && (s.upload.pc != UploadDone(true) ==> s.upload.dest == cfg.before)
    && (s.upload.pc == UploadDone(false) ==> s.faulty || !Intact(s.filter.pc))
  }

  lemma PrefixTakes<T>(a: seq<T>, b: seq<T>, n: nat)
    requires a <= b && n <= |a|
    ensures a[..n] == b[..n]
  {
  }

  /** Draining moves bytes from the encoder's sink to the filter's hands; nothing else leaves the sink. */
  lemma DrainAdds(cfg: Config, f: Filter, text: string, encoderOk: bool, drainTo: Option<nat>)
    requires cfg.Valid() && f.pc == Awaiting && Feeding(cfg, f) && OnRecord(cfg, f, text, encoderOk, drainTo).Some?
    ensures var g := OnRecord(cfg, f, text, encoderOk, drainTo).value;
            && Shape(g.pc) && (Live(g.pc) ==> g.drained <= |cfg.codec.partial(g.fed)|)
            && if Intact(g.pc) then Live(g.pc) && Target(cfg, g) == Target(cfg, f) + Holding(g.pc)
               else g.pc.Ending? && g.pc.msgs == [Abort]
  {
    hide Count, Survives, Join, Kept, CountAll, Verdicts;
    EncoderRecord(cfg, f, text, encoderOk, drainTo);
    var g := OnRecord(cfg, f, text, encoderOk, drainTo).value;
    if Live(g.pc) {
      PrefixTakes(cfg.codec.partial(f.fed), cfg.codec.partial(g.fed), f.drained);
      assert g.pc.Flushing? ==>
          cfg.codec.partial(g.fed)[..g.drained] == cfg.codec.partial(g.fed)[..f.drained] + cfg.codec.partial(g.fed)[f.drained..g.drained];
    }
  }

  lemma OutputRecord(cfg: Config, s: State, encoderOk: bool, drainTo: Option<nat>)
    requires cfg.Valid() && EncoderOk(cfg, s.filter) && OutputOk(cfg, s)
    requires s.filter.pc == Awaiting && s.recQ != [] && s.recQ[0].Record? && FilterNext(cfg, s, encoderOk, drainTo).Some?
    ensures OutputOk(cfg, FilterNext(cfg, s, encoderOk, drainTo).value)
  {
    hide Payload, OnRecord, Feeding, Shape, Intact, Holding, Target;
    DrainAdds(cfg, s.filter, s.recQ[0].text, encoderOk, drainTo);
    NotYetEnding(s.filter);
    ShipMore(cfg, s, OnRecord(cfg, s.filter, s.recQ[0].text, encoderOk, drainTo).value);
  }

  lemma TailCompletes(codec: Codec, fed: string, drained: nat)
    requires drained <= |codec.partial(fed)| && codec.partial(fed) <= codec.partial(fed + CLOSE)
    ensures var full := codec.Gzip(fed + CLOSE);
            drained <= |full| && full == codec.partial(fed)[..drained] + full[drained..]
  {
    var full := codec.Gzip(fed + CLOSE);
    assert codec.partial(fed) <= full;
    PrefixTakes(codec.partial(fed), full, drained);
    assert full == full[..drained] + full[drained..];
  }

  /** Finishing the encoder adds exactly what had not been let out. */
  lemma FinishAdds(cfg: Config, f: Filter, kind: FinishKind, encoderOk: bool)
    requires cfg.Valid() && f.pc == Awaiting && Feeding(cfg, f)
    ensures var g := OnFinished(cfg, f, kind, encoderOk);
            Shape(g.pc) && g.pc.Ending? &&
            if Intact(g.pc) then Target(cfg, g) == Target(cfg, f) + Holding(g.pc) else g.pc.msgs == [Abort]
  {
    hide Count, Survives, Join, Kept, CountAll, Verdicts;
    EncoderFinished(cfg, f, kind, encoderOk);
    hide EncoderOk, Codec.Streams, Body, Envelope;
    TailCompletes(cfg.codec, f.fed, f.drained);
  }

  lemma OutputFinished(cfg: Config, s: State, encoderOk: bool, drainTo: Option<nat>)
    requires cfg.Valid() && EncoderOk(cfg, s.filter) && OutputOk(cfg, s)
    requires s.filter.pc == Awaiting && s.recQ != [] && s.recQ[0].Finished? && FilterNext(cfg, s, encoderOk, drainTo).Some?
    ensures OutputOk(cfg, FilterNext(cfg, s, encoderOk, drainTo).value)
  {
    hide OnFinished, Shape, Intact, Holding, Target, Payload, Feeding;
    FinishAdds(cfg, s.filter, s.recQ[0].kind, encoderOk);
    NotYetEnding(s.filter);
    ShipMore(cfg, s, OnFinished(cfg, s.filter, s.recQ[0].kind, encoderOk));
  }

  lemma NotYetEnding(f: Filter)
    requires f.pc == Awaiting
    ensures Intact(f.pc) && Holding(f.pc) == []
  {
  }

  lemma ShipMore(cfg: Config, s: State, g: Filter)
    requires OutputOk(cfg, s) && s.filter.pc == Awaiting && (Live(g.pc) ==> g.drained <= |cfg.codec.partial(g.fed)|)
    requires Intact(g.pc) ==> Target(cfg, g) == Target(cfg, s.filter) + Holding(g.pc)
    ensures Intact(g.pc) && s.upload.pc == Uploading ==> Shipping(s.upload.received, s.outQ, Holding(g.pc), Target(cfg, g))
  {
    hide Payload;
  }

  lemma OutputStart(cfg: Config, s: State, encoderOk: bool, drainTo: Option<nat>)
    requires OutputOk(cfg, s) && s.filter.pc.Starting? && EncoderOk(cfg, s.filter)
    requires FilterNext(cfg, s, encoderOk, drainTo).Some?
    ensures OutputOk(cfg, FilterNext(cfg, s, encoderOk, drainTo).value)
  {
    hide Payload, Kept, CountAll, Verdicts;
    assert cfg.codec.partial("")[..0] == cfg.codec.partial(OPEN)[..0];
  }

  lemma OutputFlush(cfg: Config, s: State, encoderOk: bool, drainTo: Option<nat>)
    requires OutputOk(cfg, s) && s.filter.pc.Flushing? && FilterNext(cfg, s, encoderOk, drainTo).Some?
    ensures OutputOk(cfg, FilterNext(cfg, s, encoderOk, drainTo).value)
  {
    hide Payload, Shipping;
    if s.upload.pc == Uploading {
      ShipPush(s.upload.received, s.outQ, s.filter.pc.chunk, Target(cfg, s.filter));
    }
  }

  lemma OutputEnd(cfg: Config, s: State, encoderOk: bool, drainTo: Option<nat>)
    requires OutputOk(cfg, s) && s.filter.pc.Ending? && FilterNext(cfg, s, encoderOk, drainTo).Some?
    ensures OutputOk(cfg, FilterNext(cfg, s, encoderOk, drainTo).value)
  {
    hide Payload, Shipping;
    var msgs := s.filter.pc.msgs;
    if s.upload.pc == Uploading && msgs != [] && msgs[0].Data? {
      ShipPush(s.upload.received, s.outQ, msgs[0].data, Target(cfg, s.filter));
    }
  }

  lemma OutputSend(cfg: Config, s: State, encoderOk: bool, drainTo: Option<nat>)
    requires OutputOk(cfg, s) && FilterNext(cfg, s, encoderOk, drainTo).Some? && !s.filter.pc.Awaiting?
    requires EncoderOk(cfg, s.filter)
    ensures OutputOk(cfg, FilterNext(cfg, s, encoderOk, drainTo).value)
  {
    hide OutputOk, EncoderOk;
    match s.filter.pc
    case Starting => OutputStart(cfg, s, encoderOk, drainTo);
    case Flushing(_) => OutputFlush(cfg, s, encoderOk, drainTo);
    case Ending(_, _) => OutputEnd(cfg, s, encoderOk, drainTo);
  }

  lemma OutputGone(cfg: Config, s: State, encoderOk: bool, drainTo: Option<nat>)
    requires OutputOk(cfg, s) && s.filter.pc == Awaiting && s.recQ == [] && FilterNext(cfg, s, encoderOk, drainTo).Some?
    ensures OutputOk(cfg, FilterNext(cfg, s, encoderOk, drainTo).value)
  {
    hide Payload;
  }

  /** Whatever the filter does next, what it hands on and what it holds back stay in step. */
  lemma OutputFilter(cfg: Config, s: State, encoderOk: bool, drainTo: Option<nat>)
    requires cfg.Valid() && EncoderOk(cfg, s.filter) && OutputOk(cfg, s) && FilterNext(cfg, s, encoderOk, drainTo).Some?
    ensures OutputOk(cfg, FilterNext(cfg, s, encoderOk, drainTo).value)
  {
    hide EncoderOk, OutputOk, OnMessage, Config.Valid;
    if !s.filter.pc.Awaiting? {
      OutputSend(cfg, s, encoderOk, drainTo);
    } else if s.recQ == [] {
      OutputGone(cfg, s, encoderOk, drainTo);
    } else if s.recQ[0].Record? {
      OutputRecord(cfg, s, encoderOk, drainTo);
    } else {
      OutputFinished(cfg, s, encoderOk, drainTo);
    }
  }

  lemma OutputUpload(cfg: Config, s: State)
    requires OutputOk(cfg, s) && UploadNext(s).Some?
    ensures OutputOk(cfg, UploadNext(s).value)
  {
    hide Count, Survives, Join, Kept, CountAll, Verdicts;
    if s.outQ != [] {
      if Intact(s.filter.pc) {
        ShipPop(s.upload.received, s.outQ, Holding(s.filter.pc), Target(cfg, s.filter));
      } else {
        assert s.outQ == [s.outQ[0]] + s.outQ[1..];
      }
    } else if Intact(s.filter.pc) {
      assert s.upload.received + Payload([]) + [] == s.upload.received;
    }
  }

  // ----- Every reachable state -----

  predicate Invariant(cfg: Config, s: State) {
    InputOk(cfg, s) && RecordsOk(cfg, s) && EncoderOk(cfg, s.filter) && OutputOk(cfg, s)
  }

  lemma InitOk(cfg: Config)
    requires cfg.Valid()
    ensures Invariant(cfg, Init(cfg))
  {
    assert cfg.codec.partial("")[..0] == [];
  }

  lemma InputFrame(cfg: Config, s: State, t: State)
    requires InputOk(cfg, s) && t.pump == s.pump && t.inQ == s.inQ && t.extractor == s.extractor
    ensures InputOk(cfg, t)
  {
    hide Chunks, Concat;
  }

  lemma RecordsFrame(cfg: Config, s: State, t: State)
    requires RecordsOk(cfg, s) && t.extractor == s.extractor && t.recQ == s.recQ && t.filter == s.filter && (s.faulty ==> t.faulty)
    ensures RecordsOk(cfg, t)
  {
    hide Texts, EndsLast;
  }

  lemma OutputFrame(cfg: Config, s: State, t: State)
    requires OutputOk(cfg, s) && t.filter == s.filter && t.outQ == s.outQ && t.upload == s.upload && (s.faulty ==> t.faulty)
    ensures OutputOk(cfg, t)
  {
    hide Payload;
  }

  lemma PumpKeeps(cfg: Config, s: State)
    requires Invariant(cfg, s) && PumpNext(cfg, s).Some?
    ensures Invariant(cfg, PumpNext(cfg, s).value)
  {
    hide InputOk, RecordsOk, EncoderOk, OutputOk;
    InputPump(cfg, s);
    RecordsFrame(cfg, s, PumpNext(cfg, s).value);
    OutputFrame(cfg, s, PumpNext(cfg, s).value);
  }

  lemma InputChoose(cfg: Config, s: State, choice: Choice)
    requires InputOk(cfg, s) && ExtractChooseNext(cfg, s, choice).Some?
    ensures InputOk(cfg, ExtractChooseNext(cfg, s, choice).value)
  {
    hide Chunks, Concat;
  }

  lemma ChooseKeeps(cfg: Config, s: State, choice: Choice)
    requires Invariant(cfg, s) && ExtractChooseNext(cfg, s, choice).Some?
    ensures Invariant(cfg, ExtractChooseNext(cfg, s, choice).value)
  {
    hide InputOk, RecordsOk, EncoderOk, OutputOk;
    InputChoose(cfg, s, choice);
    RecordsChoose(cfg, s, choice);
    OutputFrame(cfg, s, ExtractChooseNext(cfg, s, choice).value);
  }

  lemma ExtractKeeps(cfg: Config, s: State)
    requires Invariant(cfg, s) && ExtractNext(cfg, s).Some?
    ensures Invariant(cfg, ExtractNext(cfg, s).value)
  {
    hide InputOk, RecordsOk, EncoderOk, OutputOk;
    if s.extractor.pc == Receiving {
      InputReceive(cfg, s);
    } else {
      InputSend(cfg, s);
    }
    RecordsExtract(cfg, s);
    OutputFrame(cfg, s, ExtractNext(cfg, s).value);
  }

  lemma FilterKeeps(cfg: Config, s: State, encoderOk: bool, drainTo: Option<nat>)
    requires cfg.Valid() && Invariant(cfg, s) && FilterNext(cfg, s, encoderOk, drainTo).Some?
    ensures Invariant(cfg, FilterNext(cfg, s, encoderOk, drainTo).value)
  {
    hide InputOk, RecordsOk, EncoderOk, OutputOk, OnMessage, Config.Valid;
    InputFrame(cfg, s, FilterNext(cfg, s, encoderOk, drainTo).value);
    FilterKeepsRecords(cfg, s, encoderOk, drainTo);
    EncoderFilter(cfg, s, encoderOk, drainTo);
    OutputFilter(cfg, s, encoderOk, drainTo);
  }

  lemma UploadKeeps(cfg: Config, s: State)
    requires Invariant(cfg, s) && UploadNext(s).Some?
    ensures Invariant(cfg, UploadNext(s).value)
  {
    hide InputOk, RecordsOk, EncoderOk, OutputOk;
    InputFrame(cfg, s, UploadNext(s).value);
    RecordsFrame(cfg, s, UploadNext(s).value);
    OutputUpload(cfg, s);
  }

  lemma FaultKeeps(cfg: Config, s: State, e: Event)
    requires Invariant(cfg, s) && (e == ExtractDie || e == UploadFail) && Next(cfg, s, e).Some?
    ensures Invariant(cfg, Next(cfg, s, e).value)
  {
    hide EncoderOk, Chunks, Concat, Texts, Payload;
  }

  lemma StepKeeps(cfg: Config, s: State, e: Event)
    requires cfg.Valid() && Invariant(cfg, s) && Next(cfg, s, e).Some?
    ensures Invariant(cfg, Next(cfg, s, e).value)
  {
    hide Invariant, PumpNext, ExtractChooseNext, ExtractNext, FilterNext, UploadNext;
    match e
    case PumpStep => PumpKeeps(cfg, s);
    case ExtractChoose(choice) => ChooseKeeps(cfg, s, choice);
    case ExtractStep => ExtractKeeps(cfg, s);
    case FilterStep(encoderOk, drainTo) => FilterKeeps(cfg, s, encoderOk, drainTo);
    case UploadStep => UploadKeeps(cfg, s);
    case ExtractDie => FaultKeeps(cfg, s, e);
    case UploadFail => FaultKeeps(cfg, s, e);
  }

  lemma {:induction false} RunKeeps(cfg: Config, events: seq<Event>)
    requires cfg.Valid() && Run(cfg, events).Some?
    ensures Invariant(cfg, Run(cfg, events).value)
  {
    hide Invariant, Next;
    if events == [] {
      InitOk(cfg);
    } else {
      RunKeeps(cfg, events[..|events| - 1]);
      StepKeeps(cfg, Run(cfg, events[..|events| - 1]).value, events[|events| - 1]);
    }
  }

  lemma ReachedKeeps(cfg: Config, s: State)
    requires cfg.Valid() && Reaches(cfg, s)
    ensures Invariant(cfg, s)
  {
    hide Run, Invariant;
    var events :| Run(cfg, events) == Some(s);
    RunKeeps(cfg, events);
  }

  /**
   The destination changes only by a commit; and a commit happens only when the source was read
   cleanly to its end and every record of a well-formed envelope was processed. It then holds
   the envelope of exactly the kept records, in order, compressed as one member.
   */
  lemma CommitsOnlyComplete(cfg: Config, s: State)
    requires cfg.Valid() && Reaches(cfg, s)
    ensures if s.upload.pc == UploadDone(true) then
              && !cfg.readFails && s.extractor.consumed == cfg.chunks && s.extractor.eofSeen
              && cfg.plan.verdict == Found && s.filter.pc == FilterDone(Written)
              && Kept(cfg.plan.records, cfg.evaluate) != []
              && s.upload.dest == Some(cfg.codec.Gzip(Envelope(Kept(cfg.plan.records, cfg.evaluate))))
            else s.upload.dest == cfg.before
  {
    hide Reaches, Chunks, Concat, Texts, Payload, Join, Kept, CountAll, Verdicts;
    ReachedKeeps(cfg, s);
  }
}
