/**
 The streaming filter as a protocol of four components joined by three bounded channels.

   pump --inQ--> extractor --recQ--> filter loop --outQ--> upload

 Any component may take the next step. `Next` is the transition function; an `Event` names
 the component that moves and settles what the program leaves open: what the extractor does
 next, how much of the encoder's output is drained, and where a failure strikes.

 A dropped endpoint is a finished component: a channel is closed for its reader once the
 writer is done, and a send fails once the reader is done.
 */
module Stream {
  import opened Wrappers
  import opened Engines
  import opened Tally
  import opened Codecs
  import opened Envelopes
  import opened Records

  // ----- The system -----

  /**
   When the extractor finds out that a source is malformed, in bytes of it received: never before
   `soonest`, and with `latest` it asks for no more. Between the two it depends on how the bytes
   come in chunks and how far the decoder reads ahead. The end of the source always tells.
   */
  datatype Window = Window(soonest: nat, latest: nat)

  datatype Config = Config(
    chunks: seq<Bytes>, readFails: bool, plan: Plan, window: Window,
    evaluate: string -> Option<Decision>, codec: Codec,
    inCap: nat, recCap: nat, outCap: nat,
    before: Option<Bytes>)
  {
    ghost predicate Valid() {
      inCap >= 1 && recCap >= 1 && outCap >= 1 && codec.Streams() && window.soonest <= window.latest
    }
  }

  datatype InMsg = Chunk(data: Bytes) | ReadError

  datatype FinishKind = RecordsFound | NoRecords | ParseFailure | TransportFailure

  datatype RecMsg = Record(text: string) | Finished(kind: FinishKind)

  datatype OutMsg = Data(data: Bytes) | Abort

  datatype StreamError = Internal | Unparsable | SourceUnread | UploadFailed

  datatype FilterResult = Written | NothingKept | Skipped | Failed(error: StreamError)

  datatype PumpPc = Reading | Sending(msg: InMsg) | PumpDone

  datatype ExtractPc = Choosing | Receiving | Emitting(text: string) | Finishing(kind: FinishKind) | ExtractDone | ExtractDied

  datatype FilterPc =
    | Starting
    | Awaiting
    | Flushing(chunk: Bytes)
    | Ending(msgs: seq<OutMsg>, result: FilterResult)
    | FilterDone(result: FilterResult)

  datatype UploadPc = Uploading | UploadDone(ok: bool)

  /** Reads the source chunk by chunk; `bytesIn` is what it has counted as read. */
  datatype Pump = Pump(pc: PumpPc, unread: seq<Bytes>, bytesIn: nat)

  /** Takes chunks, and emits the next record of the plan. */
  datatype Extractor = Extractor(pc: ExtractPc, consumed: seq<Bytes>, eofSeen: bool, emitted: nat)

  /** The processing block: `fed` is the text given to the encoder, `drained` how much came out. */
  datatype Filter = Filter(
    pc: FilterPc, processed: seq<string>, fed: string, first: bool, drained: nat, tally: Counts, bytesOut: nat)

  /** The store's side: what it has read, and what the destination holds. */
  datatype Upload = Upload(pc: UploadPc, received: Bytes, dest: Option<Bytes>)

  /** `faulty` records that something died, an encoder write failed, or the store failed by itself. */
  datatype State = State(
    pump: Pump, inQ: seq<InMsg>, extractor: Extractor, recQ: seq<RecMsg>,
    filter: Filter, outQ: seq<OutMsg>, upload: Upload, faulty: bool)

  function Init(cfg: Config): State {
    State(Pump(Reading, cfg.chunks, 0), [], Extractor(Choosing, [], false, 0), [],
          Filter(Starting, [], "", true, 0, ZERO, 0), [], Upload(Uploading, [], cfg.before), false)
  }

  datatype Choice = ChooseReceive | ChooseEmit | ChooseFinish

  datatype Event =
    | PumpStep
    | ExtractChoose(choice: Choice)
    | ExtractStep
    | ExtractDie
    | FilterStep(encoderOk: bool, drainTo: Option<nat>)
    | UploadStep
    | UploadFail

  predicate ExtractorGone(s: State) {
    s.extractor.pc.ExtractDone? || s.extractor.pc.ExtractDied?
  }

  function PumpNext(cfg: Config, s: State): Option<State> {
    var p := s.pump;
    match p.pc
    case Reading =>
      if p.unread != [] then
        Some(s.(pump := Pump(Sending(Chunk(p.unread[0])), p.unread[1..], p.bytesIn + |p.unread[0]|)))
      else if cfg.readFails then Some(s.(pump := p.(pc := Sending(ReadError))))
      else Some(s.(pump := p.(pc := PumpDone)))
    case Sending(msg) =>
      if ExtractorGone(s) then Some(s.(pump := p.(pc := PumpDone)))
      else if |s.inQ| < cfg.inCap then
        Some(s.(inQ := s.inQ + [msg], pump := p.(pc := if msg.ReadError? then PumpDone else Reading)))
      else None
    case PumpDone => None
  }

  /** How a complete extraction of a readable input ends. */
  function PlannedFinish(verdict: Verdict): FinishKind {
    match verdict case Found => RecordsFound case Unrecognized => NoRecords case Malformed => ParseFailure
  }

  function Received(x: Extractor): nat {
    |Concat(x.consumed)|
  }

  /** Enough of a malformed source has been received to find out. */
  predicate MayTell(cfg: Config, x: Extractor) {
    cfg.plan.verdict == Malformed && Received(x) >= cfg.window.soonest
  }

  predicate MayReceive(cfg: Config, x: Extractor) {
    !x.eofSeen && (cfg.plan.verdict == Malformed ==> Received(x) < cfg.window.latest)
  }

  /** The end is reached with the planned records sent: at end of file, or where a malformed source tells. */
  predicate MayFinish(cfg: Config, x: Extractor) {
    x.emitted >= |cfg.plan.records| && (x.eofSeen || MayTell(cfg, x))
  }

  function ExtractChooseNext(cfg: Config, s: State, choice: Choice): Option<State> {
    var x := s.extractor;
    if x.pc != Choosing then None
    else
      match choice
      case ChooseReceive => if MayReceive(cfg, x) then Some(s.(extractor := x.(pc := Receiving))) else None
      case ChooseEmit =>
        if x.emitted < |cfg.plan.records| then
          Some(s.(extractor := x.(pc := Emitting(cfg.plan.records[x.emitted]))))
        else None
      case ChooseFinish =>
        if MayFinish(cfg, x) then Some(s.(extractor := x.(pc := Finishing(PlannedFinish(cfg.plan.verdict))))) else None
  }

  function ExtractNext(cfg: Config, s: State): Option<State> {
    var x := s.extractor;
    match x.pc
    case Receiving =>
      if s.inQ != [] then
        (match s.inQ[0]
         case Chunk(data) =>
           Some(s.(inQ := s.inQ[1..], extractor := x.(consumed := x.consumed + [data], pc := Choosing)))
         case ReadError => Some(s.(inQ := s.inQ[1..], extractor := x.(pc := Finishing(TransportFailure)))))
      else if s.pump.pc.PumpDone? then Some(s.(extractor := x.(eofSeen := true, pc := Choosing)))
      else None
    case Emitting(text) =>
      if s.filter.pc.FilterDone? then Some(s.(extractor := x.(pc := Finishing(ParseFailure))))
      else if |s.recQ| < cfg.recCap then
        Some(s.(recQ := s.recQ + [Record(text)], extractor := x.(emitted := x.emitted + 1, pc := Choosing)))
      else None
    case Finishing(kind) =>
      if s.filter.pc.FilterDone? then Some(s.(inQ := [], extractor := x.(pc := ExtractDone)))
      else if |s.recQ| < cfg.recCap then
        Some(s.(inQ := [], recQ := s.recQ + [Finished(kind)], extractor := x.(pc := ExtractDone)))
      else None
    case _ => None
  }

  /** Ends the filter loop by failing the upload's reader. */
  function Aborting(f: Filter, result: FilterResult): Filter {
    f.(pc := Ending([Abort], result))
  }

  /** Feeding one record: dropped ones leave the encoder alone, kept ones follow a comma. */
  function Fed(f: Filter, text: string, keep: bool): string {
    if keep then f.fed + (if f.first then "" else ",") + text else f.fed
  }

  function OnRecord(cfg: Config, f: Filter, text: string, encoderOk: bool, drainTo: Option<nat>): Option<Filter> {
    var verdict := cfg.evaluate(text);
    var keep := Survives(verdict);
    if keep && !encoderOk then
      Some(Aborting(f, Failed(Internal)).(tally := Count(f.tally, verdict).(kept := f.tally.kept)))
    else
      var fed := Fed(f, text, keep);
      var counted := Filter(f.pc, f.processed + [text], fed, f.first && !keep, f.drained, Count(f.tally, verdict), f.bytesOut);
      match drainTo
      case None => Some(counted)
      case Some(n) =>
        if f.drained < n <= |cfg.codec.partial(fed)| then
          Some(counted.(pc := Flushing(cfg.codec.partial(fed)[f.drained..n]), drained := n, bytesOut := f.bytesOut + (n - f.drained)))
        else None
  }

  function OnFinished(cfg: Config, f: Filter, kind: FinishKind, encoderOk: bool): Filter {
    match kind
    case RecordsFound =>
      if f.tally.kept == 0 then Aborting(f, NothingKept)
      else if !encoderOk then Aborting(f, Failed(Internal))
      else
        var full := cfg.codec.Gzip(f.fed + CLOSE);
        var tail := if f.drained <= |full| then full[f.drained..] else [];
        f.(pc := Ending(if tail == [] then [] else [Data(tail)], Written), fed := f.fed + CLOSE, bytesOut := f.bytesOut + |tail|)
    case NoRecords => Aborting(f, Skipped)
    case ParseFailure => Aborting(f, Failed(Unparsable))
    case TransportFailure => Aborting(f, Failed(SourceUnread))
  }

  /** Where the filter loop goes from a message it has taken. */
  function OnMessage(cfg: Config, f: Filter, msg: RecMsg, encoderOk: bool, drainTo: Option<nat>): Option<Filter> {
    match msg
    case Record(text) => OnRecord(cfg, f, text, encoderOk, drainTo)
    case Finished(kind) => Some(OnFinished(cfg, f, kind, encoderOk))
  }

  function FilterNext(cfg: Config, s: State, encoderOk: bool, drainTo: Option<nat>): Option<State> {
    var f := s.filter;
    match f.pc
    case Starting =>
      if encoderOk then Some(s.(filter := f.(pc := Awaiting, fed := OPEN)))
      else Some(s.(filter := Aborting(f, Failed(Internal)), faulty := true))
    case Awaiting =>
      if s.recQ != [] then
        var after :- OnMessage(cfg, f, s.recQ[0], encoderOk, drainTo);
        Some(s.(recQ := s.recQ[1..], filter := after, faulty := s.faulty || !encoderOk))
      else if ExtractorGone(s) then Some(s.(filter := Aborting(f, Failed(Internal))))
      else None
    case Flushing(chunk) =>
      if s.upload.pc.UploadDone? then Some(s.(filter := f.(pc := Awaiting)))
      else if |s.outQ| < cfg.outCap then Some(s.(outQ := s.outQ + [Data(chunk)], filter := f.(pc := Awaiting)))
      else None
    case Ending(msgs, result) =>
      if msgs == [] then Some(s.(recQ := [], filter := f.(pc := FilterDone(result))))
      else if s.upload.pc.UploadDone? then Some(s.(filter := f.(pc := Ending(msgs[1..], result))))
      else if |s.outQ| < cfg.outCap then
        Some(s.(outQ := s.outQ + [msgs[0]], filter := f.(pc := Ending(msgs[1..], result))))
      else None
    case FilterDone(_) => None
  }

  /** The store's contract: commit on a clean end of file, change nothing on a reader error. */
  function UploadNext(s: State): Option<State> {
    var u := s.upload;
    if u.pc != Uploading then None
    else if s.outQ != [] then
      match s.outQ[0]
      case Data(data) => Some(s.(outQ := s.outQ[1..], upload := u.(received := u.received + data)))
      case Abort => Some(s.(outQ := [], upload := u.(pc := UploadDone(false))))
    else if s.filter.pc.FilterDone? then Some(s.(upload := u.(pc := UploadDone(true), dest := Some(u.received))))
    else None
  }

  function Next(cfg: Config, s: State, e: Event): Option<State> {
    match e
    case PumpStep => PumpNext(cfg, s)
    case ExtractChoose(choice) => ExtractChooseNext(cfg, s, choice)
    case ExtractStep => ExtractNext(cfg, s)
    case ExtractDie =>
      if ExtractorGone(s) then None
      else Some(s.(inQ := [], extractor := s.extractor.(pc := ExtractDied), faulty := true))
    case FilterStep(encoderOk, drainTo) => FilterNext(cfg, s, encoderOk, drainTo)
    case UploadStep => UploadNext(s)
    case UploadFail =>
      if s.upload.pc != Uploading then None
      else Some(s.(outQ := [], upload := s.upload.(pc := UploadDone(false)), faulty := true))
  }

  /** The state after a schedule, if every step of it can be taken. */
  function Run(cfg: Config, events: seq<Event>): Option<State> {
    if events == [] then Some(Init(cfg))
    else
      var s :- Run(cfg, events[..|events| - 1]);
      Next(cfg, s, events[|events| - 1])
  }

  /** Some schedule leads there. */
  ghost predicate Reaches(cfg: Config, s: State) {
    exists events :: Run(cfg, events) == Some(s)
  }

  predicate Final(s: State) {
    s.pump.pc.PumpDone? && ExtractorGone(s) && s.filter.pc.FilterDone? && s.upload.pc.UploadDone?
  }
}
