/**
 Objects in flight together: at most `n` at a time, begun and taken in submission order, their
 counter updates and writes interleaved in any way. The batch's outcome does not depend on it.
 */
module Schedules {
  import opened Wrappers
  import opened Tally
  import opened Codecs
  import opened Errors
  import opened Effects
  import opened Objects
  import opened Batches
  import opened Pipelines

  datatype Counter =
    | Processed | Skipped | Failed | ExcludedByKey | UnrecognizedObjects | CopiedUnparsed | BytesIn | BytesOut
    | DecodeErrors | ItemsWithoutObjects
    | RecordsIn | RecordsKept | RecordsDropped | ParseErrors | RuleDrops(name: string)

  /** What an object in flight does to shared state: one atomic addition, or one write landing. */
  datatype MicroOp = Add(counter: Counter, n: nat) | Write(body: Bytes)

  datatype Task = Task(ops: seq<MicroOp>, result: Result<(), CoreError>, dest: Location)

  datatype State = State(
    started: nat, progress: seq<nat>, taken: seq<Result<(), CoreError>>, counters: map<Counter, nat>, objects: map<Location, Bytes>)

  datatype Event = Begin | Advance(i: nat) | Take

  function Bump(counters: map<Counter, nat>, c: Counter, n: nat): map<Counter, nat> {
    counters[c := Get(counters, c) + n]
  }

  function Idle(tasks: seq<Task>): (progress: seq<nat>)
    ensures |progress| == |tasks|
  {
    seq(|tasks|, _ => 0)
  }

  function Start(tasks: seq<Task>, counters: map<Counter, nat>, objects: map<Location, Bytes>): State {
    State(0, Idle(tasks), [], counters, objects)
  }

  function Next(tasks: seq<Task>, n: nat, s: State, e: Event): Option<State> {
    if |s.progress| != |tasks| || |s.taken| > s.started || s.started > |tasks| then None
    else
      match e
      case Begin =>
        if s.started < |tasks| && s.started - |s.taken| < n then Some(s.(started := s.started + 1)) else None
      case Advance(i) =>
        if |s.taken| <= i < s.started && s.progress[i] < |tasks[i].ops| then
          var t := s.(progress := s.progress[i := s.progress[i] + 1]);
          match tasks[i].ops[s.progress[i]]
          case Add(c, k) => Some(t.(counters := Bump(s.counters, c, k)))
          case Write(body) => Some(t.(objects := s.objects[tasks[i].dest := body]))
        else None
      case Take =>
        var done := |s.taken|;
        if done < s.started && s.progress[done] >= |tasks[done].ops| then
          Some(s.(taken := s.taken + [tasks[done].result],
                  counters := if tasks[done].result.Err? then Bump(s.counters, Failed, 1) else s.counters))
        else None
  }

  function Run(tasks: seq<Task>, n: nat, s: State, events: seq<Event>): Option<State> {
    if events == [] then Some(s)
    else
      var t :- Run(tasks, n, s, events[..|events| - 1]);
      Next(tasks, n, t, events[|events| - 1])
  }

  predicate Complete(tasks: seq<Task>, s: State) {
    |s.taken| == |tasks|
  }

  // ----- Counters -----

  function Amount(ops: seq<MicroOp>, c: Counter): nat {
    if ops == [] then 0
    else
      var last := ops[|ops| - 1];
      Amount(ops[..|ops| - 1], c) + if last.Add? && last.counter == c then last.n else 0
  }

  function AmountDone(tasks: seq<Task>, progress: seq<nat>, c: Counter): nat
    requires |progress| == |tasks| && forall i :: 0 <= i < |tasks| ==> progress[i] <= |tasks[i].ops|
  {
    if tasks == [] then 0
    else
      var n := |tasks| - 1;
      AmountDone(tasks[..n], progress[..n], c) + Amount(tasks[n].ops[..progress[n]], c)
  }

  function FailedIn(results: seq<Result<(), CoreError>>): nat {
    if results == [] then 0 else FailedIn(results[..|results| - 1]) + if results[|results| - 1].Err? then 1 else 0
  }

  lemma AmountStep(ops: seq<MicroOp>, k: nat, c: Counter)
    requires k < |ops|
    ensures Amount(ops[..k + 1], c) == Amount(ops[..k], c) + if ops[k].Add? && ops[k].counter == c then ops[k].n else 0
  {
    assert ops[..k + 1][..k] == ops[..k];
  }

  lemma {:induction false} AmountDoneStep(tasks: seq<Task>, progress: seq<nat>, i: nat, c: Counter)
    requires |progress| == |tasks| && forall j :: 0 <= j < |tasks| ==> progress[j] <= |tasks[j].ops|
    requires i < |tasks| && progress[i] < |tasks[i].ops|
    ensures var op := tasks[i].ops[progress[i]];
            AmountDone(tasks, progress[i := progress[i] + 1], c) ==
            AmountDone(tasks, progress, c) + if op.Add? && op.counter == c then op.n else 0
  {
    hide Amount;
    var n := |tasks| - 1;
    var moved := progress[i := progress[i] + 1];
    if i == n {
      assert moved[..n] == progress[..n];
      AmountStep(tasks[n].ops, progress[n], c);
    } else {
      assert moved[..n] == progress[..n][i := progress[i] + 1];
      AmountDoneStep(tasks[..n], progress[..n], i, c);
    }
  }

  // ----- Writes -----

  /** What the last of these operations that writes leaves behind. */
  function LastBody(ops: seq<MicroOp>): Option<Bytes> {
    if ops == [] then None
    else
      var last := ops[|ops| - 1];
      if last.Write? then Some(last.body) else LastBody(ops[..|ops| - 1])
  }

  lemma LastBodyStep(ops: seq<MicroOp>, k: nat)
    requires k < |ops|
    ensures LastBody(ops[..k + 1]) == if ops[k].Write? then Some(ops[k].body) else LastBody(ops[..k])
  {
    assert ops[..k + 1][..k] == ops[..k];
  }

  predicate WritesTo(tasks: seq<Task>, i: nat, at: Location) {
    i < |tasks| && tasks[i].dest == at && LastBody(tasks[i].ops).Some?
  }

  ghost predicate LastWriter(tasks: seq<Task>, m: nat, at: Location) {
    WritesTo(tasks, m, at) && forall i: nat :: WritesTo(tasks, i, at) ==> i <= m
  }

  /** Writers of a place that can be in flight together with its last one end with the same body. */
  ghost predicate NearWritersAgree(tasks: seq<Task>, n: nat, at: Location) {
    forall j: nat, m: nat :: WritesTo(tasks, j, at) && LastWriter(tasks, m, at) && m < j + n ==>
      LastBody(tasks[j].ops) == LastBody(tasks[m].ops)
  }

  /** What a task has left at its destination so far. */
  function Left(tasks: seq<Task>, progress: seq<nat>, i: nat): Option<Bytes>
    requires |progress| == |tasks| && i < |tasks|
  {
    if progress[i] <= |tasks[i].ops| then LastBody(tasks[i].ops[..progress[i]]) else None
  }

  /** The place holds what task `j` wrote, and no task has written there that could not be in flight with it. */
  ghost predicate WroteLatest(tasks: seq<Task>, n: nat, s: State, at: Location, j: nat)
    requires |s.progress| == |tasks|
  {
    && j < |tasks| && tasks[j].dest == at && Left(tasks, s.progress, j).Some? && Lookup(s.objects, at) == Left(tasks, s.progress, j)
    && forall m: nat :: m < |tasks| && tasks[m].dest == at && Left(tasks, s.progress, m).Some? ==> m < j + n
  }

  ghost predicate Untouched(tasks: seq<Task>, s: State, base: map<Location, Bytes>, at: Location)
    requires |s.progress| == |tasks|
  {
    && Lookup(s.objects, at) == Lookup(base, at)
    && forall m: nat :: m < |tasks| && tasks[m].dest == at ==> Left(tasks, s.progress, m).None?
  }

  ghost predicate Placed(tasks: seq<Task>, n: nat, s: State, base: map<Location, Bytes>, at: Location)
    requires |s.progress| == |tasks|
  {
    Untouched(tasks, s, base, at) || exists j: nat :: WroteLatest(tasks, n, s, at, j)
  }

  // ----- Every reachable state -----

  ghost predicate Progressing(tasks: seq<Task>, n: nat, s: State) {
    && |s.progress| == |tasks| && |s.taken| <= s.started <= |tasks| && s.started - |s.taken| <= n
    && (forall i :: 0 <= i < |tasks| ==> s.progress[i] <= |tasks[i].ops|)
    && (forall i :: 0 <= i < |s.taken| ==> s.progress[i] == |tasks[i].ops| && s.taken[i] == tasks[i].result)
    && (forall i :: s.started <= i < |tasks| ==> s.progress[i] == 0)
  }

  ghost predicate Counting(tasks: seq<Task>, base: map<Counter, nat>, s: State)
    requires |s.progress| == |tasks| && forall i :: 0 <= i < |tasks| ==> s.progress[i] <= |tasks[i].ops|
  {
    forall c :: Get(s.counters, c) == Get(base, c) + AmountDone(tasks, s.progress, c) + if c == Failed then FailedIn(s.taken) else 0
  }

  lemma StepProgresses(tasks: seq<Task>, n: nat, s: State, e: Event)
    requires Progressing(tasks, n, s) && Next(tasks, n, s, e).Some?
    ensures Progressing(tasks, n, Next(tasks, n, s, e).value)
  {
  }

  lemma AdvanceCounts(tasks: seq<Task>, n: nat, base: map<Counter, nat>, s: State, i: nat)
    requires Progressing(tasks, n, s) && Counting(tasks, base, s) && Next(tasks, n, s, Advance(i)).Some?
    requires Progressing(tasks, n, Next(tasks, n, s, Advance(i)).value)
    ensures Counting(tasks, base, Next(tasks, n, s, Advance(i)).value)
  {
    hide AmountDone, Amount, FailedIn;
    var op := tasks[i].ops[s.progress[i]];
    forall c ensures AmountDone(tasks, s.progress[i := s.progress[i] + 1], c) ==
             AmountDone(tasks, s.progress, c) + if op.Add? && op.counter == c then op.n else 0 {
      AmountDoneStep(tasks, s.progress, i, c);
    }
  }

  lemma TakeCounts(tasks: seq<Task>, n: nat, base: map<Counter, nat>, s: State)
    requires Progressing(tasks, n, s) && Counting(tasks, base, s) && Next(tasks, n, s, Take).Some?
    requires Progressing(tasks, n, Next(tasks, n, s, Take).value)
    ensures Counting(tasks, base, Next(tasks, n, s, Take).value)
  {
    hide AmountDone, Amount;
    assert (s.taken + [tasks[|s.taken|].result])[..|s.taken|] == s.taken;
  }

  lemma StepCounts(tasks: seq<Task>, n: nat, base: map<Counter, nat>, s: State, e: Event)
    requires Progressing(tasks, n, s) && Counting(tasks, base, s) && Next(tasks, n, s, e).Some?
    ensures Progressing(tasks, n, Next(tasks, n, s, e).value) && Counting(tasks, base, Next(tasks, n, s, e).value)
  {
    hide AmountDone, FailedIn;
    StepProgresses(tasks, n, s, e);
    match e
    case Begin =>
    case Advance(i) => AdvanceCounts(tasks, n, base, s, i);
    case Take => TakeCounts(tasks, n, base, s);
  }

  lemma LeftStep(tasks: seq<Task>, progress: seq<nat>, i: nat, m: nat)
    requires |progress| == |tasks| && i < |tasks| && m < |tasks| && progress[i] < |tasks[i].ops|
    ensures var op := tasks[i].ops[progress[i]];
            Left(tasks, progress[i := progress[i] + 1], m) ==
            if m == i && op.Write? then Some(op.body) else Left(tasks, progress, m)
  {
    if m == i {
      LastBodyStep(tasks[i].ops, progress[i]);
    }
  }

  lemma AdvancePlaces(tasks: seq<Task>, n: nat, base: map<Location, Bytes>, s: State, i: nat, at: Location)
    requires Progressing(tasks, n, s) && Next(tasks, n, s, Advance(i)).Some? && Placed(tasks, n, s, base, at)
    ensures |Next(tasks, n, s, Advance(i)).value.progress| == |tasks|
    ensures Placed(tasks, n, Next(tasks, n, s, Advance(i)).value, base, at)
  {
    hide Left;
    var t, op := Next(tasks, n, s, Advance(i)).value, tasks[i].ops[s.progress[i]];
    forall m: nat | m < |tasks|
      ensures Left(tasks, t.progress, m) == if m == i && op.Write? then Some(op.body) else Left(tasks, s.progress, m)
      ensures Left(tasks, s.progress, m).Some? ==> m < s.started
    {
      LeftStep(tasks, s.progress, i, m);
      NothingLeft(tasks, s.progress, m);
    }
    if op.Write? && tasks[i].dest == at {
      assert WroteLatest(tasks, n, t, at, i);
    } else if j: nat :| WroteLatest(tasks, n, s, at, j) {
      assert WroteLatest(tasks, n, t, at, j);
    } else {
      assert Untouched(tasks, t, base, at);
    }
  }

  lemma NothingLeft(tasks: seq<Task>, progress: seq<nat>, m: nat)
    requires |progress| == |tasks| && m < |tasks|
    ensures progress[m] == 0 ==> Left(tasks, progress, m).None?
    ensures progress[m] == |tasks[m].ops| ==> Left(tasks, progress, m) == LastBody(tasks[m].ops)
  {
    assert tasks[m].ops[..|tasks[m].ops|] == tasks[m].ops;
  }

  lemma StepPlaces(tasks: seq<Task>, n: nat, base: map<Location, Bytes>, s: State, e: Event, at: Location)
    requires Progressing(tasks, n, s) && Next(tasks, n, s, e).Some? && Placed(tasks, n, s, base, at)
    ensures |Next(tasks, n, s, e).value.progress| == |tasks| && Placed(tasks, n, Next(tasks, n, s, e).value, base, at)
  {
    hide Left;
    if e.Advance? {
      AdvancePlaces(tasks, n, base, s, e.i, at);
    } else {
      var t := Next(tasks, n, s, e).value;
      if j: nat :| WroteLatest(tasks, n, s, at, j) {
        assert WroteLatest(tasks, n, t, at, j);
      } else {
        assert Untouched(tasks, t, base, at);
      }
    }
  }

  lemma {:induction false} NothingDone(tasks: seq<Task>, progress: seq<nat>, c: Counter)
    requires |progress| == |tasks| && forall i :: 0 <= i < |tasks| ==> progress[i] == 0
    ensures AmountDone(tasks, progress, c) == 0
  {
    if tasks != [] {
      NothingDone(tasks[..|tasks| - 1], progress[..|tasks| - 1], c);
    }
  }

  lemma {:induction false} RunCounts(
      tasks: seq<Task>, n: nat, counters: map<Counter, nat>, objects: map<Location, Bytes>, events: seq<Event>)
    requires Run(tasks, n, Start(tasks, counters, objects), events).Some?
    ensures var s := Run(tasks, n, Start(tasks, counters, objects), events).value;
            Progressing(tasks, n, s) && Counting(tasks, counters, s)
  {
    hide Next, AmountDone;
    if events == [] {
      forall c ensures AmountDone(tasks, Idle(tasks), c) == 0 {
        NothingDone(tasks, Idle(tasks), c);
      }
    } else {
      var k := |events| - 1;
      RunCounts(tasks, n, counters, objects, events[..k]);
      StepCounts(tasks, n, counters, Run(tasks, n, Start(tasks, counters, objects), events[..k]).value, events[k]);
    }
  }

  lemma {:induction false} RunPlaces(
      tasks: seq<Task>, n: nat, counters: map<Counter, nat>, objects: map<Location, Bytes>, events: seq<Event>,
      at: Location)
    requires Run(tasks, n, Start(tasks, counters, objects), events).Some?
    ensures var s := Run(tasks, n, Start(tasks, counters, objects), events).value;
            |s.progress| == |tasks| && Placed(tasks, n, s, objects, at)
  {
    hide Next, Counting, Placed;
    if events == [] {
      StartPlaces(tasks, n, counters, objects, at);
    } else {
      var k := |events| - 1;
      RunCounts(tasks, n, counters, objects, events[..k]);
      RunPlaces(tasks, n, counters, objects, events[..k], at);
      StepPlaces(tasks, n, objects, Run(tasks, n, Start(tasks, counters, objects), events[..k]).value, events[k], at);
    }
  }

  lemma StartPlaces(tasks: seq<Task>, n: nat, counters: map<Counter, nat>, objects: map<Location, Bytes>, at: Location)
    ensures Placed(tasks, n, Start(tasks, counters, objects), objects, at)
  {
    assert Untouched(tasks, Start(tasks, counters, objects), objects, at);
  }

  // ----- The outcome -----

  function AllDone(tasks: seq<Task>): (progress: seq<nat>)
    ensures |progress| == |tasks|
  {
    seq(|tasks|, i requires 0 <= i < |tasks| => |tasks[i].ops|)
  }

  /** The results taken are the tasks' own, in submission order. */
  predicate TakesAll(tasks: seq<Task>, taken: seq<Result<(), CoreError>>) {
    |taken| == |tasks| && forall i :: 0 <= i < |tasks| ==> taken[i] == tasks[i].result
  }

  /** A complete state that some run leads to, at most `n` objects in flight. */
  ghost predicate Ends(tasks: seq<Task>, n: nat, counters: map<Counter, nat>, objects: map<Location, Bytes>, s: State) {
    Complete(tasks, s) && exists events :: Run(tasks, n, Start(tasks, counters, objects), events) == Some(s)
  }

  /** Every counter ends at the sum of what the objects add, whatever the concurrency and the interleaving. */
  lemma CompleteCounts(
      tasks: seq<Task>, n: nat, counters: map<Counter, nat>, objects: map<Location, Bytes>, s: State)
    requires Ends(tasks, n, counters, objects, s)
    ensures TakesAll(tasks, s.taken) && s.progress == AllDone(tasks)
    ensures forall c :: Get(s.counters, c) ==
              Get(counters, c) + AmountDone(tasks, AllDone(tasks), c) + if c == Failed then FailedIn(s.taken) else 0
  {
    hide Run, AmountDone, FailedIn;
    var events :| Run(tasks, n, Start(tasks, counters, objects), events) == Some(s);
    RunCounts(tasks, n, counters, objects, events);
  }

  /** A place ends with what some writer left there that could be in flight with the last one; without writers, as it was. */
  lemma CompletePlaces(
      tasks: seq<Task>, n: nat, counters: map<Counter, nat>, objects: map<Location, Bytes>, s: State, at: Location)
    requires Ends(tasks, n, counters, objects, s)
    ensures (forall m: nat :: !WritesTo(tasks, m, at)) ==> Lookup(s.objects, at) == Lookup(objects, at)
    ensures (exists m: nat :: WritesTo(tasks, m, at)) ==>
              exists j: nat :: WritesTo(tasks, j, at) && Lookup(s.objects, at) == LastBody(tasks[j].ops) &&
                forall m: nat :: WritesTo(tasks, m, at) ==> m < j + n
  {
    hide Run, Left, LastBody, AmountDone, FailedIn;
    var events :| Run(tasks, n, Start(tasks, counters, objects), events) == Some(s);
    CompleteCounts(tasks, n, counters, objects, s);
    RunPlaces(tasks, n, counters, objects, events, at);
    forall m: nat | m < |tasks| ensures Left(tasks, s.progress, m) == LastBody(tasks[m].ops) {
      NothingLeft(tasks, s.progress, m);
    }
    if j: nat :| WroteLatest(tasks, n, s, at, j) {
      assert WritesTo(tasks, j, at);
    } else {
      assert Untouched(tasks, s, objects, at);
      assert forall m: nat :: !WritesTo(tasks, m, at);
    }
  }

  /** Where near writers agree with it, the last writer decides. */
  lemma LastWriterDecides(
      tasks: seq<Task>, n: nat, counters: map<Counter, nat>, objects: map<Location, Bytes>, s: State, at: Location, m: nat)
    requires Ends(tasks, n, counters, objects, s) && NearWritersAgree(tasks, n, at) && LastWriter(tasks, m, at)
    ensures Lookup(s.objects, at) == LastBody(tasks[m].ops)
  {
    hide Ends, LastBody;
    CompletePlaces(tasks, n, counters, objects, s, at);
  }

  lemma {:induction false} FindLastWriter(tasks: seq<Task>, upTo: nat, at: Location) returns (m: nat)
    requires exists i: nat :: i < upTo && WritesTo(tasks, i, at)
    requires forall i: nat :: WritesTo(tasks, i, at) ==> i < upTo
    ensures LastWriter(tasks, m, at)
  {
    hide LastBody;
    if WritesTo(tasks, upTo - 1, at) {
      m := upTo - 1;
    } else {
      m := FindLastWriter(tasks, upTo - 1, at);
    }
  }

  /** Two complete runs leave the same at a place whose near writers agree. */
  lemma PlacesAgree(
      tasks: seq<Task>, n: nat, k: nat, counters: map<Counter, nat>, objects: map<Location, Bytes>, s: State, t: State,
      at: Location)
    requires Ends(tasks, n, counters, objects, s) && Ends(tasks, k, counters, objects, t)
    requires NearWritersAgree(tasks, n, at) && NearWritersAgree(tasks, k, at)
    ensures Lookup(s.objects, at) == Lookup(t.objects, at)
  {
    hide Ends, NearWritersAgree, LastBody, WritesTo;
    if exists i: nat :: WritesTo(tasks, i, at) {
      WritersAreTasks(tasks, at);
      var m := FindLastWriter(tasks, |tasks|, at);
      LastWriterDecides(tasks, n, counters, objects, s, at, m);
      LastWriterDecides(tasks, k, counters, objects, t, at, m);
    } else {
      CompletePlaces(tasks, n, counters, objects, s, at);
      CompletePlaces(tasks, k, counters, objects, t, at);
    }
  }

  /**
   Two complete runs of one batch, at any two concurrencies and in any two interleavings, take the
   same results in the same order and end with the same counters; and with the same content at
   every place whose near writers agree.
   */
  lemma SchedulesAgree(
      tasks: seq<Task>, n: nat, k: nat, counters: map<Counter, nat>, objects: map<Location, Bytes>, s: State, t: State)
    requires Ends(tasks, n, counters, objects, s) && Ends(tasks, k, counters, objects, t)
    ensures s.taken == t.taken && forall c :: Get(s.counters, c) == Get(t.counters, c)
    ensures forall at :: NearWritersAgree(tasks, n, at) && NearWritersAgree(tasks, k, at) ==>
              Lookup(s.objects, at) == Lookup(t.objects, at)
  {
    hide Ends, AmountDone, FailedIn, NearWritersAgree, Lookup;
    CompleteCounts(tasks, n, counters, objects, s);
    CompleteCounts(tasks, k, counters, objects, t);
    assert s.taken == t.taken;
    forall at | NearWritersAgree(tasks, n, at) && NearWritersAgree(tasks, k, at)
      ensures Lookup(s.objects, at) == Lookup(t.objects, at)
    {
      PlacesAgree(tasks, n, k, counters, objects, s, t, at);
    }
  }

  lemma WritersAreTasks(tasks: seq<Task>, at: Location)
    ensures forall i: nat :: WritesTo(tasks, i, at) ==> i < |tasks|
  {
  }

  // ----- No deadlock -----

  /** With room for one, an unfinished batch can always go on. */
  lemma NeverStuck(tasks: seq<Task>, n: nat, s: State)
    requires n >= 1 && Progressing(tasks, n, s) && !Complete(tasks, s)
    ensures exists e :: Next(tasks, n, s, e).Some?
  {
    var done := |s.taken|;
    if done == s.started {
      assert Next(tasks, n, s, Begin).Some?;
    } else if s.progress[done] < |tasks[done].ops| {
      assert Next(tasks, n, s, Advance(done)).Some?;
    } else {
      assert Next(tasks, n, s, Take).Some?;
    }
  }

  function Remaining(tasks: seq<Task>, progress: seq<nat>): nat
    requires |progress| == |tasks| && forall i :: 0 <= i < |tasks| ==> progress[i] <= |tasks[i].ops|
  {
    if tasks == [] then 0
    else Remaining(tasks[..|tasks| - 1], progress[..|tasks| - 1]) + |tasks[|tasks| - 1].ops| - progress[|tasks| - 1]
  }

  lemma {:induction false} RemainingStep(tasks: seq<Task>, progress: seq<nat>, i: nat)
    requires |progress| == |tasks| && forall j :: 0 <= j < |tasks| ==> progress[j] <= |tasks[j].ops|
    requires i < |tasks| && progress[i] < |tasks[i].ops|
    ensures Remaining(tasks, progress[i := progress[i] + 1]) == Remaining(tasks, progress) - 1
  {
    var n := |tasks| - 1;
    var moved := progress[i := progress[i] + 1];
    if i == n {
      assert moved[..n] == progress[..n];
    } else {
      assert moved[..n] == progress[..n][i := progress[i] + 1];
      RemainingStep(tasks[..n], progress[..n], i);
    }
  }

  /** Every step uses up one operation, one start or one result: no run is longer than their number. */
  lemma StepUses(tasks: seq<Task>, n: nat, s: State, e: Event)
    requires Progressing(tasks, n, s) && Next(tasks, n, s, e).Some?
    ensures var t := Next(tasks, n, s, e).value;
            && Progressing(tasks, n, t)
            && Remaining(tasks, t.progress) + (|tasks| - t.started) + (|tasks| - |t.taken|) ==
               Remaining(tasks, s.progress) + (|tasks| - s.started) + (|tasks| - |s.taken|) - 1
  {
    hide Remaining;
    StepProgresses(tasks, n, s, e);
    if e.Advance? {
      RemainingStep(tasks, s.progress, e.i);
    }
  }

  // ----- The schedules carry out the effects -----

  function ObjectCounter(o: ObjectTotals, c: Counter): nat {
    match c
    case Processed => o.processed
    case Skipped => o.skipped
    case Failed => o.failed
    case ExcludedByKey => o.excludedByKey
    case UnrecognizedObjects => o.unrecognized
    case CopiedUnparsed => o.copiedUnparsed
    case BytesIn => o.bytesIn
    case BytesOut => o.bytesOut
    case DecodeErrors => o.decodeErrors
    case ItemsWithoutObjects => o.itemsWithoutObjects
    case _ => 0
  }

  function Beyond(a: nat, b: nat): nat {
    if b <= a then a - b else 0
  }

  ghost function CounterOf(e: Effect, names: seq<string>, c: Counter): nat {
    match c
    case RecordsIn => e.counts.recordsIn
    case RecordsKept => e.counts.kept
    case RecordsDropped => Beyond(e.counts.recordsIn, e.counts.kept)
    case ParseErrors => e.counts.parseErrors
    case RuleDrops(name) => DropsNamed(e.counts.ruleDrops, names, name)
    case _ => ObjectCounter(e.objects, c)
  }

  ghost function SumCounter(effects: seq<Effect>, names: seq<string>, c: Counter): nat {
    if effects == [] then 0 else SumCounter(effects[..|effects| - 1], names, c) + CounterOf(effects[|effects| - 1], names, c)
  }

  /** A task does, in some order and in some pieces, exactly what an effect says. */
  ghost predicate Realizes(task: Task, entry: Work, e: Effect, names: seq<string>) {
    && task.result == e.result && task.dest == entry.dest
    && (forall c :: Amount(task.ops, c) == CounterOf(e, names, c))
    && (forall k :: 0 <= k < |task.ops| && task.ops[k].Write? ==> e.wrote == Some(task.ops[k].body))
    && (e.wrote.Some? ==> exists k :: 0 <= k < |task.ops| && task.ops[k] == Write(e.wrote.value))
  }

  ghost predicate RealizesAll(tasks: seq<Task>, work: seq<Work>, effects: seq<Effect>, names: seq<string>) {
    |tasks| == |work| == |effects| && forall i :: 0 <= i < |tasks| ==> Realizes(tasks[i], work[i], effects[i], names)
  }

  lemma {:induction false} BodyOfWrites(ops: seq<MicroOp>, wrote: Option<Bytes>)
    requires forall k :: 0 <= k < |ops| && ops[k].Write? ==> wrote == Some(ops[k].body)
    ensures LastBody(ops) == if exists k :: 0 <= k < |ops| && ops[k].Write? then wrote else None
  {
    if ops != [] && !ops[|ops| - 1].Write? {
      var fewer := ops[..|ops| - 1];
      BodyOfWrites(fewer, wrote);
      if k :| 0 <= k < |ops| && ops[k].Write? {
        assert fewer[k].Write?;
      }
    }
  }

  lemma RealizedBody(task: Task, entry: Work, e: Effect, names: seq<string>)
    requires Realizes(task, entry, e, names)
    ensures LastBody(task.ops) == e.wrote
  {
    hide Amount, CounterOf, LastBody;
    BodyOfWrites(task.ops, e.wrote);
    if k :| 0 <= k < |task.ops| && e.wrote.Some? && task.ops[k] == Write(e.wrote.value) {
      assert task.ops[k].Write?;
    }
  }

  /** Entries near enough to a place's last to be in flight with it land there what it lands. */
  ghost predicate NearEffectsAgree(work: seq<Work>, effects: seq<Effect>, n: nat)
    requires |effects| <= |work|
  {
    forall at :: NearEffectsAgreeAt(work, effects, n, at)
  }

  ghost predicate NearEffectsAgreeAt(work: seq<Work>, effects: seq<Effect>, n: nat, at: Location)
    requires |effects| <= |work|
  {
    forall j: nat, m: nat :: LandsAt(work, effects, j, at) && LandsLast(work, effects, m, at) && m < j + n ==>
      effects[j].wrote == effects[m].wrote
  }

  /** Entries that land in one place land the same bytes. */
  ghost predicate OnePlaceOneBody(work: seq<Work>, effects: seq<Effect>)
    requires |work| == |effects|
  {
    forall i: nat, j: nat, at :: LandsAt(work, effects, i, at) && LandsAt(work, effects, j, at) ==> effects[i].wrote == effects[j].wrote
  }

  /** No key in two source buckets, and what an object lands a function of the object: one place, one body. */
  lemma KeysApart(b: BatchSettings, items: seq<SourceItem>, work: seq<Work>, effects: seq<Effect>)
    requires work == WorkOf(b, items) && |effects| == |work|
    requires forall v, w :: v in work && w in work && v.ref.key == w.ref.key ==> v.ref.bucket == w.ref.bucket
    requires forall i, j :: 0 <= i < |work| && 0 <= j < |work| && Source(work[i].ref) == Source(work[j].ref) ==>
               effects[i].wrote == effects[j].wrote
    ensures OnePlaceOneBody(work, effects) && forall n: nat :: NearEffectsAgree(work, effects, n)
  {
    WorkIsInScope(b, items);
    forall i: nat, j: nat, at | LandsAt(work, effects, i, at) && LandsAt(work, effects, j, at)
      ensures effects[i].wrote == effects[j].wrote
    {
      assert work[i] in work && work[j] in work;
      assert (b.keyPrefix + work[i].ref.key)[|b.keyPrefix|..] == work[i].ref.key;
      assert (b.keyPrefix + work[j].ref.key)[|b.keyPrefix|..] == work[j].ref.key;
    }
  }

  lemma RealizedWriters(tasks: seq<Task>, work: seq<Work>, effects: seq<Effect>, names: seq<string>, at: Location)
    requires RealizesAll(tasks, work, effects, names)
    ensures forall i: nat :: WritesTo(tasks, i, at) <==> LandsAt(work, effects, i, at)
    ensures forall i: nat :: i < |tasks| ==> LastBody(tasks[i].ops) == effects[i].wrote
  {
    hide Realizes, LastBody;
    forall i: nat | i < |tasks| ensures LastBody(tasks[i].ops) == effects[i].wrote && tasks[i].dest == work[i].dest {
      assert Realizes(tasks[i], work[i], effects[i], names);
      RealizedBody(tasks[i], work[i], effects[i], names);
      RealizedDest(tasks[i], work[i], effects[i], names);
    }
  }

  lemma RealizedDest(task: Task, entry: Work, e: Effect, names: seq<string>)
    requires Realizes(task, entry, e, names)
    ensures task.dest == entry.dest && task.result == e.result
  {
  }

  /** The near effects at a place agree exactly if its near writers do. */
  lemma RealizedNear(tasks: seq<Task>, work: seq<Work>, effects: seq<Effect>, names: seq<string>, n: nat, at: Location)
    requires RealizesAll(tasks, work, effects, names)
    ensures NearEffectsAgreeAt(work, effects, n, at) <==> NearWritersAgree(tasks, n, at)
    ensures forall m: nat :: LastWriter(tasks, m, at) <==> LandsLast(work, effects, m, at)
  {
    hide Realizes, LastBody;
    RealizedWriters(tasks, work, effects, names, at);
  }

  lemma RealizedSizes(tasks: seq<Task>, work: seq<Work>, effects: seq<Effect>, names: seq<string>)
    requires RealizesAll(tasks, work, effects, names)
    ensures |tasks| == |work| == |effects|
  {
  }

  // ----- What the counters come to -----

  /** What the handler, one entry at a time, counts of these effects. */
  ghost function Counted(effects: seq<Effect>, names: seq<string>, c: Counter): nat {
    match c
    case RecordsIn => SumRecords(effects).0
    case RecordsKept => SumRecords(effects).1
    case RecordsDropped => Beyond(SumRecords(effects).0, SumRecords(effects).1)
    case ParseErrors => SumRecords(effects).2
    case RuleDrops(name) => SumDrops(effects, names, name)
    case _ => ObjectCounter(SumObjects(effects), c)
  }

  lemma ObjectCounterPlus(a: ObjectTotals, b: ObjectTotals, c: Counter)
    ensures ObjectCounter(a.Plus(b), c) == ObjectCounter(a, c) + ObjectCounter(b, c)
  {
  }

  lemma SettledCounter(e: Effect, c: Counter)
    ensures ObjectCounter(Settled(e), c) == ObjectCounter(e.objects, c) + if c == Failed && e.result.Err? then 1 else 0
  {
  }

  lemma {:induction false} SumCounterIs(effects: seq<Effect>, names: seq<string>, c: Counter)
    requires forall i :: 0 <= i < |effects| ==> effects[i].counts.kept <= effects[i].counts.recordsIn
    ensures SumRecords(effects).1 <= SumRecords(effects).0
    ensures SumCounter(effects, names, c) + (if c == Failed then FailedIn(Results(effects)) else 0) == Counted(effects, names, c)
  {
    hide DropsNamed, ObjectTotals.Plus, Settled;
    if effects != [] {
      var n := |effects| - 1;
      SumCounterIs(effects[..n], names, c);
      assert Results(effects)[..n] == Results(effects[..n]);
      ObjectCounterPlus(SumObjects(effects[..n]), Settled(effects[n]), c);
      SettledCounter(effects[n], c);
    }
  }

  function CounterIn(v: MetricsView, c: Counter): nat {
    match c
    case RecordsIn => v.recordsIn
    case RecordsKept => v.kept
    case RecordsDropped => v.dropped
    case ParseErrors => v.parseErrors
    case RuleDrops(name) => Get(v.ruleDrops, name)
    case _ => ObjectCounter(v.objects, c)
  }

  /** The counters, one by one, are those of the snapshot. */
  ghost predicate Shows(counters: map<Counter, nat>, v: MetricsView) {
    forall c :: Get(counters, c) == CounterIn(v, c)
  }

  lemma SameTotals(a: ObjectTotals, b: ObjectTotals)
    requires forall c :: ObjectCounter(a, c) == ObjectCounter(b, c)
    ensures a == b
  {
    assert ObjectCounter(a, Processed) == ObjectCounter(b, Processed) && ObjectCounter(a, Skipped) == ObjectCounter(b, Skipped);
    assert ObjectCounter(a, Failed) == ObjectCounter(b, Failed) && ObjectCounter(a, ExcludedByKey) == ObjectCounter(b, ExcludedByKey);
    assert ObjectCounter(a, UnrecognizedObjects) == ObjectCounter(b, UnrecognizedObjects);
    assert ObjectCounter(a, CopiedUnparsed) == ObjectCounter(b, CopiedUnparsed);
    assert ObjectCounter(a, BytesIn) == ObjectCounter(b, BytesIn) && ObjectCounter(a, BytesOut) == ObjectCounter(b, BytesOut);
    assert ObjectCounter(a, DecodeErrors) == ObjectCounter(b, DecodeErrors);
    assert ObjectCounter(a, ItemsWithoutObjects) == ObjectCounter(b, ItemsWithoutObjects);
  }

  lemma CountedAccrues(before: MetricsView, after: MetricsView, effects: seq<Effect>, names: seq<string>)
    requires SumRecords(effects).1 <= SumRecords(effects).0
    requires forall c :: CounterIn(after, c) == CounterIn(before, c) + Counted(effects, names, c)
    ensures Accrues(before, after, effects, names)
  {
    hide SumRecords, SumDrops, SumObjects, ObjectTotals.Plus, ObjectCounter;
    forall c ensures ObjectCounter(after.objects, c) == ObjectCounter(before.objects.Plus(SumObjects(effects)), c) {
      ObjectCounterPlus(before.objects, SumObjects(effects), c);
      NoObjectCounter(after.objects, c);
      NoObjectCounter(before.objects, c);
      NoObjectCounter(SumObjects(effects), c);
      assert CounterIn(after, c) == CounterIn(before, c) + Counted(effects, names, c);
    }
    SameTotals(after.objects, before.objects.Plus(SumObjects(effects)));
    assert CounterIn(after, RecordsIn) == CounterIn(before, RecordsIn) + Counted(effects, names, RecordsIn);
    assert CounterIn(after, RecordsKept) == CounterIn(before, RecordsKept) + Counted(effects, names, RecordsKept);
    assert CounterIn(after, RecordsDropped) == CounterIn(before, RecordsDropped) + Counted(effects, names, RecordsDropped);
    assert CounterIn(after, ParseErrors) == CounterIn(before, ParseErrors) + Counted(effects, names, ParseErrors);
    forall name ensures Get(after.ruleDrops, name) == Get(before.ruleDrops, name) + SumDrops(effects, names, name) {
      assert CounterIn(after, RuleDrops(name)) == CounterIn(before, RuleDrops(name)) + Counted(effects, names, RuleDrops(name));
    }
  }

  lemma NoObjectCounter(o: ObjectTotals, c: Counter)
    ensures c.RecordsIn? || c.RecordsKept? || c.RecordsDropped? || c.ParseErrors? || c.RuleDrops? ==> ObjectCounter(o, c) == 0
  {
  }

  lemma RealizesPrefix(tasks: seq<Task>, work: seq<Work>, effects: seq<Effect>, names: seq<string>)
    requires RealizesAll(tasks, work, effects, names) && tasks != []
    ensures var n := |tasks| - 1;
            && |work| == |effects| == n + 1
            && RealizesAll(tasks[..n], work[..n], effects[..n], names)
            && forall c :: Amount(tasks[n].ops, c) == CounterOf(effects[n], names, c)
  {
    hide CounterOf, Amount;
    var n := |tasks| - 1;
    assert Realizes(tasks[n], work[n], effects[n], names);
    assert forall i :: 0 <= i < n ==> Realizes(tasks[i], work[i], effects[i], names);
  }

  lemma {:induction false} RealizedCounts(
      tasks: seq<Task>, work: seq<Work>, effects: seq<Effect>, names: seq<string>, c: Counter)
    requires RealizesAll(tasks, work, effects, names)
    ensures AmountDone(tasks, AllDone(tasks), c) == SumCounter(effects, names, c)
  {
    hide CounterOf, Amount, RealizesAll, Realizes;
    RealizedSizes(tasks, work, effects, names);
    if tasks != [] {
      var n := |tasks| - 1;
      RealizesPrefix(tasks, work, effects, names);
      assert Amount(tasks[n].ops, c) == CounterOf(effects[n], names, c);
      RealizedCounts(tasks[..n], work[..n], effects[..n], names, c);
      assert AllDone(tasks)[..n] == AllDone(tasks[..n]);
      assert tasks[n].ops[..AllDone(tasks)[n]] == tasks[n].ops;
    }
  }

  /** The counters of a complete batch move as the handler's do. */
  lemma ScheduleAccrues(
      tasks: seq<Task>, work: seq<Work>, effects: seq<Effect>, names: seq<string>, n: nat,
      counters: map<Counter, nat>, objects: map<Location, Bytes>, s: State, before: MetricsView, after: MetricsView)
    requires RealizesAll(tasks, work, effects, names) && Ends(tasks, n, counters, objects, s)
    requires forall i :: 0 <= i < |effects| ==> effects[i].counts.kept <= effects[i].counts.recordsIn
    requires Shows(counters, before) && Shows(s.counters, after)
    ensures s.taken == Results(effects) && Accrues(before, after, effects, names)
  {
    hide Ends, AmountDone, FailedIn, SumCounter, Counted, CounterIn, Accrues, Realizes;
    CompleteCounts(tasks, n, counters, objects, s);
    forall i | 0 <= i < |tasks| ensures tasks[i].result == effects[i].result {
      RealizedDest(tasks[i], work[i], effects[i], names);
    }
    assert s.taken == Results(effects);
    forall c ensures CounterIn(after, c) == CounterIn(before, c) + Counted(effects, names, c) {
      RealizedCounts(tasks, work, effects, names, c);
      SumCounterIs(effects, names, c);
    }
    SumCounterIs(effects, names, Processed);
    CountedAccrues(before, after, effects, names);
  }

  /** The objects of a complete batch whose near effects agree are those the handler lands. */
  lemma ScheduleLands(
      tasks: seq<Task>, work: seq<Work>, effects: seq<Effect>, names: seq<string>, n: nat,
      counters: map<Counter, nat>, objects: map<Location, Bytes>, s: State)
    requires RealizesAll(tasks, work, effects, names) && Ends(tasks, n, counters, objects, s) && NearEffectsAgree(work, effects, n)
    ensures s.objects == Land(objects, work, effects)
  {
    hide Ends, Land, LastBody, WritesTo, LandsAt, NearEffectsAgree, NearWritersAgree, RealizesAll;
    RealizedSizes(tasks, work, effects, names);
    var landed := Land(objects, work, effects);
    forall at ensures Lookup(s.objects, at) == Lookup(landed, at) {
      assert NearEffectsAgreeAt(work, effects, n, at) by {
        NearAt(work, effects, n, at);
      }
      RealizedNear(tasks, work, effects, names, n, at);
      RealizedWriters(tasks, work, effects, names, at);
      LandAt(objects, work, effects, at);
      WritersAreTasks(tasks, at);
      if exists i: nat :: WritesTo(tasks, i, at) {
        var m := FindLastWriter(tasks, |tasks|, at);
        LastWriterDecides(tasks, n, counters, objects, s, at, m);
        assert LandsLast(work, effects, m, at);
      } else {
        CompletePlaces(tasks, n, counters, objects, s, at);
      }
    }
    SameContent(s.objects, landed);
  }

  lemma NearAt(work: seq<Work>, effects: seq<Effect>, n: nat, at: Location)
    requires |effects| <= |work| && NearEffectsAgree(work, effects, n)
    ensures NearEffectsAgreeAt(work, effects, n, at)
  {
  }

  lemma SameContent(a: map<Location, Bytes>, b: map<Location, Bytes>)
    requires forall at :: Lookup(a, at) == Lookup(b, at)
    ensures a == b
  {
    forall at ensures at in a <==> at in b {
      assert Lookup(a, at) == Lookup(b, at);
    }
    forall at | at in a ensures a[at] == b[at] {
      assert Lookup(a, at) == Lookup(b, at);
    }
  }

  /**
   A batch at any concurrency, in any interleaving, comes to what the handler comes to one entry at
   a time: it answers what the handler answers, every counter ends where the handler's does, and
   so does every object, if entries near enough to be in flight together land the same in one place.
   */
  lemma AnyScheduleIsHandled(
      p: Pipeline, items: seq<SourceItem>, loaded: bool, worlds: seq<World>, effects: seq<Effect>, tasks: seq<Task>, n: nat,
      counters: map<Counter, nat>, objects: map<Location, Bytes>, s: State, before: MetricsView, after: MetricsView,
      r: Result<seq<string>, CoreError>)
    requires p.Accepted(Some(items), loaded) && p.Meets(WorkOf(p.batch, items), worlds, objects) && |effects| == |worlds|
    requires forall j :: 0 <= j < |effects| ==> worlds[j].streaming.Finished() && effects[j] == p.EffectOf(loaded, worlds[j])
    requires RealizesAll(tasks, WorkOf(p.batch, items), effects, p.processor.names) && NearEffectsAgree(WorkOf(p.batch, items), effects, n)
    requires Ends(tasks, n, counters, objects, s) && |s.taken| == |WorkOf(p.batch, items)|
    requires Shows(counters, before.(objects := before.objects.Plus(ClassifiedTotals(p.batch, items)))) && Shows(s.counters, after)
    requires Answers(p.batch, items, WorkOf(p.batch, items), s.taken, r)
    ensures p.Handled(Some(items), loaded, worlds, effects, r, objects, s.objects, before, after)
  {
    hide WorkOf, Streaming.Finished, Fits, ObjectEffect, RawCopyEffect, RealizesAll, Ends, Land, Answers, Accrues, ClassifiedTotals,
         Shows, NearEffectsAgree, ObjectTotals.Plus, AnySelfTrigger, Balanced;
    var work := WorkOf(p.batch, items);
    RealizedSizes(tasks, work, effects, p.processor.names);
    forall j | 0 <= j < |effects| ensures effects[j].counts.kept <= effects[j].counts.recordsIn {
      p.EntrySound(items, loaded, worlds, effects, objects, j);
      BalancedKeeps(effects[j].counts);
    }
    ScheduleAccrues(tasks, work, effects, p.processor.names, n, counters, objects, s,
                    before.(objects := before.objects.Plus(ClassifiedTotals(p.batch, items))), after);
    ScheduleLands(tasks, work, effects, p.processor.names, n, counters, objects, s);
  }

  lemma BalancedKeeps(counts: Counts)
    requires Balanced(counts)
    ensures counts.kept <= counts.recordsIn
  {
    hide Sum;
  }

  // ----- When the order shows -----

  lemma {:induction false} RunConcat(tasks: seq<Task>, n: nat, s: State, a: seq<Event>, b: seq<Event>)
    requires Run(tasks, n, s, a).Some?
    ensures Run(tasks, n, s, a + b) == Run(tasks, n, Run(tasks, n, s, a).value, b)
  {
    hide Next;
    if b == [] {
      assert a + b == a;
    } else {
      var k := |b| - 1;
      assert (a + b)[..|a + b| - 1] == a + b[..k];
      RunConcat(tasks, n, s, a, b[..k]);
    }
  }

  lemma RunNothing(tasks: seq<Task>, n: nat, s: State)
    ensures Run(tasks, n, s, []) == Some(s)
  {
  }

  lemma RunSnoc(tasks: seq<Task>, n: nat, s: State, events: seq<Event>, e: Event)
    requires Run(tasks, n, s, events).Some?
    ensures Run(tasks, n, s, events + [e]) == Next(tasks, n, Run(tasks, n, s, events).value, e)
  {
    hide Next;
    assert (events + [e])[..|events|] == events;
  }

  /** Some run leads from one state to the other. */
  ghost predicate Leads(tasks: seq<Task>, n: nat, s: State, t: State) {
    exists events :: Run(tasks, n, s, events) == Some(t)
  }

  lemma LeadsNext(tasks: seq<Task>, n: nat, s: State, t: State, e: Event)
    requires Leads(tasks, n, s, t) && Next(tasks, n, t, e).Some?
    ensures Leads(tasks, n, s, Next(tasks, n, t, e).value)
  {
    hide Next;
    var events :| Run(tasks, n, s, events) == Some(t);
    RunSnoc(tasks, n, s, events, e);
  }

  lemma LeadsOn(tasks: seq<Task>, n: nat, s: State, t: State, u: State)
    requires Leads(tasks, n, s, t) && Leads(tasks, n, t, u)
    ensures Leads(tasks, n, s, u)
  {
    hide Run;
    var a :| Run(tasks, n, s, a) == Some(t);
    var b :| Run(tasks, n, t, b) == Some(u);
    RunConcat(tasks, n, s, a, b);
  }

  lemma LeadsNowhere(tasks: seq<Task>, n: nat, s: State)
    ensures Leads(tasks, n, s, s)
  {
    RunNothing(tasks, n, s);
  }

  /** Shape of a state between tasks: the first `done` taken, nothing else begun. */
  predicate Quiet(tasks: seq<Task>, s: State, done: nat) {
    && |s.progress| == |tasks| && done == s.started == |s.taken| <= |tasks|
    && forall i :: 0 <= i < |tasks| ==> s.progress[i] == if i < done then |tasks[i].ops| else 0
  }

  /** A task that has begun is carried through, from its first operation to its `k`th. */
  lemma {:induction false} Advances(tasks: seq<Task>, n: nat, s: State, i: nat, k: nat, at: Location) returns (t: State)
    requires |s.progress| == |tasks| && |s.taken| <= i < s.started <= |tasks| && s.progress[i] == 0 && k <= |tasks[i].ops|
    ensures Leads(tasks, n, s, t) && t.started == s.started && t.taken == s.taken && t.progress == s.progress[i := k]
    ensures Lookup(t.objects, at) ==
            if tasks[i].dest == at && LastBody(tasks[i].ops[..k]).Some? then LastBody(tasks[i].ops[..k]) else Lookup(s.objects, at)
  {
    hide Leads, LastBody;
    if k == 0 {
      LeadsNowhere(tasks, n, s);
      NothingWritten(tasks[i].ops);
      t := s;
    } else {
      var u := Advances(tasks, n, s, i, k - 1, at);
      LeadsNext(tasks, n, s, u, Advance(i));
      LastBodyStep(tasks[i].ops, k - 1);
      t := Next(tasks, n, u, Advance(i)).value;
    }
  }

  lemma NothingWritten(ops: seq<MicroOp>)
    ensures LastBody(ops[..0]) == None
  {
  }

  lemma {:induction false} BeginsUpTo(tasks: seq<Task>, n: nat, s: State, m: nat)
    requires |s.progress| == |tasks| && |s.taken| <= s.started <= m <= |tasks| && m <= |s.taken| + n
    ensures Leads(tasks, n, s, s.(started := m))
    decreases m
  {
    hide Leads;
    if m == s.started {
      LeadsNowhere(tasks, n, s);
      assert s.(started := m) == s;
    } else {
      BeginsUpTo(tasks, n, s, m - 1);
      LeadsNext(tasks, n, s, s.(started := m - 1), Begin);
    }
  }

  /** Tasks that have begun are carried through one after the other, from `i` on. */
  lemma {:induction false} AdvancesUpTo(tasks: seq<Task>, n: nat, s: State, i: nat, m: nat) returns (t: State)
    requires |s.progress| == |tasks| && |s.taken| <= i <= m <= s.started <= |tasks|
    requires forall k :: i <= k < m ==> s.progress[k] == 0
    ensures Leads(tasks, n, s, t) && t.started == s.started && t.taken == s.taken && |t.progress| == |tasks|
    ensures forall k :: 0 <= k < |tasks| ==> t.progress[k] == if i <= k < m then |tasks[k].ops| else s.progress[k]
    decreases m
  {
    hide Leads, LastBody;
    if i == m {
      LeadsNowhere(tasks, n, s);
      t := s;
    } else {
      var u := AdvancesUpTo(tasks, n, s, i, m - 1);
      t := Advances(tasks, n, u, m - 1, |tasks[m - 1].ops|, tasks[m - 1].dest);
      LeadsOn(tasks, n, s, u, t);
    }
  }

  lemma {:induction false} TakesUpTo(tasks: seq<Task>, n: nat, s: State, m: nat) returns (t: State)
    requires |s.progress| == |tasks| && |s.taken| <= m <= s.started <= |tasks|
    requires forall k :: |s.taken| <= k < m ==> s.progress[k] == |tasks[k].ops|
    ensures Leads(tasks, n, s, t) && |t.taken| == m && t.started == s.started && t.progress == s.progress && t.objects == s.objects
    decreases m
  {
    hide Leads;
    if m == |s.taken| {
      LeadsNowhere(tasks, n, s);
      t := s;
    } else {
      var u := TakesUpTo(tasks, n, s, m - 1);
      LeadsNext(tasks, n, s, u, Take);
      t := Next(tasks, n, u, Take).value;
    }
  }

  /** What a place holds after tasks `a` to `b`, one at a time. */
  function Finally(tasks: seq<Task>, a: nat, b: nat, base: Option<Bytes>, at: Location): Option<Bytes> {
    if b <= a || b > |tasks| then base
    else if WritesTo(tasks, b - 1, at) then LastBody(tasks[b - 1].ops)
    else Finally(tasks, a, b - 1, base, at)
  }

  lemma {:induction false} FinallyLast(tasks: seq<Task>, a: nat, b: nat, base: Option<Bytes>, at: Location)
    requires b <= |tasks|
    ensures (forall i: nat :: a <= i < b ==> !WritesTo(tasks, i, at)) ==> Finally(tasks, a, b, base, at) == base
    ensures forall m: nat :: a <= m < b && LastWriter(tasks, m, at) ==> Finally(tasks, a, b, base, at) == LastBody(tasks[m].ops)
    decreases b
  {
    hide LastBody;
    if a < b && !WritesTo(tasks, b - 1, at) {
      FinallyLast(tasks, a, b - 1, base, at);
    }
  }

  /** One task after the other. */
  lemma {:induction false} OneByOne(tasks: seq<Task>, n: nat, s: State, a: nat, b: nat, at: Location) returns (t: State)
    requires n >= 1 && a <= b <= |tasks| && Quiet(tasks, s, a)
    ensures Leads(tasks, n, s, t) && Quiet(tasks, t, b) && Lookup(t.objects, at) == Finally(tasks, a, b, Lookup(s.objects, at), at)
    decreases b
  {
    hide Leads, LastBody;
    if a == b {
      LeadsNowhere(tasks, n, s);
      t := s;
    } else {
      var u := OneByOne(tasks, n, s, a, b - 1, at);
      var ops := tasks[b - 1].ops;
      assert ops[..|ops|] == ops;
      BeginsUpTo(tasks, n, u, b);
      var v := Advances(tasks, n, u.(started := b), b - 1, |ops|, at);
      t := TakesUpTo(tasks, n, v, b);
      LeadsOn(tasks, n, s, u, u.(started := b));
      LeadsOn(tasks, n, s, u.(started := b), v);
      LeadsOn(tasks, n, s, v, t);
    }
  }

  /** Task `j` is begun, overtaken by the tasks up to `m`, and only then carried through. */
  lemma Overtaken(tasks: seq<Task>, n: nat, s: State, j: nat, m: nat, at: Location) returns (t: State)
    requires j <= m < |tasks| && m < j + n && Quiet(tasks, s, j) && WritesTo(tasks, j, at)
    ensures Leads(tasks, n, s, t) && Quiet(tasks, t, m + 1) && Lookup(t.objects, at) == LastBody(tasks[j].ops)
  {
    hide Leads, LastBody;
    var ops := tasks[j].ops;
    assert ops[..|ops|] == ops;
    var u := s.(started := m + 1);
    BeginsUpTo(tasks, n, s, m + 1);
    var v := AdvancesUpTo(tasks, n, u, j + 1, m + 1);
    var w := Advances(tasks, n, v, j, |ops|, at);
    t := TakesUpTo(tasks, n, w, m + 1);
    LeadsOn(tasks, n, s, u, v);
    LeadsOn(tasks, n, s, v, w);
    LeadsOn(tasks, n, s, w, t);
  }

  lemma StartsQuiet(tasks: seq<Task>, counters: map<Counter, nat>, objects: map<Location, Bytes>)
    ensures Quiet(tasks, Start(tasks, counters, objects), 0)
  {
  }

  lemma QuietEnds(tasks: seq<Task>, n: nat, counters: map<Counter, nat>, objects: map<Location, Bytes>, t: State)
    requires Leads(tasks, n, Start(tasks, counters, objects), t) && Quiet(tasks, t, |tasks|)
    ensures Ends(tasks, n, counters, objects, t)
  {
  }

  /** Near writers that disagree with the last: one run leaves its body, another theirs. */
  lemma OrderShows(
      tasks: seq<Task>, n: nat, counters: map<Counter, nat>, objects: map<Location, Bytes>, at: Location, j: nat, m: nat)
      returns (s: State, t: State)
    requires n >= 1 && WritesTo(tasks, j, at) && LastWriter(tasks, m, at) && m < j + n
    ensures Ends(tasks, n, counters, objects, s) && Lookup(s.objects, at) == LastBody(tasks[m].ops)
    ensures Ends(tasks, n, counters, objects, t) && Lookup(t.objects, at) == LastBody(tasks[j].ops)
  {
    hide Leads, LastBody, Ends, Quiet;
    var s0 := Start(tasks, counters, objects);
    StartsQuiet(tasks, counters, objects);
    s := OneByOne(tasks, n, s0, 0, |tasks|, at);
    FinallyLast(tasks, 0, |tasks|, Lookup(objects, at), at);
    QuietEnds(tasks, n, counters, objects, s);
    var u := OneByOne(tasks, n, s0, 0, j, at);
    var v := Overtaken(tasks, n, u, j, m, at);
    t := OneByOne(tasks, n, v, m + 1, |tasks|, at);
    FinallyLast(tasks, m + 1, |tasks|, Lookup(v.objects, at), at);
    LeadsOn(tasks, n, s0, u, v);
    LeadsOn(tasks, n, s0, v, t);
    QuietEnds(tasks, n, counters, objects, t);
  }

  /** All complete runs leave the same at the place. */
  ghost predicate SettledAt(tasks: seq<Task>, n: nat, counters: map<Counter, nat>, objects: map<Location, Bytes>, at: Location) {
    forall s, t :: Ends(tasks, n, counters, objects, s) && Ends(tasks, n, counters, objects, t) ==>
      Lookup(s.objects, at) == Lookup(t.objects, at)
  }

  /**
   At a concurrency of `n`, what a place ends with is independent of the schedule if and only if
   every writer of the place that can be in flight with the last one ends with the same body as it.
   */
  lemma OrderShowsIff(tasks: seq<Task>, n: nat, counters: map<Counter, nat>, objects: map<Location, Bytes>, at: Location)
    requires n >= 1
    ensures SettledAt(tasks, n, counters, objects, at) <==> NearWritersAgree(tasks, n, at)
  {
    hide Ends, LastBody;
    if NearWritersAgree(tasks, n, at) {
      forall s, t | Ends(tasks, n, counters, objects, s) && Ends(tasks, n, counters, objects, t)
        ensures Lookup(s.objects, at) == Lookup(t.objects, at)
      {
        PlacesAgree(tasks, n, n, counters, objects, s, t, at);
      }
    } else {
      var j: nat, m: nat :| WritesTo(tasks, j, at) && LastWriter(tasks, m, at) && m < j + n &&
                            LastBody(tasks[j].ops) != LastBody(tasks[m].ops);
      var s, t := OrderShows(tasks, n, counters, objects, at, j, m);
    }
  }

  /** So a batch leaves what the handler lands, on every schedule, if and only if its near effects agree. */
  lemma BatchOrderShowsIff(
      tasks: seq<Task>, work: seq<Work>, effects: seq<Effect>, names: seq<string>, n: nat,
      counters: map<Counter, nat>, objects: map<Location, Bytes>)
    requires RealizesAll(tasks, work, effects, names) && n >= 1
    ensures (forall s :: Ends(tasks, n, counters, objects, s) ==> s.objects == Land(objects, work, effects)) <==>
            NearEffectsAgree(work, effects, n)
  {
    hide Ends, LastBody, RealizesAll, Land, Lookup;
    RealizedSizes(tasks, work, effects, names);
    if NearEffectsAgree(work, effects, n) {
      forall s | Ends(tasks, n, counters, objects, s) ensures s.objects == Land(objects, work, effects) {
        ScheduleLands(tasks, work, effects, names, n, counters, objects, s);
      }
    } else {
      var at :| !NearEffectsAgreeAt(work, effects, n, at);
      RealizedNear(tasks, work, effects, names, n, at);
      var j: nat, m: nat :| WritesTo(tasks, j, at) && LastWriter(tasks, m, at) && m < j + n &&
                            LastBody(tasks[j].ops) != LastBody(tasks[m].ops);
      var s, t := OrderShows(tasks, n, counters, objects, at, j, m);
      assert Lookup(s.objects, at) != Lookup(t.objects, at);
    }
  }

  /** Two entries of different buckets and one key: each lands its own bytes in the same place. */
  function TwoWriters(at: Location, a: Bytes, b: Bytes): seq<Task> {
    [Task([Write(a)], Ok(()), at), Task([Write(b)], Ok(()), at)]
  }

  /** Their order never shows one at a time, and always may once two are in flight. */
  lemma OrderMayShow(at: Location, a: Bytes, b: Bytes, n: nat)
    requires a != b && n >= 1
    ensures SettledAt(TwoWriters(at, a, b), n, map[], map[], at) <==> n == 1
  {
    hide SettledAt;
    var tasks := TwoWriters(at, a, b);
    OrderShowsIff(tasks, n, map[], map[], at);
    assert WritesTo(tasks, 0, at) && WritesTo(tasks, 1, at) && LastWriter(tasks, 1, at);
  }
}
