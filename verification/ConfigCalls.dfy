/**
 Calls to the rules cache that overlap. The cache is locked for single looks and updates only,
 so between its awaits a call may be overtaken by other calls, and by writes to the file.

 Entries and calls carry what the statements need and the program does not keep: which
 revisions were looked at, the number of each store, and the revision current when a call began.
 */
module ConfigCalls {
  import opened Wrappers
  import opened ConfigStores

  datatype Settings<!T> = Settings(ttl: nat, compile: string -> Option<T>)

  /** What is cached; `number` counts the stores, `begun` is when the storing call began. */
  datatype Entry<T> = Entry(
    value: T, version: VersionTag, fetchedAt: nat, statAt: nat, readAt: nat, begun: nat, number: nat)

  /** How far a call has come: each constructor is what it does next. `settled` is the entry its refresh came to. */
  datatype Call<T> =
    | Idle
    | Capturing(begun: nat, now: nat)
    | Sampling(begun: nat, now: nat, version: VersionTag, seen: nat)
    | Touching(begun: nat, now: nat, seen: nat)
    | Statting(begun: nat, now: nat)
    | Reading(begun: nat, now: nat, statAt: nat)
    | Storing(begun: nat, now: nat, statAt: nat, readAt: nat)
    | Leaving(begun: nat, settled: Option<nat>)
    | Answered(begun: nat, settled: Option<nat>, answer: Option<Entry<T>>)

  datatype State<T> = State(
    history: seq<Revision>, cached: Option<Entry<T>>, calls: seq<Call<T>>, stores: nat, errors: nat)

  /** A write to the file, a call to `get` or `prime`, or one step of a call, whose operation may fail. */
  datatype Event = Write(revision: Revision) | Begin(i: nat, now: nat, prime: bool) | Step(i: nat, fails: bool)

  function Init<T>(first: Revision, n: nat): State<T> {
    State([first], None, seq(n, _ => Idle), 0, 0)
  }

  function Stale<T>(c: Settings<T>, cached: Option<Entry<T>>, now: nat): bool {
    match cached
    case None => true
    case Some(e) => (if now > e.fetchedAt then now - e.fetchedAt else 0) >= c.ttl
  }

  function Began<T>(c: Settings<T>, s: State<T>, now: nat, prime: bool): Call<T>
    requires s.history != []
  {
    var begun := |s.history| - 1;
    if prime then Statting(begun, now)
    else if Stale(c, s.cached, now) then Capturing(begun, now)
    else Leaving(begun, None)
  }

  function Failing<T>(s: State<T>, i: nat): State<T>
    requires i < |s.calls| && !s.calls[i].Idle?
  {
    s.(calls := s.calls[i := Leaving(s.calls[i].begun, None)], errors := s.errors + 1)
  }

  function StepCall<T>(c: Settings<T>, s: State<T>, i: nat, fails: bool): Option<State<T>>
    requires s.history != [] && i < |s.calls|
  {
    match s.calls[i]
    case Idle => None
    case Capturing(begun, now) =>
      Some(s.(calls := s.calls[i :=
        match s.cached
        case None => Statting(begun, now)
        case Some(e) => Sampling(begun, now, e.version, e.number)]))
    case Sampling(begun, now, version, seen) =>
      if fails then Some(Failing(s, i))
      else if TagOf(s.history[|s.history| - 1]) == version then Some(s.(calls := s.calls[i := Touching(begun, now, seen)]))
      else Some(s.(calls := s.calls[i := Statting(begun, now)]))
    case Touching(begun, now, seen) =>
      Some(s.(calls := s.calls[i := Leaving(begun, Some(seen))],
              cached := if s.cached.Some? then Some(s.cached.value.(fetchedAt := now)) else None))
    case Statting(begun, now) =>
      if fails then Some(Failing(s, i)) else Some(s.(calls := s.calls[i := Reading(begun, now, |s.history| - 1)]))
    case Reading(begun, now, statAt) =>
      if fails then Some(Failing(s, i)) else Some(s.(calls := s.calls[i := Storing(begun, now, statAt, |s.history| - 1)]))
    case Storing(begun, now, statAt, readAt) =>
      if statAt >= |s.history| || readAt >= |s.history| then None
      else
        (match c.compile(s.history[readAt].content)
         case None => Some(Failing(s, i))
         case Some(value) =>
           Some(s.(calls := s.calls[i := Leaving(begun, Some(s.stores))], stores := s.stores + 1,
                   cached := Some(Entry(value, TagOf(s.history[statAt]), now, statAt, readAt, begun, s.stores)))))
    case Leaving(begun, settled) => Some(s.(calls := s.calls[i := Answered(begun, settled, s.cached)]))
    case Answered(_, _, _) => None
  }

  function Next<T>(c: Settings<T>, s: State<T>, e: Event): Option<State<T>> {
    if s.history == [] then None
    else
      match e
      case Write(revision) => Some(s.(history := s.history + [revision]))
      case Begin(i, now, prime) =>
        if i < |s.calls| && s.calls[i].Idle? then Some(s.(calls := s.calls[i := Began(c, s, now, prime)])) else None
      case Step(i, fails) => if i < |s.calls| then StepCall(c, s, i, fails) else None
  }

  function Run<T>(c: Settings<T>, s: State<T>, events: seq<Event>): Option<State<T>> {
    if events == [] then Some(s)
    else
      var t :- Run(c, s, events[..|events| - 1]);
      Next(c, t, events[|events| - 1])
  }

  /** Some schedule leads there, from the first revision and no call begun. */
  ghost predicate Reaches<T>(c: Settings<T>, s: State<T>) {
    exists first, n: nat, events :: Run(c, Init(first, n), events) == Some(s)
  }

  // ----- Every reachable state -----

  /** The value was compiled from a revision no older than the one its tag names, itself no older than the call. */
  predicate Genuine<T(==)>(c: Settings<T>, s: State<T>, e: Entry<T>) {
    && e.begun <= e.statAt <= e.readAt < |s.history| && e.number < s.stores
    && e.version == TagOf(s.history[e.statAt]) && c.compile(s.history[e.readAt].content) == Some(e.value)
  }

  /** The entry cached is the one stored last. */
  predicate Numbered<T>(s: State<T>) {
    match s.cached
    case None => s.stores == 0
    case Some(e) => s.stores == e.number + 1
  }

  ghost predicate Settles<T>(s: State<T>, begun: nat, settled: Option<nat>) {
    settled.Some? ==>
      settled.value < s.stores &&
      (s.cached.Some? && s.cached.value.number == settled.value && TagsDistinct(s.history) ==> begun <= s.cached.value.readAt)
  }

  ghost predicate CallOk<T>(c: Settings<T>, s: State<T>, call: Call<T>) {
    (!call.Idle? ==> call.begun < |s.history|) &&
    match call
    case Sampling(_, _, version, seen) =>
      seen < s.stores && (s.cached.Some? && s.cached.value.number == seen ==> s.cached.value.version == version)
    case Touching(begun, _, seen) => Settles(s, begun, Some(seen))
    case Reading(begun, _, statAt) => begun <= statAt < |s.history|
    case Storing(begun, _, statAt, readAt) => begun <= statAt <= readAt < |s.history|
    case Leaving(begun, settled) => Settles(s, begun, settled)
    case Answered(begun, settled, answer) =>
      answer.Some? ==>
        Genuine(c, s, answer.value) &&
        (settled == Some(answer.value.number) && TagsDistinct(s.history) ==> begun <= answer.value.readAt)
    case _ => true
  }

  ghost predicate Invariant<T>(c: Settings<T>, s: State<T>) {
    && s.history != [] && (s.cached.Some? ==> Genuine(c, s, s.cached.value)) && Numbered(s)
    && forall i :: 0 <= i < |s.calls| ==> CallOk(c, s, s.calls[i])
  }

  /** What other calls see of a step: more history, and the same entry or one with a new number. */
  ghost predicate Grows<T>(s: State<T>, t: State<T>) {
    && s.history <= t.history && s.stores <= t.stores
    && (t.cached.Some? ==>
          || t.cached.value.number == s.stores < t.stores
          || (s.cached.Some? && t.cached.value == s.cached.value.(fetchedAt := t.cached.value.fetchedAt)))
  }

  lemma DistinctBefore(a: seq<Revision>, b: seq<Revision>)
    requires a <= b && TagsDistinct(b)
    ensures TagsDistinct(a)
  {
  }

  lemma OthersKeep<T>(c: Settings<T>, s: State<T>, t: State<T>, call: Call<T>)
    requires CallOk(c, s, call) && Grows(s, t)
    ensures CallOk(c, t, call)
  {
    hide TagsDistinct, TagOf;
    if TagsDistinct(t.history) {
      DistinctBefore(s.history, t.history);
    }
  }

  lemma CachedKeeps<T>(c: Settings<T>, s: State<T>, t: State<T>)
    requires s.cached.Some? && Genuine(c, s, s.cached.value) && Grows(s, t)
    ensures Genuine(c, t, s.cached.value)
  {
    hide TagOf;
  }

  lemma OneTagOneRevision(history: seq<Revision>, i: nat, j: nat)
    requires TagsDistinct(history) && i < |history| && j < |history| && TagOf(history[i]) == TagOf(history[j])
    ensures i == j
  {
  }

  /** A matching sample vouches for the entry whose version was captured. */
  lemma SampleSettles<T>(c: Settings<T>, s: State<T>, i: nat, fails: bool)
    requires Invariant(c, s) && i < |s.calls| && s.calls[i].Sampling? && StepCall(c, s, i, fails).Some?
    ensures CallOk(c, StepCall(c, s, i, fails).value, StepCall(c, s, i, fails).value.calls[i])
  {
    var call := s.calls[i];
    assert CallOk(c, s, call);
    if s.cached.Some? && s.cached.value.number == call.seen && TagsDistinct(s.history) {
      var v, e := |s.history| - 1, s.cached.value;
      if TagOf(s.history[v]) == call.version {
        OneTagOneRevision(s.history, e.statAt, v);
      }
    }
  }

  lemma CallKeeps<T>(c: Settings<T>, s: State<T>, i: nat, fails: bool)
    requires Invariant(c, s) && i < |s.calls| && StepCall(c, s, i, fails).Some?
    ensures var t := StepCall(c, s, i, fails).value;
            && Grows(s, t) && t.history != [] && |t.calls| == |s.calls| && CallOk(c, t, t.calls[i]) && (t.cached.Some? ==> Genuine(c, t, t.cached.value))
            && Numbered(t)
            && forall j :: 0 <= j < |s.calls| && j != i ==> t.calls[j] == s.calls[j]
  {
    hide TagsDistinct, TagOf;
    assert CallOk(c, s, s.calls[i]);
    if s.calls[i].Sampling? {
      SampleSettles(c, s, i, fails);
    }
  }

  lemma BeginKeeps<T>(c: Settings<T>, s: State<T>, e: Event)
    requires s.history != [] && (s.cached.Some? ==> Genuine(c, s, s.cached.value))
    requires !e.Step? && Next(c, s, e).Some?
    ensures var t := Next(c, s, e).value;
            && Grows(s, t) && t.history != [] && |t.calls| == |s.calls| && t.cached == s.cached && t.stores == s.stores
            && (t.cached.Some? ==> Genuine(c, t, t.cached.value))
            && forall j :: 0 <= j < |s.calls| ==> t.calls[j] == if e.Begin? && j == e.i then Began(c, s, e.now, e.prime) else s.calls[j]
  {
    hide TagOf, Began;
    if s.cached.Some? {
      CachedKeeps(c, s, Next(c, s, e).value);
    }
  }

  lemma StepKeeps<T>(c: Settings<T>, s: State<T>, e: Event)
    requires Invariant(c, s) && Next(c, s, e).Some?
    ensures Invariant(c, Next(c, s, e).value) && Grows(s, Next(c, s, e).value)
  {
    hide CallOk, TagsDistinct, TagOf, StepCall, Genuine, Began, Grows;
    var t := Next(c, s, e).value;
    if e.Step? {
      CallKeeps(c, s, e.i, e.fails);
    } else {
      BeginKeeps(c, s, e);
    }
    forall j | 0 <= j < |t.calls| ensures CallOk(c, t, t.calls[j]) {
      if e.Begin? && j == e.i {
        BeganOk(c, s, e.now, e.prime);
        OthersKeep(c, s, t, t.calls[j]);
      } else if !(e.Step? && j == e.i) {
        OthersKeep(c, s, t, s.calls[j]);
      }
    }
  }

  lemma BeganOk<T>(c: Settings<T>, s: State<T>, now: nat, prime: bool)
    requires s.history != []
    ensures CallOk(c, s, Began(c, s, now, prime))
  {
  }

  lemma {:induction false} RunKeeps<T>(c: Settings<T>, first: Revision, n: nat, events: seq<Event>)
    requires Run(c, Init(first, n), events).Some?
    ensures Invariant(c, Run(c, Init(first, n), events).value)
  {
    hide Next, CallOk, Genuine;
    if events == [] {
      InitOk(c, first, n);
    } else {
      RunKeeps(c, first, n, events[..|events| - 1]);
      StepKeeps(c, Run(c, Init(first, n), events[..|events| - 1]).value, events[|events| - 1]);
    }
  }

  lemma ReachedKeeps<T>(c: Settings<T>, s: State<T>)
    requires Reaches(c, s)
    ensures Invariant(c, s)
  {
    hide Run, Invariant;
    var first, n: nat, events :| Run(c, Init(first, n), events) == Some(s);
    RunKeeps(c, first, n, events);
  }

  lemma InitOk<T>(c: Settings<T>, first: Revision, n: nat)
    ensures Invariant(c, Init(first, n))
  {
  }

  // ----- What the calls are answered with -----

  /**
   However calls and writes interleave: an answer is the compile of one revision of the file. It
   is of one that was current when the call began or later, if the call's own refresh succeeded,
   no tag was used twice, and the entry answered is the one that refresh came to, or was stored
   by a call begun no earlier.
   */
  lemma AnswersAreFresh<T>(c: Settings<T>, s: State<T>, i: nat)
    requires Reaches(c, s) && i < |s.calls| && s.calls[i].Answered? && s.calls[i].answer.Some?
    ensures var (call, e) := (s.calls[i], s.calls[i].answer.value);
            && e.readAt < |s.history| && c.compile(s.history[e.readAt].content) == Some(e.value)
            && (call.settled.Some? && TagsDistinct(s.history) && (e.number == call.settled.value || call.begun <= e.begun) ==>
                  call.begun <= e.readAt)
  {
    hide Reaches, TagsDistinct, TagOf;
    ReachedKeeps(c, s);
    assert CallOk(c, s, s.calls[i]);
  }

  /**
   Where a call begins: with a load if it is to warm up; with what is cached if that was fetched
   less than a lifetime ago, or at a time yet to come; and with a refresh otherwise. Beginning
   changes nothing else.
   */
  lemma BeginGoes<T>(c: Settings<T>, s: State<T>, i: nat, now: nat, prime: bool)
    requires s.history != [] && i < |s.calls|
    ensures Next(c, s, Begin(i, now, prime)).Some? <==> s.calls[i].Idle?
    ensures s.calls[i].Idle? ==>
              var t, begun := Next(c, s, Begin(i, now, prime)).value, |s.history| - 1;
              t == s.(calls := t.calls) && t.calls == s.calls[i := t.calls[i]] &&
              if prime then t.calls[i] == Statting(begun, now)
              else if s.cached.Some? && c.ttl > 0 && now < s.cached.value.fetchedAt + c.ttl then t.calls[i] == Leaving(begun, None)
              else t.calls[i] == Capturing(begun, now)
  {
    assert s.calls[i].Idle? ==> (Stale(c, s.cached, now) <==> !(s.cached.Some? && c.ttl > 0 && now < s.cached.value.fetchedAt + c.ttl));
  }

  /** The call left to itself, with nothing failing, for so many steps. */
  function Alone<T>(c: Settings<T>, s: State<T>, i: nat, n: nat): Option<State<T>>
    requires s.history != [] && i < |s.calls|
    decreases n
  {
    if n == 0 then Some(s)
    else
      var t :- StepCall(c, s, i, false);
      if t.history == [] || i >= |t.calls| then None else Alone(c, t, i, n - 1)
  }

  /** The content is what it was before: the clock is reset, and the value answered. */
  lemma AloneTouches<T>(c: Settings<T>, s: State<T>, i: nat, now: nat)
    requires s.history != [] && i < |s.calls| && s.calls[i] == Capturing(|s.history| - 1, now)
    requires s.cached.Some? && s.cached.value.version == TagOf(s.history[|s.history| - 1])
    ensures var end, touched := Alone(c, s, i, 4), s.cached.value.(fetchedAt := now);
            && end.Some? && end.value.cached == Some(touched) && end.value.errors == s.errors && end.value.history == s.history
            && end.value.calls[i].Answered? && end.value.calls[i].answer == Some(touched)
  {
    hide TagOf;
    var a := StepCall(c, s, i, false).value;
    var b := StepCall(c, a, i, false).value;
    var d := StepCall(c, b, i, false).value;
    var e := StepCall(c, d, i, false).value;
    assert b.calls[i].Touching? && d.calls[i].Leaving? && e.calls[i].Answered?;
    assert Alone(c, e, i, 0) == Some(e);
    assert Alone(c, d, i, 1) == Some(e);
    assert Alone(c, b, i, 2) == Some(e);
    assert Alone(c, a, i, 3) == Some(e);
  }

  /** A load: what the file holds is stored under its tag and answered, if it compiles. */
  lemma AloneLoads<T>(c: Settings<T>, s: State<T>, i: nat, now: nat)
    requires s.history != [] && i < |s.calls| && s.calls[i] == Statting(|s.history| - 1, now)
    ensures var end, last := Alone(c, s, i, 4), s.history[|s.history| - 1];
            && end.Some? && end.value.history == s.history && end.value.calls[i].Answered? && end.value.calls[i].answer == end.value.cached
            && if c.compile(last.content).None? then end.value.cached == s.cached && end.value.errors == s.errors + 1
               else
                 && end.value.cached.Some? && end.value.errors == s.errors
                 && var e := end.value.cached.value;
                    e.value == c.compile(last.content).value && e.version == TagOf(last) && e.fetchedAt == now
  {
    hide TagOf;
    var a := StepCall(c, s, i, false).value;
    var b := StepCall(c, a, i, false).value;
    var d := StepCall(c, b, i, false).value;
    var e := StepCall(c, d, i, false).value;
    assert a.calls[i].Reading? && b.calls[i].Storing? && d.calls[i].Leaving? && e.calls[i].Answered?;
    assert Alone(c, e, i, 0) == Some(e);
    assert Alone(c, d, i, 1) == Some(e);
    assert Alone(c, b, i, 2) == Some(e);
    assert Alone(c, a, i, 3) == Some(e);
  }

  /**
   A refreshing call that nothing overtakes does what the cache does call by call: with nothing
   cached, or another version in the file, it loads; with the same version it resets the clock.
   */
  lemma AloneRefreshes<T>(c: Settings<T>, s: State<T>, i: nat, now: nat)
    requires s.history != [] && i < |s.calls| && s.calls[i] == Capturing(|s.history| - 1, now)
    ensures var last := s.history[|s.history| - 1];
            var same := s.cached.Some? && s.cached.value.version == TagOf(last);
            var end := Alone(c, s, i, if same then 4 else if s.cached.None? then 5 else 6);
            && end.Some? && end.value.history == s.history && end.value.calls[i].Answered? && end.value.calls[i].answer == end.value.cached
            && if same then end.value.cached == Some(s.cached.value.(fetchedAt := now)) && end.value.errors == s.errors
               else if c.compile(last.content).None? then end.value.cached == s.cached && end.value.errors == s.errors + 1
               else
                 && end.value.cached.Some? && end.value.errors == s.errors
                 && var e := end.value.cached.value;
                    e.value == c.compile(last.content).value && e.version == TagOf(last) && e.fetchedAt == now
  {
    hide TagOf;
    if s.cached.Some? && s.cached.value.version == TagOf(s.history[|s.history| - 1]) {
      AloneTouches(c, s, i, now);
    } else {
      var a := StepCall(c, s, i, false).value;
      if s.cached.None? {
        AloneLoads(c, a, i, now);
        assert Alone(c, s, i, 5) == Alone(c, a, i, 4);
      } else {
        var b := StepCall(c, a, i, false).value;
        AloneLoads(c, b, i, now);
        assert Alone(c, a, i, 5) == Alone(c, b, i, 4);
        assert Alone(c, s, i, 6) == Alone(c, a, i, 5);
      }
    }
  }

  /** A step never empties the cache; and one that fails leaves it alone. */
  lemma StepNeverEmpties<T>(c: Settings<T>, s: State<T>, e: Event)
    requires Next(c, s, e).Some?
    ensures var t := Next(c, s, e).value;
            && |t.calls| == |s.calls|
            && (s.cached.Some? ==> t.cached.Some?)
            && (t.errors != s.errors ==> t.cached == s.cached && t.errors == s.errors + 1)
            && forall i :: 0 <= i < |s.calls| && t.calls[i] != s.calls[i] && t.calls[i].Answered? ==> t.calls[i].answer == s.cached == t.cached
  {
  }

  /** Once anything has been loaded, every later answer is a value, whatever fails from then on. */
  lemma {:induction false} AnsweredOnceLoaded<T>(c: Settings<T>, s: State<T>, events: seq<Event>)
    requires s.cached.Some? && Run(c, s, events).Some?
    ensures var t := Run(c, s, events).value;
            && t.cached.Some? && |t.calls| == |s.calls|
            && forall i :: 0 <= i < |s.calls| && !s.calls[i].Answered? && t.calls[i].Answered? ==> t.calls[i].answer.Some?
  {
    hide Next;
    if events != [] {
      var k := |events| - 1;
      AnsweredOnceLoaded(c, s, events[..k]);
      StepNeverEmpties(c, Run(c, s, events[..k]).value, events[k]);
    }
  }
}
