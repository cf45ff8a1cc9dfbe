/**
 Exactly when a call to the rules cache that overlaps with others can be answered with content
 that was out of date before it began.
 */
module ConfigRaces {
  import opened Wrappers
  import opened ConfigStores
  import opened ConfigCalls

  /** Call `i` can begin, and will refresh; no tag was used twice, and the current content compiles. */
  ghost predicate AboutToRefresh<T>(c: Settings<T>, s: State<T>, i: nat, now: nat, prime: bool) {
    && i < |s.calls| && s.calls[i].Idle? && (prime || Stale(c, s.cached, now))
    && TagsDistinct(s.history) && s.history != [] && c.compile(s.history[|s.history| - 1].content).Some?
  }

  /** A call about to store content that has gone out of date since it was read. */
  predicate Lingers<T>(c: Settings<T>, s: State<T>, j: nat) {
    j < |s.calls| && s.calls[j].Storing? && s.calls[j].readAt + 1 < |s.history| && c.compile(s.history[s.calls[j].readAt].content).Some?
  }

  /** After `more`, call `i`, if its refresh succeeded, is not answered with less than what `begun` names. */
  ghost predicate FreshAfter<T>(c: Settings<T>, s: State<T>, i: nat, begun: nat, more: seq<Event>) {
    Run(c, s, more).Some? ==> AnsweredFresh(Run(c, s, more).value, i, begun)
  }

  /** However the run goes on. */
  ghost predicate NeverStale<T>(c: Settings<T>, s: State<T>, i: nat, begun: nat) {
    forall more :: FreshAfter(c, s, i, begun, more)
  }

  ghost predicate AnsweredFresh<T>(t: State<T>, i: nat, begun: nat) {
    i < |t.calls| && t.calls[i].Answered? && t.calls[i].settled.Some? && TagsDistinct(t.history) ==>
      t.calls[i].answer.Some? && begun <= t.calls[i].answer.value.readAt
  }

  /** What call `i` has to do with the stores since it began, of which the first had number `base`. */
  ghost predicate OwnPart<T>(t: State<T>, i: nat, begun: nat, base: nat) {
    i < |t.calls| &&
    match t.calls[i]
    case Idle => false
    case Sampling(b, _, _, seen) => b == begun && base <= seen + 1
    case Touching(b, _, seen) => b == begun && base <= seen + 1
    case Leaving(b, settled) => b == begun && (settled.Some? ==> base <= settled.value + 1)
    case Answered(_, _, _) => AnsweredFresh(t, i, begun)
    case call => call.begun == begun
  }

  /** Since call `i` began nothing older was stored, and nothing older will be. */
  ghost predicate Unspoilt<T>(c: Settings<T>, t: State<T>, begun: nat, base: nat) {
    && base <= t.stores && begun < |t.history|
    && (t.cached.Some? && base <= t.cached.value.number ==> begun <= t.cached.value.readAt)
    && forall j :: 0 <= j < |t.calls| ==> StoresNoOlder(c, t, j, begun)
  }

  predicate StoresNoOlder<T>(c: Settings<T>, t: State<T>, j: nat, begun: nat)
    requires j < |t.calls|
  {
    t.calls[j].Storing? && t.calls[j].readAt < begun && t.calls[j].readAt < |t.history| ==>
      c.compile(t.history[t.calls[j].readAt].content).None?
  }

  lemma StepUnspoilt<T>(c: Settings<T>, s: State<T>, e: Event, begun: nat, base: nat)
    requires Invariant(c, s) && Unspoilt(c, s, begun, base) && Next(c, s, e).Some?
    ensures Unspoilt(c, Next(c, s, e).value, begun, base)
  {
    hide TagOf, TagsDistinct, Genuine;
    var t := Next(c, s, e).value;
    forall j | 0 <= j < |t.calls| ensures StoresNoOlder(c, t, j, begun) {
      assert StoresNoOlder(c, s, j, begun);
      assert CallOk(c, s, s.calls[j]);
    }
    if e.Step? {
      assert StoresNoOlder(c, s, e.i, begun) && CallOk(c, s, s.calls[e.i]);
    }
  }

  /** At its answer: the entry is newer than its begin, or the very one it settled on. */
  lemma LeavesFresh<T>(c: Settings<T>, s: State<T>, i: nat, begun: nat, base: nat)
    requires Invariant(c, s) && Unspoilt(c, s, begun, base) && OwnPart(s, i, begun, base) && s.calls[i].Leaving?
    ensures s.calls[i].settled.Some? && TagsDistinct(s.history) ==> s.cached.Some? && begun <= s.cached.value.readAt
  {
    hide TagOf, TagsDistinct, Genuine, StoresNoOlder;
    assert CallOk(c, s, s.calls[i]);
  }

  lemma StepOwnPart<T>(c: Settings<T>, s: State<T>, e: Event, i: nat, begun: nat, base: nat)
    requires Invariant(c, s) && Unspoilt(c, s, begun, base) && OwnPart(s, i, begun, base) && Next(c, s, e).Some?
    ensures OwnPart(Next(c, s, e).value, i, begun, base)
  {
    hide TagOf, TagsDistinct, Genuine, StoresNoOlder, CallOk;
    var t := Next(c, s, e).value;
    StepKeeps(c, s, e);
    if TagsDistinct(t.history) {
      DistinctBefore(s.history, t.history);
    }
    if s.calls[i].Leaving? {
      LeavesFresh(c, s, i, begun, base);
    }
  }

  lemma {:induction false} StaysFresh<T>(c: Settings<T>, s: State<T>, i: nat, begun: nat, base: nat, more: seq<Event>)
    requires Invariant(c, s) && Unspoilt(c, s, begun, base) && OwnPart(s, i, begun, base) && Run(c, s, more).Some?
    ensures var t := Run(c, s, more).value; Invariant(c, t) && Unspoilt(c, t, begun, base) && OwnPart(t, i, begun, base)
  {
    hide Next, Invariant, Unspoilt, OwnPart;
    if more != [] {
      var k := |more| - 1;
      StaysFresh(c, s, i, begun, base, more[..k]);
      var t := Run(c, s, more[..k]).value;
      StepKeeps(c, t, more[k]);
      StepUnspoilt(c, t, more[k], begun, base);
      StepOwnPart(c, t, more[k], i, begun, base);
    }
  }

  lemma NoneLingersFresh<T>(c: Settings<T>, s: State<T>, i: nat, now: nat, prime: bool, more: seq<Event>)
    requires Invariant(c, s) && AboutToRefresh(c, s, i, now, prime)
    requires forall j: nat :: !Lingers(c, s, j)
    ensures FreshAfter(c, Next(c, s, Begin(i, now, prime)).value, i, |s.history| - 1, more)
  {
    hide Run, TagsDistinct, TagOf, CallOk, Genuine;
    var t, begun := Next(c, s, Begin(i, now, prime)).value, |s.history| - 1;
    StepKeeps(c, s, Begin(i, now, prime));
    forall j: nat | j < |t.calls| ensures StoresNoOlder(c, t, j, begun) {
      assert !Lingers(c, s, j);
    }
    if Run(c, t, more).Some? {
      StaysFresh(c, t, i, begun, s.stores, more);
      OwnAnswer(Run(c, t, more).value, i, begun, s.stores);
    }
  }

  lemma OwnAnswer<T>(t: State<T>, i: nat, begun: nat, base: nat)
    requires OwnPart(t, i, begun, base)
    ensures AnsweredFresh(t, i, begun)
  {
  }

  // ----- A schedule that overtakes -----

  lemma {:induction false} RunConcat<T>(c: Settings<T>, s: State<T>, a: seq<Event>, b: seq<Event>)
    requires Run(c, s, a).Some?
    ensures Run(c, s, a + b) == Run(c, Run(c, s, a).value, b)
  {
    hide Next;
    if b == [] {
      assert a + b == a;
    } else {
      var n := |b| - 1;
      assert (a + b)[..|a + b| - 1] == a + b[..n];
      RunConcat(c, s, a, b[..n]);
    }
  }

  lemma RunOne<T>(c: Settings<T>, s: State<T>, e: Event)
    ensures Run(c, s, [e]) == Next(c, s, e)
  {
    assert Run(c, s, [e][..0]) == Some(s);
  }

  /** One step of call `i`, and then `more`. */
  lemma StepThen<T>(c: Settings<T>, s: State<T>, i: nat, more: seq<Event>)
    requires Next(c, s, Step(i, false)).Some?
    ensures Run(c, s, [Step(i, false)] + more) == Run(c, Next(c, s, Step(i, false)).value, more)
  {
    hide Next, Run;
    RunOne(c, s, Step(i, false));
    RunConcat(c, s, [Step(i, false)], more);
  }

  /** The same state but for where call `i` is, what is cached, and how much was stored. */
  ghost predicate OnlyMoves<T>(s: State<T>, t: State<T>, i: nat) {
    t.history == s.history && |t.calls| == |s.calls| && forall j :: 0 <= j < |s.calls| && j != i ==> t.calls[j] == s.calls[j]
  }

  predicate Refreshed<T>(t: State<T>, i: nat, begun: nat) {
    i < |t.calls| && t.calls[i].Leaving? && t.calls[i].begun == begun && t.calls[i].settled.Some?
  }

  /** What is left of a refresh, when nothing fails, in steps of the call. */
  function Left<T>(call: Call<T>): nat {
    match call
    case Capturing(_, _) => 5
    case Sampling(_, _, _, _) => 4
    case Statting(_, _) => 3
    case Reading(_, _, _) => 2
    case Storing(_, _, _, _) => 1
    case Touching(_, _, _) => 1
    case _ => 0
  }

  /** A call that is refreshing, left alone on current content that compiles, succeeds. */
  lemma {:induction false} Refreshes<T>(c: Settings<T>, s: State<T>, i: nat, begun: nat) returns (more: seq<Event>)
    requires s.history != [] && c.compile(s.history[|s.history| - 1].content).Some?
    requires i < |s.calls| && !s.calls[i].Idle? && s.calls[i].begun == begun && (Left(s.calls[i]) > 0 || Refreshed(s, i, begun))
    requires s.calls[i].Reading? ==> s.calls[i].statAt < |s.history|
    requires s.calls[i].Storing? ==> s.calls[i].statAt < |s.history| && s.calls[i].readAt == |s.history| - 1
    ensures Run(c, s, more).Some? && OnlyMoves(s, Run(c, s, more).value, i) && Refreshed(Run(c, s, more).value, i, begun)
    decreases Left(s.calls[i])
  {
    hide TagOf, Run;
    if Refreshed(s, i, begun) {
      more := [];
      RunNothing(c, s);
    } else {
      var t := Next(c, s, Step(i, false)).value;
      var rest := Refreshes(c, t, i, begun);
      StepThen(c, s, i, rest);
      more := [Step(i, false)] + rest;
    }
  }

  /** A lingering call stores once the other has refreshed, and before it is answered. */
  lemma Overtakes<T>(c: Settings<T>, s: State<T>, i: nat, j: nat, begun: nat)
    requires s.history != [] && Refreshed(s, i, begun) && Lingers(c, s, j) && CallOk(c, s, s.calls[j]) && begun == |s.history| - 1
    requires TagsDistinct(s.history)
    ensures Run(c, s, [Step(j, false), Step(i, false)]).Some?
    ensures !AnsweredFresh(Run(c, s, [Step(j, false), Step(i, false)]).value, i, begun)
  {
    hide TagOf, TagsDistinct, Run;
    var t := Next(c, s, Step(j, false)).value;
    assert [Step(j, false)] + [Step(i, false)] == [Step(j, false), Step(i, false)];
    StepThen(c, s, j, [Step(i, false)]);
    RunOne(c, t, Step(i, false));
  }

  lemma LingererSpoils<T>(c: Settings<T>, s: State<T>, i: nat, now: nat, prime: bool, j: nat) returns (more: seq<Event>)
    requires Invariant(c, s) && AboutToRefresh(c, s, i, now, prime) && Lingers(c, s, j)
    ensures !FreshAfter(c, Next(c, s, Begin(i, now, prime)).value, i, |s.history| - 1, more)
  {
    hide Run, TagsDistinct, TagOf, AnsweredFresh, CallOk, Genuine;
    var b := Next(c, s, Begin(i, now, prime)).value;
    var begun := |s.history| - 1;
    StepKeeps(c, s, Begin(i, now, prime));
    var rest := Refreshes(c, b, i, begun);
    var t := Run(c, b, rest).value;
    OnlyMovesKeeps(c, b, t, i, j);
    Overtakes(c, t, i, j, begun);
    RunConcat(c, b, rest, [Step(j, false), Step(i, false)]);
    more := rest + [Step(j, false), Step(i, false)];
  }

  lemma OnlyMovesKeeps<T>(c: Settings<T>, s: State<T>, t: State<T>, i: nat, j: nat)
    requires Invariant(c, s) && OnlyMoves(s, t, i) && j != i && Lingers(c, s, j)
    ensures Lingers(c, t, j) && CallOk(c, t, t.calls[j])
  {
    hide TagOf, TagsDistinct;
    assert CallOk(c, s, s.calls[j]);
  }

  /**
   At any point of any run with no tag used twice and current content that compiles, a call that
   will refresh can never be answered, after a refresh that succeeded, with content out of date
   when it began, however it is then overtaken, if and only if no other call is at that point
   about to store content already out of date.
   */
  lemma FreshIff<T>(c: Settings<T>, s: State<T>, i: nat, now: nat, prime: bool)
    requires Reaches(c, s) && AboutToRefresh(c, s, i, now, prime)
    ensures Next(c, s, Begin(i, now, prime)).Some?
    ensures NeverStale(c, Next(c, s, Begin(i, now, prime)).value, i, |s.history| - 1) <==> forall j: nat :: !Lingers(c, s, j)
  {
    hide Run, Reaches, TagsDistinct, TagOf, FreshAfter, Invariant, Lingers;
    ReachedKeeps(c, s);
    if j: nat :| Lingers(c, s, j) {
      var more := LingererSpoils(c, s, i, now, prime, j);
    } else {
      var b, begun := Next(c, s, Begin(i, now, prime)).value, |s.history| - 1;
      forall more ensures FreshAfter(c, b, i, begun, more) {
        NoneLingersFresh(c, s, i, now, prime, more);
      }
    }
  }

  // ----- What overlap may do -----

  lemma RunSnoc<T>(c: Settings<T>, s: State<T>, events: seq<Event>, e: Event)
    requires Run(c, s, events).Some?
    ensures Run(c, s, events + [e]) == Next(c, Run(c, s, events).value, e)
  {
    hide Next;
    assert (events + [e])[..|events|] == events;
  }

  /** A call on an empty cache, up to what it has read. */
  lemma Fetches<T>(c: Settings<T>, s: State<T>, events: seq<Event>, at: State<T>, i: nat) returns (more: seq<Event>)
    requires Run(c, s, events) == Some(at)
    requires at.history != [] && at.cached.None? && i < |at.calls| && at.calls[i].Idle?
    ensures var v := |at.history| - 1; Run(c, s, more) == Some(at.(calls := at.calls[i := Storing(v, 0, v, v)]))
  {
    hide Run;
    var b := Begin(i, 0, false);
    var e := Step(i, false);
    RunSnoc(c, s, events, b);
    RunSnoc(c, s, events + [b], e);
    RunSnoc(c, s, events + [b] + [e], e);
    RunSnoc(c, s, events + [b] + [e] + [e], e);
    more := events + [b] + [e] + [e] + [e];
    var v := |at.history| - 1;
    assert at.calls[i := Capturing(v, 0)][i := Statting(v, 0)][i := Reading(v, 0, v)][i := Storing(v, 0, v, v)]
        == at.calls[i := Storing(v, 0, v, v)];
  }

  /**
   The last proviso is needed. A call that has read the file lingers; the file is written; a
   second call loads the new content; the first stores the old over it; and the second, whose
   refresh succeeded, is answered with what was out of date before it began.
   */
  lemma OvertakenMayBeStale<T>(c: Settings<T>, first: Revision, second: Revision, x: T, y: T) returns (events: seq<Event>)
    requires c.compile(first.content) == Some(x) && c.compile(second.content) == Some(y) && TagOf(first) != TagOf(second)
    ensures Run(c, Init(first, 2), events).Some?
    ensures var s := Run(c, Init(first, 2), events).value;
            && s.history == [first, second] && TagsDistinct(s.history) && |s.calls| == 2
            && s.calls[1].Answered? && s.calls[1].begun == 1 && s.calls[1].settled == Some(0)
            && s.calls[1].answer.Some? && s.calls[1].answer.value.value == x && s.calls[1].answer.value.readAt == 0
  {
    hide Run;
    var s0: State<T> := Init(first, 2);
    assert Run(c, s0, []) == Some(s0) by {
      RunNothing(c, s0);
    }
    var one := Fetches(c, s0, [], s0, 0);
    var s1 := Run(c, s0, one).value;
    RunSnoc(c, s0, one, Write(second));
    var s2 := Run(c, s0, one + [Write(second)]).value;
    var two := Fetches(c, s0, one + [Write(second)], s2, 1);
    RunSnoc(c, s0, two, Step(1, false));
    RunSnoc(c, s0, two + [Step(1, false)], Step(0, false));
    RunSnoc(c, s0, two + [Step(1, false)] + [Step(0, false)], Step(1, false));
    events := two + [Step(1, false)] + [Step(0, false)] + [Step(1, false)];
  }

  lemma RunNothing<T>(c: Settings<T>, s: State<T>)
    ensures Run(c, s, []) == Some(s)
  {
  }
}
