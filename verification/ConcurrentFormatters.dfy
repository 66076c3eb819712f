/** Loggers and appenders used by any number of threads (chord/logger.cpp:54-71, 257-322),
    in steps as fine as their locks allow. `addAppender` looks for a formatter under the
    appender's lock, releases it, and takes it again to lend its own: in that gap another
    thread may give the appender a formatter. */
module ConcurrentFormatters {
  import opened FormatterInheritance
  import opened Options

  /** Objects are known by number. */
  type Id = nat
  type Objects = World<Id, Id, Id>

  /** Where a thread is in a call on logger `l`, whose lock it then holds. */
  datatype Pc =
    | Idle
    | Checking(l: Id, a: Id)                    // addAppender, before getFormatter
    | Assigning(l: Id, a: Id, since: nat)       // it found none, at event `since`
    | Attaching(l: Id, a: Id)                   // before push_back
    | Spreading(l: Id, f: Option<Id>, done: nat)  // in setFormatter's loop

  datatype Event =
    | Gave(a: Id, f: Option<Id>)              // the appender's own setFormatter
    | FoundNone(a: Id)
    | Lent(a: Id, f: Option<Id>, since: nat)  // addAppender assigns the logger's formatter

  /** `added` are the appenders `addAppender` has been called with. */
  datatype System = System(world: Objects, threads: seq<Pc>, history: seq<Event>, added: set<Id>)

  predicate Holds(pc: Pc, l: Id) {
    !pc.Idle? && pc.l == l
  }

  predicate IsFree(s: System, l: Id) {
    forall j | 0 <= j < |s.threads| :: !Holds(s.threads[j], l)
  }

  function Goto(s: System, i: nat, pc: Pc): System
    requires i < |s.threads|
  {
    s.(threads := s.threads[i := pc])
  }

  function Log(s: System, e: Event): System {
    s.(history := s.history + [e])
  }

  function SetView(s: System, a: Id, v: AppenderView<Id>): System {
    s.(world := s.world.(appenders := s.world.appenders[a := v]))
  }

  function SetLogger(s: System, l: Id, lg: LoggerView<Id, Id>): System {
    s.(world := s.world.(loggers := s.world.loggers[l := lg]))
  }

  /** An idle thread makes a call that takes one step, or begins one of the others. */
  datatype Call =
    | Give(a: Id, f: Option<Id>)
    | Add(l: Id, a: Id)
    | Spread(l: Id, f: Option<Id>)
    | Remove(l: Id, a: Id)
    | Clear(l: Id)

  predicate CanCall(s: System, c: Call) {
    match c
    case Give(a, _) => a in s.world.appenders
    case Add(l, a) => l in s.world.loggers && a in s.world.appenders && IsFree(s, l)
    case Spread(l, _) => l in s.world.loggers && IsFree(s, l)
    case Remove(l, a) => l in s.world.loggers && a in s.world.appenders && IsFree(s, l)
    case Clear(l) => l in s.world.loggers && IsFree(s, l)
  }

  function Called(s: System, i: nat, c: Call): System
    requires i < |s.threads| && CanCall(s, c)
  {
    match c
    case Give(a, f) => Log(SetView(s, a, AppenderView(f, f.Some?)), Gave(a, f))
    case Add(l, a) => Goto(s, i, Checking(l, a)).(added := s.added + {a})
    case Spread(l, f) => Goto(SetLogger(s, l, s.world.loggers[l].(formatter := f)), i, Spreading(l, f, 0))
    case Remove(l, a) =>
      SetLogger(s, l, s.world.loggers[l].(attached := RemoveFirst(s.world.loggers[l].attached, a)))
    case Clear(l) => SetLogger(s, l, s.world.loggers[l].(attached := []))
  }

  /** The thread's next step inside a call. */
  function Stepped(s: System, i: nat): System
    requires i < |s.threads| && !s.threads[i].Idle?
    requires s.threads[i].l in s.world.loggers
    requires !s.threads[i].Spreading? ==> s.threads[i].a in s.world.appenders
  {
    match s.threads[i]
    case Checking(l, a) =>
      if s.world.appenders[a].formatter.None?
      then Log(Goto(s, i, Assigning(l, a, |s.history|)), FoundNone(a))
      else Goto(s, i, Attaching(l, a))
    case Assigning(l, a, since) =>
      var f := s.world.loggers[l].formatter;
      Log(Goto(SetView(s, a, s.world.appenders[a].(formatter := f)), i, Attaching(l, a)), Lent(a, f, since))
    case Attaching(l, a) =>
      var lg := s.world.loggers[l];
      Goto(SetLogger(s, l, lg.(attached := lg.attached + [a])), i, Idle)
    case Spreading(l, f, done) =>
      var list := s.world.loggers[l].attached;
      if done >= |list| || list[done] !in s.world.appenders then Goto(s, i, Idle)
      else
        var it := s.world.appenders[list[done]];
        Goto(if it.own then s else SetView(s, list[done], AppenderView(s.world.loggers[l].formatter, false)),
             i, Spreading(l, f, done + 1))
  }

  ghost predicate Next(s: System, s': System, i: nat) {
    && i < |s.threads|
    && if s.threads[i].Idle? then exists c :: CanCall(s, c) && s' == Called(s, i, c)
       else
         && s.threads[i].l in s.world.loggers
         && (!s.threads[i].Spreading? ==> s.threads[i].a in s.world.appenders)
         && s' == Stepped(s, i)
  }

  ghost predicate CanStep(s: System, s': System) {
    exists i: nat :: Next(s, s', i)
  }

  ghost predicate IsRun(states: seq<System>) {
    forall k | 0 < k < |states| :: CanStep(states[k - 1], states[k])
  }

  ghost predicate Start(s: System) {
    && Initial(s.world) && s.history == [] && s.added == {}
    && forall i | 0 <= i < |s.threads| :: s.threads[i] == Idle
  }

  // ------------------------------------------- when an own formatter is kept

  /** The formatter last given to the appender itself. */
  function GivenTo(h: seq<Event>, a: Id): Option<Id> {
    if h == [] then None
    else
      var last := h[|h| - 1];
      if last.Gave? && last.a == a then last.f else GivenTo(h[..|h| - 1], a)
  }

  lemma GivenSnoc(h: seq<Event>, e: Event, a: Id)
    ensures GivenTo(h + [e], a) == if e.Gave? && e.a == a then e.f else GivenTo(h, a)
  {
    assert (h + [e])[..|h|] == h;
  }

  /** An own formatter is the one last given. */
  ghost predicate Kept(s: System, a: Id) {
    a in s.world.appenders && s.world.appenders[a].own ==> s.world.appenders[a].formatter == GivenTo(s.history, a)
  }

  /** Between a check that found none, at event `since`, and the assignment at `j`, the
      appender is given its own formatter, at `i`; what is assigned is another. */
  ghost predicate FallsInTheGap(h: seq<Event>, a: Id, i: int, j: int) {
    && 0 <= i < j < |h| && h[j].Lent? && h[j].a == a
    && h[j].since < i && h[h[j].since] == FoundNone(a)
    && h[i].Gave? && h[i].a == a && h[i].f.Some? && h[i].f != h[j].f
    && forall w | i < w < j :: !(h[w].Gave? && h[w].a == a)
  }

  ghost predicate HasGapGift(h: seq<Event>, a: Id) {
    exists i, j :: FallsInTheGap(h, a, i, j)
  }

  /** The position of the last gift. */
  lemma {:induction false} LastGift(h: seq<Event>, a: Id) returns (i: nat)
    requires GivenTo(h, a).Some?
    ensures i < |h| && h[i] == Gave(a, GivenTo(h, a))
    ensures forall w | i < w < |h| :: !(h[w].Gave? && h[w].a == a)
  {
    var n := |h| - 1;
    if h[n].Gave? && h[n].a == a {
      i := n;
    } else {
      i := LastGift(h[..n], a);
    }
  }

  lemma {:induction false} GiftIsGiven(h: seq<Event>, a: Id, i: nat)
    requires i < |h| && h[i].Gave? && h[i].a == a
    requires forall w | i < w < |h| :: !(h[w].Gave? && h[w].a == a)
    ensures GivenTo(h, a) == h[i].f
  {
    if i < |h| - 1 {
      GiftIsGiven(h[..|h| - 1], a, i);
    }
  }

  /** No gap has swallowed a gift to `a`: its flag and formatter are those of the last one,
      and whoever is about to lend it a formatter checked when it had been given none. */
  ghost predicate Sound(s: System, a: Id) {
    && a in s.world.appenders
    && (s.world.appenders[a].own <==> GivenTo(s.history, a).Some?)
    && Kept(s, a)
    && forall k | 0 <= k < |s.threads| && s.threads[k].Assigning? && s.threads[k].a == a ::
         CheckedEarlier(s.history, a, s.threads[k].since)
  }

  ghost predicate CheckedEarlier(h: seq<Event>, a: Id, since: nat) {
    since < |h| && h[since] == FoundNone(a) && GivenTo(h[..since], a).None?
  }

  lemma CheckedStays(h: seq<Event>, e: Event, a: Id, since: nat)
    requires CheckedEarlier(h, a, since)
    ensures CheckedEarlier(h + [e], a, since)
  {
    assert (h + [e])[..since] == h[..since];
  }

  lemma GapStays(h: seq<Event>, e: Event, a: Id)
    requires HasGapGift(h, a)
    ensures HasGapGift(h + [e], a)
  {
    var i, j :| FallsInTheGap(h, a, i, j);
    assert forall w | 0 <= w < |h| :: (h + [e])[w] == h[w];
    assert FallsInTheGap(h + [e], a, i, j);
  }

  lemma EarlyGift(h: seq<Event>, a: Id, i: nat, since: nat)
    requires i < since <= |h| && h[i].Gave? && h[i].a == a
    requires forall w | i < w < |h| :: !(h[w].Gave? && h[w].a == a)
    ensures GivenTo(h[..since], a) == h[i].f
  {
    assert forall w | 0 <= w < since :: h[..since][w] == h[w];
    GiftIsGiven(h[..since], a, i);
  }

  /** Lending loses an own formatter exactly when the gift fell in the gap. */
  lemma LendingIntoAGift(h: seq<Event>, a: Id, f: Option<Id>, since: nat)
    requires CheckedEarlier(h, a, since) && GivenTo(h, a).Some? && GivenTo(h, a) != f
    ensures HasGapGift(h + [Lent(a, f, since)], a)
  {
    var i := LastGift(h, a);
    var h' := h + [Lent(a, f, since)];
    if i < since { EarlyGift(h, a, i, since); }
    assert since < i;
    assert forall w | 0 <= w < |h| :: h'[w] == h[w];
    assert FallsInTheGap(h', a, i, |h|);
  }

  /** A gift in the gap is a moment at which the own formatter is not the last given. */
  lemma NoGapGiftNow(h: seq<Event>, e: Event, a: Id)
    requires !HasGapGift(h, a) && HasGapGift(h + [e], a)
    ensures e.Lent? && e.a == a && GivenTo(h, a).Some? && GivenTo(h, a) != e.f
  {
    var h' := h + [e];
    var i, j :| FallsInTheGap(h', a, i, j);
    if j < |h| { GapInFront(h, e, a, i, j); }
    assert j == |h| && forall w | 0 <= w < |h| :: h'[w] == h[w];
    GiftIsGiven(h, a, i);
  }

  lemma GapInFront(h: seq<Event>, e: Event, a: Id, i: int, j: int)
    requires FallsInTheGap(h + [e], a, i, j) && j < |h|
    ensures FallsInTheGap(h, a, i, j)
  {
    assert forall w | 0 <= w < |h| :: (h + [e])[w] == h[w];
  }

  /** Steps that do not touch `a` or record anything about it. */
  ghost predicate LeavesAlone(s: System, s': System, a: Id) {
    && a in s.world.appenders && a in s'.world.appenders
    && s'.world.appenders[a].own == s.world.appenders[a].own
    && (s.world.appenders[a].own ==> s'.world.appenders[a].formatter == s.world.appenders[a].formatter)
    && |s'.threads| == |s.threads|
    && forall k | 0 <= k < |s.threads| && s'.threads[k].Assigning? && s'.threads[k].a == a ::
         s'.threads[k] == s.threads[k]
         || (s'.threads[k].since == |s.history| && s'.history == s.history + [FoundNone(a)]
             && s.world.appenders[a].formatter.None?)
  }

  lemma QuietlySound(s: System, s': System, a: Id)
    requires Sound(s, a) && !HasGapGift(s.history, a) && LeavesAlone(s, s', a)
    requires s'.history == s.history
             || exists e :: s'.history == s.history + [e] && !(e.Gave? && e.a == a) && !(e.Lent? && e.a == a)
    ensures Sound(s', a) && !HasGapGift(s'.history, a)
  {
    if s'.history != s.history {
      var e :| s'.history == s.history + [e] && !(e.Gave? && e.a == a) && !(e.Lent? && e.a == a);
      GivenSnoc(s.history, e, a);
      if HasGapGift(s'.history, a) { NoGapGiftNow(s.history, e, a); }
      forall k | 0 <= k < |s'.threads| && s'.threads[k].Assigning? && s'.threads[k].a == a
        ensures CheckedEarlier(s'.history, a, s'.threads[k].since)
      {
        if s'.threads[k] == s.threads[k] {
          CheckedStays(s.history, e, a, s.threads[k].since);
        } else {
          assert s'.history[..|s.history|] == s.history;
        }
      }
    }
  }

  /** What may happen to `a` in one step: nothing it can see, a gift, or a loan. */
  lemma OneStep(s: System, s': System, i: nat, a: Id)
    requires Sound(s, a) && !HasGapGift(s.history, a) && Next(s, s', i)
    ensures if HasGapGift(s'.history, a) then !Kept(s', a) else Sound(s', a)
  {
    if s.threads[i].Idle? {
      var c :| CanCall(s, c) && s' == Called(s, i, c);
      if c.Give? && c.a == a {
        GiftIsSound(s, s', c.f, a);
      } else {
        hide Sound, HasGapGift;
        QuietCall(s, s', i, c, a);
        QuietlySound(s, s', a);
      }
    } else if s.threads[i].Assigning? && s.threads[i].a == a {
      LoanIsSoundOrLoses(s, s', i, a);
    } else {
      hide Sound, HasGapGift;
      QuietStep(s, s', i, a);
      QuietlySound(s, s', a);
    }
  }

  lemma QuietCall(s: System, s': System, i: nat, c: Call, a: Id)
    requires a in s.world.appenders && i < |s.threads| && s.threads[i].Idle?
    requires CanCall(s, c) && s' == Called(s, i, c) && !(c.Give? && c.a == a)
    ensures LeavesAlone(s, s', a)
    ensures s'.history == s.history
            || exists e :: s'.history == s.history + [e] && !(e.Gave? && e.a == a) && !(e.Lent? && e.a == a)
  {
    if c.Give? {
      var e := Gave(c.a, c.f);
      assert s'.history == s.history + [e];
    }
  }

  lemma QuietStep(s: System, s': System, i: nat, a: Id)
    requires a in s.world.appenders && Next(s, s', i)
    requires !s.threads[i].Idle? && !(s.threads[i].Assigning? && s.threads[i].a == a)
    ensures LeavesAlone(s, s', a)
    ensures s'.history == s.history
            || exists e :: s'.history == s.history + [e] && !(e.Gave? && e.a == a) && !(e.Lent? && e.a == a)
  {
    match s.threads[i]
    case Checking(l, b) =>
      if s.world.appenders[b].formatter.None? {
        var e := FoundNone(b);
        assert s'.history == s.history + [e];
      }
    case Assigning(l, b, since) =>
      var e := Lent(b, s.world.loggers[l].formatter, since);
      assert s'.history == s.history + [e];
    case _ =>
  }

  lemma GiftIsSound(s: System, s': System, f: Option<Id>, a: Id)
    requires Sound(s, a) && !HasGapGift(s.history, a)
    requires s' == Log(SetView(s, a, AppenderView(f, f.Some?)), Gave(a, f))
    ensures Sound(s', a) && !HasGapGift(s'.history, a)
  {
    var e := Gave(a, f);
    GivenSnoc(s.history, e, a);
    if HasGapGift(s'.history, a) { NoGapGiftNow(s.history, e, a); }
    forall k | 0 <= k < |s.threads| && s.threads[k].Assigning? && s.threads[k].a == a
      ensures CheckedEarlier(s'.history, a, s.threads[k].since)
    {
      CheckedStays(s.history, e, a, s.threads[k].since);
    }
  }

  lemma LoanIsSoundOrLoses(s: System, s': System, i: nat, a: Id)
    requires Sound(s, a) && !HasGapGift(s.history, a) && Next(s, s', i)
    requires s.threads[i].Assigning? && s.threads[i].a == a
    ensures if HasGapGift(s'.history, a) then !Kept(s', a) else Sound(s', a)
  {
    var Assigning(l, _, since) := s.threads[i];
    var f := s.world.loggers[l].formatter;
    var e := Lent(a, f, since);
    assert s'.history == s.history + [e];
    GivenSnoc(s.history, e, a);
    var given := GivenTo(s.history, a);
    if given.Some? && given != f {
      LendingIntoAGift(s.history, a, f, since);
    } else {
      if HasGapGift(s'.history, a) { NoGapGiftNow(s.history, e, a); }
      forall k | 0 <= k < |s'.threads| && s'.threads[k].Assigning? && s'.threads[k].a == a
        ensures CheckedEarlier(s'.history, a, s'.threads[k].since)
      {
        CheckedStays(s.history, e, a, s.threads[k].since);
      }
    }
  }

  lemma NextGrows(s: System, s': System, i: nat, a: Id)
    requires Next(s, s', i) && HasGapGift(s.history, a)
    ensures HasGapGift(s'.history, a)
  {
    if s'.history != s.history {
      assert |s'.history| == |s.history| + 1 && s'.history == s.history + [s'.history[|s.history|]];
      GapStays(s.history, s'.history[|s.history|], a);
    }
  }

  lemma {:induction false} SoundOrLost(states: seq<System>, k: nat, a: Id)
    requires k < |states| && IsRun(states) && Start(states[0]) && a in states[0].world.appenders
    ensures if HasGapGift(states[k].history, a) then exists n: nat :: n <= k && !Kept(states[n], a)
            else Sound(states[k], a) && forall n | 0 <= n <= k :: Kept(states[n], a)
  {
    if k > 0 {
      SoundOrLost(states, k - 1, a);
      assert CanStep(states[k - 1], states[k]);
      var i: nat :| Next(states[k - 1], states[k], i);
      hide Next, Start, IsRun;
      if HasGapGift(states[k - 1].history, a) {
        NextGrows(states[k - 1], states[k], i, a);
      } else {
        OneStep(states[k - 1], states[k], i, a);
      }
    }
  }

  /** In every interleaving, an appender's own formatter has been the one last given to it at
      every moment so far if and only if none was given to it between a check that found none
      and the assignment of another. */
  lemma {:induction false} OwnFormatterIsKeptIff(states: seq<System>, k: nat, a: Id)
    requires k < |states| && IsRun(states) && Start(states[0]) && a in states[0].world.appenders
    ensures (forall n | 0 <= n <= k :: Kept(states[n], a)) <==> !HasGapGift(states[k].history, a)
  {
    SoundOrLost(states, k, a);
  }

  // ------------------------------------------------------ a run that loses one

  function Two(it: AppenderView<Id>, attached: seq<Id>, pc: Pc, history: seq<Event>, added: set<Id>): System {
    System(World(map[0 := LoggerView(Some(10), attached)], map[5 := it]), [pc, Idle], history, added)
  }

  const NONE_YET: AppenderView<Id> := AppenderView(None, false)
  const FOUND: seq<Event> := [FoundNone(5)]
  const GIVEN: seq<Event> := [FoundNone(5), Gave(5, Some(20))]
  const LENT: seq<Event> := [FoundNone(5), Gave(5, Some(20)), Lent(5, Some(10), 0)]

  /** Logger 0 adds appender 5, and finds that it has no formatter. */
  lemma TheCheck() returns (states: seq<System>)
    ensures |states| == 3 && IsRun(states) && Start(states[0])
    ensures states[2] == Two(NONE_YET, [], Assigning(0, 5, 0), FOUND, {5})
  {
    var s0, s1 := Two(NONE_YET, [], Idle, [], {}), Two(NONE_YET, [], Checking(0, 5), [], {5});
    var s2 := Two(NONE_YET, [], Assigning(0, 5, 0), FOUND, {5});
    assert CanCall(s0, Add(0, 5)) && s1 == Called(s0, 0, Add(0, 5));
    assert Next(s0, s1, 0) && Next(s1, s2, 0);
    states := [s0, s1, s2];
  }

  /** Another thread gives it formatter 20; then it is lent the logger's, and attached. */
  lemma TheLoss() returns (states: seq<System>)
    ensures |states| == 4 && IsRun(states)
    ensures states[0] == Two(NONE_YET, [], Assigning(0, 5, 0), FOUND, {5})
    ensures states[3] == Two(AppenderView(Some(10), true), [5], Idle, LENT, {5})
  {
    var own, lost := AppenderView(Some(20), true), AppenderView(Some(10), true);
    var s2, s3 := Two(NONE_YET, [], Assigning(0, 5, 0), FOUND, {5}), Two(own, [], Assigning(0, 5, 0), GIVEN, {5});
    var s4, s5 := Two(lost, [], Attaching(0, 5), LENT, {5}), Two(lost, [5], Idle, LENT, {5});
    assert CanCall(s2, Give(5, Some(20))) && s3 == Called(s2, 1, Give(5, Some(20)));
    assert s4 == Stepped(s3, 0);
    assert s4.world.loggers[0].attached + [5] == [5];
    assert s5 == Stepped(s4, 0);
    assert Next(s2, s3, 1) && Next(s3, s4, 0) && Next(s4, s5, 0);
    states := [s2, s3, s4, s5];
  }

  lemma RunsJoin(r: seq<System>, t: seq<System>)
    requires r != [] && t != [] && IsRun(r) && IsRun(t) && r[|r| - 1] == t[0]
    ensures IsRun(r + t[1..])
  {
    var joined := r + t[1..];
    forall k | 0 < k < |joined| ensures CanStep(joined[k - 1], joined[k]) {
      if k < |r| {
        assert CanStep(r[k - 1], r[k]);
      } else {
        assert CanStep(t[k - |r|], t[k - |r| + 1]);
      }
    }
  }

  /** While logger 0 adds appender 5, another thread gives the appender formatter 20: it ends
      with the logger's, 10, marked as its own. */
  lemma AGiftInTheGapIsLost() returns (states: seq<System>)
    ensures states != [] && IsRun(states) && Start(states[0])
    ensures var s := states[|states| - 1];
            && (forall i | 0 <= i < |s.threads| :: s.threads[i] == Idle)
            && GivenTo(s.history, 5) == Some(20)
            && 5 in s.world.appenders && s.world.appenders[5] == AppenderView(Some(10), true)
            && HasGapGift(s.history, 5)
  {
    var check := TheCheck();
    var loss := TheLoss();
    RunsJoin(check, loss);
    states := check + loss[1..];
    hide IsRun, Start;
    assert GIVEN == FOUND + [Gave(5, Some(20))] && LENT == GIVEN + [Lent(5, Some(10), 0)];
    GivenSnoc(FOUND, Gave(5, Some(20)), 5);
    GivenSnoc(GIVEN, Lent(5, Some(10), 0), 5);
    assert FallsInTheGap(LENT, 5, 1, 2);
  }

  // ---------------------------------------------------- one call at a time

  predicate CanGoOn(s: System, i: nat) {
    && i < |s.threads|
    && (!s.threads[i].Idle? ==> s.threads[i].l in s.world.loggers)
    && (!s.threads[i].Idle? && !s.threads[i].Spreading? ==> s.threads[i].a in s.world.appenders)
  }

  function StepsLeft(s: System, i: nat): nat
    requires CanGoOn(s, i)
  {
    match s.threads[i]
    case Idle => 0
    case Checking(_, _) => 3
    case Assigning(_, _, _) => 2
    case Attaching(_, _) => 1
    case Spreading(l, _, done) =>
      var n := |s.world.loggers[l].attached|;
      if done < n then n - done + 1 else 1
  }

  /** Thread `i` runs to the end of its call while the others wait. */
  function Alone(s: System, i: nat): System
    requires CanGoOn(s, i)
    decreases StepsLeft(s, i)
  {
    if s.threads[i].Idle? then s else Alone(Stepped(s, i), i)
  }

  /** An `addAppender` that no other call interrupts is the operation of the sequential
      model. */
  lemma AddAloneIsOneStep(s: System, i: nat, l: Id, a: Id)
    requires i < |s.threads| && s.threads[i].Idle? && CanCall(s, Add(l, a))
    ensures Alone(Called(s, i, Add(l, a)), i).world == Step(s.world, AddAppender(l, a))
  {
    var s1 := Called(s, i, Add(l, a));
    var s2 := Stepped(s1, i);
    var s3 := Stepped(s2, i);
    assert Alone(s1, i) == Alone(s2, i) == Alone(s3, i);
    if s3.threads[i].Idle? {
      assert Alone(s3, i) == s3;
    } else {
      var s4 := Stepped(s3, i);
      assert Alone(s3, i) == Alone(s4, i) == s4;
      assert s4.world.appenders == Step(s.world, AddAppender(l, a)).appenders;
    }
  }

  /** The calls of one step do what the sequential operations do, and a gift is recorded. */
  lemma OtherCallsAreOneStep(s: System, i: nat, l: Id, a: Id, f: Option<Id>)
    requires i < |s.threads| && s.threads[i].Idle?
    ensures CanCall(s, Give(a, f)) ==>
              && Called(s, i, Give(a, f)).world == Step(s.world, SetAppenderFormatter(a, f))
              && Called(s, i, Give(a, f)).history == s.history + [Gave(a, f)]
    ensures CanCall(s, Remove(l, a)) ==> Called(s, i, Remove(l, a)).world == Step(s.world, DelAppender(l, a))
    ensures CanCall(s, Clear(l)) ==> Called(s, i, Clear(l)).world == Step(s.world, ClearAppenders(l))
  {}

  lemma {:induction false} SpreadsOverTheRest(s: System, i: nat, l: Id, f: Option<Id>, done: nat)
    requires CanGoOn(s, i) && s.threads[i] == Spreading(l, f, done) && done <= |s.world.loggers[l].attached|
    requires forall b | b in s.world.loggers[l].attached :: b in s.world.appenders
    ensures var t, rest := Alone(s, i).world, s.world.loggers[l].attached[done..];
            && t.loggers == s.world.loggers && t.appenders.Keys == s.world.appenders.Keys
            && forall b | b in t.appenders ::
                 t.appenders[b] == if b in rest && !s.world.appenders[b].own
                                   then AppenderView(s.world.loggers[l].formatter, false) else s.world.appenders[b]
    decreases |s.world.loggers[l].attached| - done
  {
    var list := s.world.loggers[l].attached;
    var s1 := Stepped(s, i);
    assert Alone(s, i) == Alone(s1, i);
    if done < |list| {
      assert list[done] in list && list[done..] == [list[done]] + list[done + 1..];
      SpreadsOverTheRest(s1, i, l, f, done + 1);
      hide Alone;
    }
  }

  /** And so is `setFormatter`. */
  lemma SpreadAloneIsOneStep(s: System, i: nat, l: Id, f: Option<Id>)
    requires i < |s.threads| && s.threads[i].Idle? && CanCall(s, Spread(l, f))
    requires forall b | b in s.world.loggers[l].attached :: b in s.world.appenders
    ensures Alone(Called(s, i, Spread(l, f)), i).world == Step(s.world, SetFormatter(l, f))
  {
    var s1 := Called(s, i, Spread(l, f));
    SpreadsOverTheRest(s1, i, l, f, 0);
    hide Alone;
    assert s1.world.loggers[l].attached[0..] == s.world.loggers[l].attached;
    assert Alone(s1, i).world.appenders == Step(s.world, SetFormatter(l, f)).appenders;
  }

  // ------------------------------------------ inheritance, in every interleaving

  /** The intended use: formatters are not null, and an appender is attached once. */
  predicate IsIntended(s: System, c: Call) {
    && (c.Give? ==> c.f.Some?)
    && (c.Spread? ==> c.f.Some?)
    && (c.Add? ==> c.a !in s.added)
  }

  ghost predicate NextIntended(s: System, s': System, i: nat) {
    && i < |s.threads|
    && if s.threads[i].Idle? then exists c :: CanCall(s, c) && IsIntended(s, c) && s' == Called(s, i, c)
       else Next(s, s', i)
  }

  ghost predicate CanStepIntended(s: System, s': System) {
    exists i: nat :: NextIntended(s, s', i)
  }

  ghost predicate IsIntendedRun(states: seq<System>) {
    forall k | 0 < k < |states| :: CanStepIntended(states[k - 1], states[k])
  }

  predicate IsAdding(pc: Pc) {
    pc.Checking? || pc.Assigning? || pc.Attaching?
  }

  /** Attached to some logger. */
  ghost predicate InUse(w: Objects, a: Id) {
    exists l :: l in w.loggers && a in w.loggers[l].attached
  }

  /** A logger's lock keeps its calls apart, and an appender is in one place. */
  ghost predicate Apart(s: System) {
    && (forall j, k | 0 <= j < |s.threads| && 0 <= k < |s.threads| && j != k
          && !s.threads[j].Idle? && !s.threads[k].Idle? :: s.threads[j].l != s.threads[k].l)
    && (forall j, k | 0 <= j < |s.threads| && 0 <= k < |s.threads| && j != k
          && IsAdding(s.threads[j]) && IsAdding(s.threads[k]) :: s.threads[j].a != s.threads[k].a)
    && (forall j | 0 <= j < |s.threads| && IsAdding(s.threads[j]) ::
          s.threads[j].a in s.added && s.threads[j].a in s.world.appenders && !InUse(s.world, s.threads[j].a))
    && (forall j | 0 <= j < |s.threads| && !s.threads[j].Idle? :: s.threads[j].l in s.world.loggers)
    && (forall l, a | l in s.world.loggers && a in s.world.loggers[l].attached ::
          a in s.added && a in s.world.appenders)
    && (forall l, k, a | l in s.world.loggers && k in s.world.loggers && l != k
          && a in s.world.loggers[l].attached :: a !in s.world.loggers[k].attached)
  }

  ghost predicate Fits(s: System, l: Id, a: Id) {
    l in s.world.loggers && a in s.world.appenders && FitsIn(s.world.loggers[l], s.world.appenders[a])
  }

  /** `n` of a logger's appenders, in order, hold the right formatter. */
  ghost predicate FitsUpTo(s: System, l: Id, n: nat) {
    && l in s.world.loggers && n <= |s.world.loggers[l].attached|
    && forall k | 0 <= k < n :: Fits(s, l, s.world.loggers[l].attached[k])
  }

  ghost predicate ThreadFits(s: System, pc: Pc) {
    match pc
    case Idle => true
    case Checking(_, a) => a in s.world.appenders && (s.world.appenders[a].own || s.world.appenders[a].formatter.None?)
    case Assigning(_, _, _) => true
    case Attaching(l, a) => Fits(s, l, a)
    case Spreading(l, _, done) => FitsUpTo(s, l, done)
  }

  predicate IsSpreading(s: System, l: Id) {
    exists j | 0 <= j < |s.threads| :: s.threads[j].Spreading? && s.threads[j].l == l
  }

  ghost predicate AllFit(s: System, l: Id)
    requires l in s.world.loggers
  {
    forall a | a in s.world.loggers[l].attached :: Fits(s, l, a)
  }

  ghost predicate Settled(s: System) {
    && (forall l | l in s.world.loggers :: s.world.loggers[l].formatter.Some?)
    && (forall a | a in s.world.appenders && s.world.appenders[a].own :: s.world.appenders[a].formatter.Some?)
    && (forall a | a in s.world.appenders && a !in s.added ::
          s.world.appenders[a].own || s.world.appenders[a].formatter.None?)
    && (forall j | 0 <= j < |s.threads| :: ThreadFits(s, s.threads[j]))
    && (forall l | l in s.world.loggers && !IsSpreading(s, l) :: AllFit(s, l))
  }

  lemma StartIsSettled(s: System)
    requires Start(s)
    ensures Apart(s) && Settled(s)
  {}

  // Each kind of step keeps the appenders apart and settled.

  /** No thread moves, what fitted still fits, and lists shrink only where nobody is going
      through them. */
  lemma NobodyMoves(s: System, s': System)
    requires Settled(s) && s'.threads == s.threads && s'.added == s.added
    requires s'.world.loggers.Keys == s.world.loggers.Keys && s'.world.appenders.Keys == s.world.appenders.Keys
    requires forall l | l in s.world.loggers :: s'.world.loggers[l].formatter == s.world.loggers[l].formatter
    requires forall l | l in s.world.loggers && IsSpreading(s, l) ::
               s'.world.loggers[l].attached == s.world.loggers[l].attached
    requires forall l, a | l in s.world.loggers && a in s'.world.loggers[l].attached :: a in s.world.loggers[l].attached
    requires forall a | a in s.world.appenders ::
               s'.world.appenders[a] == s.world.appenders[a]
               || (s'.world.appenders[a].own && s'.world.appenders[a].formatter.Some?)
    ensures Settled(s')
  {
    assert forall l, a | Fits(s, l, a) :: Fits(s', l, a);
    hide FitsIn;
    forall j | 0 <= j < |s'.threads| ensures ThreadFits(s', s'.threads[j]) {
      assert ThreadFits(s, s.threads[j]);
      if s.threads[j].Spreading? { assert IsSpreading(s, s.threads[j].l); }
    }
    forall l | l in s'.world.loggers && !IsSpreading(s', l) ensures AllFit(s', l) {
      assert !IsSpreading(s, l) && AllFit(s, l);
    }
  }

  lemma GiveStep(s: System, s': System, a: Id, f: Id)
    requires Apart(s) && Settled(s) && a in s.world.appenders
    requires s' == Log(SetView(s, a, AppenderView(Some(f), true)), Gave(a, Some(f)))
    ensures Apart(s') && Settled(s')
  {
    SameUse(s.world, s'.world);
    hide InUse, Settled;
    NobodyMoves(s, s');
  }

  /** Only thread `i` moves, and the objects stay: what it needs it still has. */
  lemma OnlyMoves(s: System, s': System, i: nat, pc: Pc)
    requires Apart(s) && Settled(s) && i < |s.threads| && s'.threads == s.threads[i := pc]
    requires s'.world == s.world && s.added <= s'.added && ThreadFits(s', pc)
    requires forall a | a in s.world.appenders && a !in s.added ::
               s.world.appenders[a].own || s.world.appenders[a].formatter.None?
    requires !pc.Spreading? && (s.threads[i].Spreading? ==> AllFit(s, s.threads[i].l))
    ensures Settled(s')
  {
    assert forall l, b :: Fits(s', l, b) <==> Fits(s, l, b);
    forall j | 0 <= j < |s'.threads| ensures ThreadFits(s', s'.threads[j]) {
      if j != i { assert ThreadFits(s, s.threads[j]); }
    }
    forall l | l in s'.world.loggers && !IsSpreading(s', l) ensures AllFit(s', l) {
      if !(s.threads[i].Spreading? && s.threads[i].l == l) { StillSpreading(s, s', i, l); }
      assert AllFit(s, l);
    }
  }

  lemma AddKeepsApart(s: System, s': System, i: nat, l: Id, a: Id)
    requires Apart(s) && i < |s.threads| && s.threads[i].Idle?
    requires CanCall(s, Add(l, a)) && a !in s.added && s' == Called(s, i, Add(l, a))
    ensures Apart(s')
  {
    assert !InUse(s.world, a);
    assert forall j | 0 <= j < |s.threads| :: !Holds(s.threads[j], l);
    hide InUse;
  }

  lemma AddStep(s: System, s': System, i: nat, l: Id, a: Id)
    requires Apart(s) && Settled(s) && i < |s.threads| && s.threads[i].Idle?
    requires CanCall(s, Add(l, a)) && a !in s.added && s' == Called(s, i, Add(l, a))
    ensures Apart(s') && Settled(s')
  {
    AddKeepsApart(s, s', i, l, a);
    NotYetAdded(s, a);
    hide Apart, Settled;
    OnlyMoves(s, s', i, Checking(l, a));
  }

  lemma NotYetAdded(s: System, a: Id)
    requires Settled(s)
    ensures forall b | b in s.world.appenders && b !in s.added ::
              s.world.appenders[b].own || s.world.appenders[b].formatter.None?
  {}

  /** The lists stay, and thread `i` stays with its logger and appender or is done with
      them. */
  lemma StaysApart(s: System, s': System, i: nat, pc: Pc)
    requires Apart(s) && i < |s.threads| && s'.threads == s.threads[i := pc] && s'.added == s.added
    requires s'.world.loggers.Keys == s.world.loggers.Keys && s'.world.appenders.Keys == s.world.appenders.Keys
    requires forall l | l in s.world.loggers :: s'.world.loggers[l].attached == s.world.loggers[l].attached
    requires !pc.Idle? ==> !s.threads[i].Idle? && pc.l == s.threads[i].l
    requires IsAdding(pc) ==> IsAdding(s.threads[i]) && pc.a == s.threads[i].a
    ensures Apart(s')
  {
    SameUse(s.world, s'.world);
    hide InUse;
  }

  lemma SameUse(w: Objects, w': Objects)
    requires w'.loggers.Keys == w.loggers.Keys
    requires forall l | l in w.loggers :: w'.loggers[l].attached == w.loggers[l].attached
    ensures forall a :: InUse(w', a) <==> InUse(w, a)
  {
    forall a ensures InUse(w', a) <==> InUse(w, a) {
      if l :| l in w.loggers && a in w.loggers[l].attached { assert a in w'.loggers[l].attached; }
    }
  }

  lemma CheckStep(s: System, s': System, i: nat)
    requires Apart(s) && Settled(s) && Next(s, s', i) && s.threads[i].Checking?
    ensures Apart(s') && Settled(s')
  {
    var Checking(l, a) := s.threads[i];
    assert ThreadFits(s, s.threads[i]) && s.world.loggers[l].formatter.Some?;
    assert s.world.appenders[a].own ==> s.world.appenders[a].formatter.Some?;
    NotYetAdded(s, a);
    hide Apart, Settled;
    StaysApart(s, s', i, s'.threads[i]);
    OnlyMoves(s, s', i, s'.threads[i]);
  }

  /** `a` is lent a formatter: nobody else is adding it, and it is attached nowhere. */
  lemma AssignStep(s: System, s': System, i: nat)
    requires Apart(s) && Settled(s) && Next(s, s', i) && s.threads[i].Assigning?
    ensures Apart(s') && Settled(s')
  {
    var Assigning(l, a, _) := s.threads[i];
    StaysApart(s, s', i, s'.threads[i]);
    assert !InUse(s.world, a);
    assert forall k, b | b != a :: Fits(s', k, b) <==> Fits(s, k, b);
    assert Fits(s', l, a);
    forall j | 0 <= j < |s'.threads| ensures ThreadFits(s', s'.threads[j]) {
      if j != i { assert ThreadFits(s, s.threads[j]); }
    }
    forall k | k in s'.world.loggers && !IsSpreading(s', k) ensures AllFit(s', k) {
      StillSpreading(s, s', i, k);
      assert AllFit(s, k) && a !in s.world.loggers[k].attached;
    }
  }

  lemma StillSpreading(s: System, s': System, i: nat, l: Id)
    requires i < |s.threads| && |s'.threads| == |s.threads|
    requires forall j | 0 <= j < |s.threads| && j != i :: s'.threads[j] == s.threads[j]
    requires !(s.threads[i].Spreading? && s.threads[i].l == l) && !IsSpreading(s', l)
    ensures !IsSpreading(s, l)
  {
    forall j | 0 <= j < |s.threads| ensures !(s.threads[j].Spreading? && s.threads[j].l == l) {
      assert j != i ==> s'.threads[j] == s.threads[j];
    }
  }

  lemma AttachStep(s: System, s': System, i: nat)
    requires Apart(s) && Settled(s) && Next(s, s', i) && s.threads[i].Attaching?
    ensures Apart(s') && Settled(s')
  {
    var Attaching(l, a) := s.threads[i];
    AttachKeepsApart(s, s', i);
    assert ThreadFits(s, s.threads[i]);
    assert forall k, b | Fits(s, k, b) :: Fits(s', k, b);
    forall j | 0 <= j < |s'.threads| ensures ThreadFits(s', s'.threads[j]) {
      if j != i {
        assert ThreadFits(s, s.threads[j]);
        assert !s.threads[j].Idle? ==> s.threads[j].l != l;
      }
    }
    forall k | k in s'.world.loggers && !IsSpreading(s', k) ensures AllFit(s', k) {
      StillSpreading(s, s', i, k);
      assert AllFit(s, k);
    }
  }

  lemma AttachKeepsApart(s: System, s': System, i: nat)
    requires Apart(s) && Next(s, s', i) && s.threads[i].Attaching?
    ensures Apart(s')
  {
    var Attaching(l, a) := s.threads[i];
    assert !InUse(s.world, a);
    forall j | 0 <= j < |s'.threads| && IsAdding(s'.threads[j]) ensures !InUse(s'.world, s'.threads[j].a) {
      assert !InUse(s.world, s.threads[j].a) && s.threads[j].a != a;
    }
  }

  lemma ShrinkKeepsApart(s: System, s': System, l: Id, list: seq<Id>)
    requires Apart(s) && l in s.world.loggers
    requires forall a | a in list :: a in s.world.loggers[l].attached
    requires s' == SetLogger(s, l, s.world.loggers[l].(attached := list))
    ensures Apart(s')
  {
    assert forall b | InUse(s'.world, b) :: InUse(s.world, b);
  }

  lemma ShrinkStep(s: System, s': System, l: Id, list: seq<Id>)
    requires Apart(s) && Settled(s) && l in s.world.loggers && IsFree(s, l)
    requires forall a | a in list :: a in s.world.loggers[l].attached
    requires s' == SetLogger(s, l, s.world.loggers[l].(attached := list))
    ensures Apart(s') && Settled(s')
  {
    ShrinkKeepsApart(s, s', l, list);
    assert !IsSpreading(s, l) by { assert forall j | 0 <= j < |s.threads| :: !Holds(s.threads[j], l); }
    hide Apart, Settled;
    NobodyMoves(s, s');
  }

  lemma SpreadStartApart(s: System, s': System, i: nat, l: Id, f: Id)
    requires Apart(s) && i < |s.threads| && s.threads[i].Idle?
    requires CanCall(s, Spread(l, Some(f))) && s' == Called(s, i, Spread(l, Some(f)))
    ensures Apart(s')
  {
    SameUse(s.world, s'.world);
    assert forall j | 0 <= j < |s.threads| :: !Holds(s.threads[j], l);
    hide InUse;
  }

  lemma SpreadStart(s: System, s': System, i: nat, l: Id, f: Id)
    requires Apart(s) && Settled(s) && i < |s.threads| && s.threads[i].Idle?
    requires CanCall(s, Spread(l, Some(f))) && s' == Called(s, i, Spread(l, Some(f)))
    ensures Apart(s') && Settled(s')
  {
    SpreadStartApart(s, s', i, l, f);
    assert forall k, b | k != l :: Fits(s', k, b) <==> Fits(s, k, b);
    forall j | 0 <= j < |s'.threads| ensures ThreadFits(s', s'.threads[j]) {
      if j != i { assert ThreadFits(s, s.threads[j]) && !Holds(s.threads[j], l); }
    }
    assert s'.threads[i].Spreading? && s'.threads[i].l == l;
    forall k | k in s'.world.loggers && !IsSpreading(s', k) ensures AllFit(s', k) {
      StillSpreading(s, s', i, k);
      assert AllFit(s, k);
    }
  }

  lemma SpreadOne(s: System, s': System, i: nat)
    requires Apart(s) && Settled(s) && Next(s, s', i) && s.threads[i].Spreading?
    requires s.threads[i].done < |s.world.loggers[s.threads[i].l].attached|
    ensures Apart(s') && Settled(s')
  {
    StaysApart(s, s', i, s'.threads[i]);
    var Spreading(l, f, done) := s.threads[i];
    var a := s.world.loggers[l].attached[done];
    assert a in s.world.loggers[l].attached && ThreadFits(s, s.threads[i]);
    assert InUse(s.world, a);
    hide Next;
    SpreadFits(s, s', i, a);
  }

  /** Appender `a` now fits in logger `l`, whose thread goes on to the next. */
  lemma SpreadFits(s: System, s': System, i: nat, a: Id)
    requires Apart(s) && Settled(s) && i < |s.threads| && s.threads[i].Spreading?
    requires |s'.threads| == |s.threads| && forall j | 0 <= j < |s.threads| && j != i :: s'.threads[j] == s.threads[j]
    requires var Spreading(l, f, done) := s.threads[i];
             && l in s.world.loggers && done < |s.world.loggers[l].attached| && a == s.world.loggers[l].attached[done]
             && s'.threads[i] == Spreading(l, f, done + 1) && InUse(s.world, a)
    requires s'.world.loggers == s.world.loggers && s'.added == s.added && a in s.world.appenders
    requires s'.world.appenders.Keys == s.world.appenders.Keys
    requires forall b | b in s.world.appenders && b != a :: s'.world.appenders[b] == s.world.appenders[b]
    requires s'.world.appenders[a].own == s.world.appenders[a].own && Fits(s', s.threads[i].l, a)
    requires s.world.appenders[a].own ==> s'.world.appenders[a] == s.world.appenders[a]
    ensures Settled(s')
  {
    var l := s.threads[i].l;
    assert a in s.world.loggers[l].attached;
    assert forall k, b | b != a :: Fits(s', k, b) <==> Fits(s, k, b);
    forall j | 0 <= j < |s'.threads| ensures ThreadFits(s', s'.threads[j]) {
      assert ThreadFits(s, s.threads[j]);
      if j != i { OtherFits(s, s', s.threads[j], l, a); }
    }
    assert s'.threads[i].Spreading? && s'.threads[i].l == l;
    forall k | k in s'.world.loggers && !IsSpreading(s', k) ensures AllFit(s', k) {
      StillSpreading(s, s', i, k);
      assert AllFit(s, k) && a !in s.world.loggers[k].attached;
    }
  }

  lemma OtherFits(s: System, s': System, pc: Pc, l: Id, a: Id)
    requires Apart(s) && pc in s.threads && ThreadFits(s, pc) && (!pc.Idle? ==> pc.l != l)
    requires l in s.world.loggers && a in s.world.loggers[l].attached && InUse(s.world, a)
    requires s'.world.loggers == s.world.loggers && s'.world.appenders.Keys == s.world.appenders.Keys
    requires forall b | b in s.world.appenders && b != a :: s'.world.appenders[b] == s.world.appenders[b]
    ensures ThreadFits(s', pc)
  {
    if pc.Spreading? {
      var list := s.world.loggers[pc.l].attached;
      forall k | 0 <= k < pc.done ensures Fits(s', pc.l, list[k]) {
        assert Fits(s, pc.l, list[k]) && list[k] in list;
      }
    }
  }

  lemma SpreadEnd(s: System, s': System, i: nat)
    requires Apart(s) && Settled(s) && Next(s, s', i) && s.threads[i].Spreading?
    requires s.threads[i].done >= |s.world.loggers[s.threads[i].l].attached|
    ensures Apart(s') && Settled(s')
  {
    var Spreading(l, f, done) := s.threads[i];
    assert ThreadFits(s, s.threads[i]);
    forall a | a in s.world.loggers[l].attached ensures Fits(s, l, a) {
      var k :| 0 <= k < |s.world.loggers[l].attached| && s.world.loggers[l].attached[k] == a;
    }
    NotYetAdded(s, 0);
    hide Apart, Settled;
    StaysApart(s, s', i, Idle);
    OnlyMoves(s, s', i, Idle);
  }

  lemma StepStaysSettled(s: System, s': System, i: nat)
    requires Apart(s) && Settled(s) && NextIntended(s, s', i)
    ensures Apart(s') && Settled(s')
  {
    hide Apart, Settled;
    match s.threads[i]
    case Idle =>
      var c :| CanCall(s, c) && IsIntended(s, c) && s' == Called(s, i, c);
      match c {
        case Give(a, f) => GiveStep(s, s', a, f.value);
        case Add(l, a) => AddStep(s, s', i, l, a);
        case Spread(l, f) => SpreadStart(s, s', i, l, f.value);
        case Remove(l, a) => ShrinkStep(s, s', l, RemoveFirst(s.world.loggers[l].attached, a));
        case Clear(l) => ShrinkStep(s, s', l, []);
      }
    case Checking(_, _) => CheckStep(s, s', i);
    case Assigning(_, _, _) => AssignStep(s, s', i);
    case Attaching(_, _) => AttachStep(s, s', i);
    case Spreading(l, _, done) =>
      if done < |s.world.loggers[l].attached| { SpreadOne(s, s', i); } else { SpreadEnd(s, s', i); }
  }

  lemma {:induction false} RunStaysSettled(states: seq<System>, k: nat)
    requires k < |states| && IsIntendedRun(states) && Start(states[0])
    ensures Apart(states[k]) && Settled(states[k])
  {
    if k == 0 {
      StartIsSettled(states[0]);
    } else {
      RunStaysSettled(states, k - 1);
      assert CanStepIntended(states[k - 1], states[k]);
      var i: nat :| NextIntended(states[k - 1], states[k], i);
      hide IsIntendedRun, NextIntended, Apart, Settled;
      StepStaysSettled(states[k - 1], states[k], i);
    }
  }

  /** In every interleaving of the intended use, whenever a logger's lock is free all its
      appenders have a formatter, and those without their own share exactly the object the
      logger holds. The gap costs an appender its own formatter, but nothing else. */
  lemma {:induction false} FreeLoggersInherit(states: seq<System>, k: nat, l: Id)
    requires k < |states| && IsIntendedRun(states) && Start(states[0])
    requires l in states[k].world.loggers && IsFree(states[k], l)
    ensures forall a | a in states[k].world.loggers[l].attached ::
              a in states[k].world.appenders && FitsIn(states[k].world.loggers[l], states[k].world.appenders[a])
  {
    RunStaysSettled(states, k);
    var s := states[k];
    forall j | 0 <= j < |s.threads| ensures !(s.threads[j].Spreading? && s.threads[j].l == l) {
      assert !Holds(s.threads[j], l);
    }
    assert AllFit(s, l);
  }
}
