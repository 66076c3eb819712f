/** The references to a fiber and its callback over whole runs, counted from the calls alone
    (chord/fiber.cpp:45-130, 140-200). */
module FiberReferences {
  import opened Options
  import opened FiberMachine

  // ------------------------------------------------------- outside references

  /** The references to `f` that a call hands out when `made` fibers have been made: `new`
      returns one, `GetThis` returns one to main, and a copy is another. */
  function Given(a: Action, made: nat, f: Id): nat {
    match a
    case DoNew(_) => Count(f == made + 1)
    case DoGetThis => Count(f == 0)
    case DoShare(g) => Count(f == g)
    case _ => 0
  }

  function HandedOut(run: seq<Action>, made: nat, f: Id): nat {
    if run == [] then 0
    else Given(run[0], made, f) + HandedOut(run[1..], made + Count(run[0].DoNew?), f)
  }

  function Dropped(run: seq<Action>, f: Id): nat {
    if run == [] then 0 else Count(run[0] == DoDrop(f)) + Dropped(run[1..], f)
  }

  /** The references held outside the fibers' own stacks. */
  function Outside(s: Machine, f: Id): nat {
    if f in s.fibers then s.fibers[f].outside else 0
  }

  /** What a call does to the references handed out so far. */
  ghost predicate CountsReferences(s: Machine, a: Action, f: Id)
    requires Inv(s) && Legal(s, a)
  {
    && Apply(s, a).Ok?
    && var t := Apply(s, a).next;
       && Outside(t, f) + Count(a == DoDrop(f)) == Outside(s, f) + Given(a, s.lastId, f)
       && t.lastId == s.lastId + Count(a.DoNew?)
  }

  lemma MakingCounts(s: Machine, a: Action, f: Id)
    requires Inv(s) && Legal(s, a) && (a.DoGetThis? || a.DoNew? || a.DoReset? || a.DoShare?)
    ensures CountsReferences(s, a, f)
  {
    assert f in s.fibers ==> f <= s.lastId;
    hide Inv, FiberOk;
  }

  lemma DropEffect(s: Machine, g: Id)
    requires Inv(s) && Legal(s, DoDrop(g))
    ensures Apply(s, DoDrop(g)).Ok? && g in s.fibers && s.fibers[g].outside > 0
    ensures var t, r := Apply(s, DoDrop(g)).next, s.fibers[g];
            && t.lastId == s.lastId
            && (t.fibers == s.fibers[g := r.(outside := r.outside - 1)]
                || (t.fibers == s.fibers - {g} && r.outside == 1))
  {
    StepIsSafe(s, DoDrop(g));
    hide Inv, FiberOk;
  }

  lemma DroppingCounts(s: Machine, g: Id, f: Id)
    requires Inv(s) && Legal(s, DoDrop(g))
    ensures CountsReferences(s, DoDrop(g), f)
  {
    hide Inv, Apply, Legal;
    DropEffect(s, g);
  }

  lemma SwappingInCounts(s: Machine, g: Id, f: Id)
    requires Inv(s) && Legal(s, DoSwapIn(g))
    ensures CountsReferences(s, DoSwapIn(g), f)
  {
    StepIsSafe(s, DoSwapIn(g));
    assert FiberOk(s, g);
    hide Inv, FiberOk;
  }

  lemma YieldingCounts(s: Machine, ready: bool, f: Id)
    requires Inv(s) && Legal(s, DoYield(ready))
    ensures CountsReferences(s, DoYield(ready), f)
  {
    StepIsSafe(s, DoYield(ready));
    assert FiberOk(s, 0) && FiberOk(s, s.control.f);
    hide Inv, FiberOk;
  }

  lemma RunningCounts(s: Machine, a: Action, f: Id)
    requires Inv(s) && Legal(s, a) && (a.DoEnter? || a.DoFinish?)
    ensures CountsReferences(s, a, f)
  {
    assert s.control.f in s.fibers;
    hide FiberOk;
  }

  lemma EndingCounts(s: Machine, a: Action, f: Id)
    requires Inv(s) && Legal(s, a) && (a.DoReturn? || a.DoExitThread?)
    ensures CountsReferences(s, a, f)
  {
    StepIsSafe(s, a);
    assert a.DoReturn? ==> s.control.f in s.fibers;
    hide Inv, FiberOk;
  }

  lemma OutsideStep(s: Machine, a: Action, f: Id)
    requires Inv(s) && Legal(s, a)
    ensures CountsReferences(s, a, f)
  {
    hide CountsReferences, Inv, Legal, Apply;
    match a
    case DoDrop(g) => DroppingCounts(s, g, f);
    case DoSwapIn(g) => SwappingInCounts(s, g, f);
    case DoYield(ready) => YieldingCounts(s, ready, f);
    case DoEnter => RunningCounts(s, a, f);
    case DoFinish(_) => RunningCounts(s, a, f);
    case DoReturn => EndingCounts(s, a, f);
    case DoExitThread => EndingCounts(s, a, f);
    case _ => MakingCounts(s, a, f);
  }

  lemma FirstStep(s: Machine, run: seq<Action>)
    requires Inv(s) && Execute(s, run).Some? && run != []
    ensures Legal(s, run[0]) && Apply(s, run[0]).Ok? && Inv(Apply(s, run[0]).next)
    ensures Execute(s, run) == Execute(Apply(s, run[0]).next, run[1..])
  {
    hide Inv, Legal, Apply;
    StepIsSafe(s, run[0]);
  }

  lemma {:induction false} OutsideOverRuns(s: Machine, run: seq<Action>, f: Id)
    requires Inv(s) && Execute(s, run).Some?
    ensures Outside(Execute(s, run).value, f) + Dropped(run, f) == Outside(s, f) + HandedOut(run, s.lastId, f)
    decreases |run|
  {
    hide Inv, Legal, Apply, Outside, Given;
    if run != [] {
      FirstStep(s, run);
      OutsideStep(s, run[0], f);
      OutsideOverRuns(Apply(s, run[0]).next, run[1..], f);
    }
  }

  /** In every run the outside references of a fiber are those handed out less those
      dropped; of a fiber that does not exist, or no longer, none are left. */
  lemma OutsideIsCounted(s: Machine, run: seq<Action>, f: Id)
    requires Reachable(s, run)
    ensures Dropped(run, f) <= HandedOut(run, 0, f)
    ensures f in s.fibers ==> s.fibers[f].outside == HandedOut(run, 0, f) - Dropped(run, f)
    ensures f !in s.fibers ==> HandedOut(run, 0, f) == Dropped(run, f)
  {
    OutsideOverRuns(INITIAL, run, f);
  }

  /** When the thread ends, main goes with it if and only if every pointer that `GetThis`
      returned, and every copy of one, has been dropped. */
  lemma MainEndsWithTheThreadIff(s: Machine, run: seq<Action>)
    requires Reachable(s, run) && Legal(s, DoExitThread) && 0 in s.fibers
    ensures Apply(s, DoExitThread).Ok?
    ensures var t := Apply(s, DoExitThread).next;
            && (0 !in t.fibers <==> HandedOut(run, 0, 0) == Dropped(run, 0))
            && t.total == |t.fibers|
  {
    StepIsSafe(s, DoExitThread);
    OutsideIsCounted(s, run, 0);
    assert FiberOk(s, 0);
    hide HandedOut, Dropped, Execute;
  }

  /** A drop destroys the fiber if and only if it gives the last outside reference back and
      the fiber has nothing on its own stack: it is fresh, or main after the thread's end. */
  lemma DropDestroysIff(s: Machine, run: seq<Action>, f: Id)
    requires Reachable(s, run) && Legal(s, DoDrop(f))
    ensures Apply(s, DoDrop(f)).Ok?
    ensures f !in Apply(s, DoDrop(f)).next.fibers <==>
            && HandedOut(run, 0, f) == Dropped(run, f) + 1
            && if f == 0 then s.tThreadFiber.None? else s.fibers[f].state == INIT
  {
    StepIsSafe(s, DoDrop(f));
    OutsideIsCounted(s, run, f);
    assert FiberOk(s, f);
    hide HandedOut, Dropped, Execute;
  }

  // --------------------------------------------------- states and callbacks

  /** The state of a fiber after a call: a reset puts it at INIT, `swapIn` at
      EXEC, its own yields at READY or HOLD, and its end at TERM, or at EXCEPT if its
      callback threw; nothing that is done to another fiber changes it. */
  ghost predicate StateFollows(s: Machine, a: Action, t: Machine, f: Id)
    requires f in s.fibers && f in t.fibers
  {
    var was, now, own := s.fibers[f], t.fibers[f], Pinned(s) == Some(f);
    match a
    case DoReset(g, hasCb) => now.state == (if g == f then INIT else was.state)
    case DoSwapIn(g) => now.state == if g == f then EXEC else was.state
    case DoYield(ready) => now.state == if !own then was.state else if ready then READY else HOLD
    case DoFinish(threw) => now.state == if !own then was.state else if threw then EXCEPT else TERM
    case _ => now.state == was.state
  }

  /** A fiber holds the callback it was last given, until that returns normally. */
  ghost predicate CallbackFollows(s: Machine, a: Action, t: Machine, f: Id)
    requires f in s.fibers && f in t.fibers
  {
    var was, now := s.fibers[f].hasCb, t.fibers[f].hasCb;
    match a
    case DoReset(g, hasCb) => now == (if g == f then hasCb else was)
    case DoFinish(threw) => now == if Pinned(s) == Some(f) && !threw then false else was
    case _ => now == was
  }

  ghost predicate Follows(s: Machine, a: Action, f: Id)
    requires Inv(s) && Legal(s, a)
  {
    && Apply(s, a).Ok?
    && (f in s.fibers && f in Apply(s, a).next.fibers ==>
          StateFollows(s, a, Apply(s, a).next, f) && CallbackFollows(s, a, Apply(s, a).next, f))
  }

  lemma MakingFollows(s: Machine, a: Action, f: Id)
    requires Inv(s) && Legal(s, a) && (a.DoGetThis? || a.DoNew? || a.DoReset? || a.DoShare?)
    ensures Follows(s, a, f)
  {
    assert f in s.fibers ==> f <= s.lastId;
    hide Inv, FiberOk;
  }

  lemma DroppingFollows(s: Machine, g: Id, f: Id)
    requires Inv(s) && Legal(s, DoDrop(g))
    ensures Follows(s, DoDrop(g), f)
  {
    hide Inv, Apply, Legal;
    DropEffect(s, g);
  }

  lemma SwappingInFollows(s: Machine, g: Id, f: Id)
    requires Inv(s) && Legal(s, DoSwapIn(g))
    ensures Follows(s, DoSwapIn(g), f)
  {
    StepIsSafe(s, DoSwapIn(g));
    assert FiberOk(s, g);
    hide Inv, FiberOk;
  }

  lemma YieldingFollows(s: Machine, ready: bool, f: Id)
    requires Inv(s) && Legal(s, DoYield(ready))
    ensures Follows(s, DoYield(ready), f)
  {
    StepIsSafe(s, DoYield(ready));
    assert FiberOk(s, 0) && FiberOk(s, s.control.f);
    hide Inv, FiberOk;
  }

  lemma RunningFollows(s: Machine, a: Action, f: Id)
    requires Inv(s) && Legal(s, a) && (a.DoEnter? || a.DoFinish?)
    ensures Follows(s, a, f)
  {
    assert s.control.f in s.fibers;
    hide FiberOk;
  }

  lemma EndingFollows(s: Machine, a: Action, f: Id)
    requires Inv(s) && Legal(s, a) && (a.DoReturn? || a.DoExitThread?)
    ensures Follows(s, a, f)
  {
    StepIsSafe(s, a);
    assert a.DoReturn? ==> s.control.f in s.fibers;
    hide Inv, FiberOk;
  }

  /** Of every legal call, and every fiber. */
  lemma StatesAndCallbacksFollowTheCalls(s: Machine, a: Action, f: Id)
    requires Inv(s) && Legal(s, a)
    ensures Follows(s, a, f)
  {
    hide Follows, Inv, Legal, Apply;
    match a
    case DoDrop(g) => DroppingFollows(s, g, f);
    case DoSwapIn(g) => SwappingInFollows(s, g, f);
    case DoYield(ready) => YieldingFollows(s, ready, f);
    case DoEnter => RunningFollows(s, a, f);
    case DoFinish(_) => RunningFollows(s, a, f);
    case DoReturn => EndingFollows(s, a, f);
    case DoExitThread => EndingFollows(s, a, f);
    case _ => MakingFollows(s, a, f);
  }

  /** A fiber begins in INIT with its callback, held once. */
  lemma NewFibersAreFresh(s: Machine, hasCb: bool)
    requires Inv(s)
    ensures var f, t := s.lastId + 1, Apply(s, DoNew(hasCb));
            && f !in s.fibers && t.Ok?
            && t.next.fibers == s.fibers[f := FiberView(INIT, Start(f), hasCb, true, 1, false, false)]
  {}

  /** Main comes to be with the first `GetThis`, executing; later ones return the same. */
  lemma GetThisReturnsMain(s: Machine)
    requires Inv(s) && Legal(s, DoGetThis)
    ensures var t := Apply(s, DoGetThis);
            && t.Ok? && t.next.tFiber == t.next.tThreadFiber == Some(0)
            && t.next.fibers ==
               if 0 in s.fibers then s.fibers[0 := s.fibers[0].(outside := s.fibers[0].outside + 1)]
               else s.fibers[0 := FiberView(EXEC, Nowhere, false, false, 1, false, false)]
  {}
}
