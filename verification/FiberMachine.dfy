/** The fiber machine of chord/fiber.cpp as a transition system on values: fiber
    states, saved contexts as resume points, the thread's two pointers, and the
    references that keep a fiber alive, those on its own stack included. */
module FiberMachine {
  import opened Options

  /** Fiber ids; the main fiber keeps the default id 0. */
  type Id = nat

  datatype State = INIT | HOLD | EXEC | TERM | READY | EXCEPT

  /** Where a context continues when it is resumed. `n` and `m` number the calls. */
  datatype Point =
    | Nowhere                     // getcontext only
    | Start(f: Id)                // MainFunc, on the stack of `f`
    | AfterSwapIn(n: nat, f: Id)  // behind the swapcontext of f's swapIn
    | AfterYield(m: nat, f: Id)   // behind the swapcontext of f's swapOut

  /** One swapcontext: the point saved, the point resumed, and the state the
      non-main fiber has at that moment. A saved point names that fiber. */
  datatype Jump = Jump(saved: Point, resumed: Point, state: State)

  /** `inMainFunc` and `inYield` are the references `cur` on the fiber's own stack. */
  datatype FiberView = FiberView(state: State, ctx: Point, hasCb: bool, hasStack: bool,
                         outside: nat, inMainFunc: bool, inYield: bool)

  datatype Control =
    | AtMain
    | Entering(f: Id)   // on f's stack, before MainFunc has taken its reference
    | Running(f: Id)    // inside f's callback
    | Finishing(f: Id)  // callback over, MainFunc about to return
    | Ended(f: Id)      // uc_link is null: the thread is over
    | Exited            // the main program has returned

  datatype Machine = Machine(
    fibers: map<Id, FiberView>, tFiber: Option<Id>, tThreadFiber: Option<Id>,
    lastId: nat, total: int, serial: nat, control: Control, trace: seq<Jump>)

  datatype Outcome = Ok(next: Machine) | AssertionFailed

  function Count(b: bool): nat {
    if b then 1 else 0
  }

  function Refs(s: Machine, f: Id): nat
    requires f in s.fibers
  {
    var r := s.fibers[f];
    r.outside + Count(r.inMainFunc) + Count(r.inYield) + Count(s.tThreadFiber == Some(f))
  }

  // ------------------------------------------------------- the operations

  function Set(s: Machine, f: Id, r: FiberView): Machine {
    s.(fibers := s.fibers[f := r])
  }

  /** `Fiber::~Fiber`, with its assertion. */
  function Destroy(s: Machine, f: Id): Outcome
    requires f in s.fibers
  {
    var r := s.fibers[f];
    if r.hasStack && r.state !in {TERM, INIT, EXCEPT} then AssertionFailed
    else if !r.hasStack && r.hasCb then AssertionFailed
    else Ok(s.(fibers := s.fibers - {f}, total := s.total - 1,
               tFiber := if !r.hasStack && s.tFiber == Some(f) then None else s.tFiber))
  }

  function Release(s: Machine, f: Id): Outcome
    requires f in s.fibers
  {
    if Refs(s, f) == 0 then Destroy(s, f) else Ok(s)
  }

  /** `GetThis`: creates the main fiber when the thread has none. */
  function GetThis(s: Machine): (r: Machine)
    ensures r.tFiber.Some?
  {
    if s.tFiber.Some? then s
    else Set(s, 0, FiberView(EXEC, Nowhere, false, false, 0, false, false))
         .(tFiber := Some(0), tThreadFiber := Some(0), total := s.total + 1)
  }

  function New(s: Machine, hasCb: bool): Machine {
    var f := s.lastId + 1;
    Set(s, f, FiberView(INIT, Start(f), hasCb, true, 1, false, false)).(lastId := f, total := s.total + 1)
  }

  function Reset(s: Machine, f: Id, hasCb: bool): Outcome
    requires f in s.fibers
  {
    var r := s.fibers[f];
    if !r.hasStack || r.state !in {INIT, TERM, EXCEPT} then AssertionFailed
    else Ok(Set(s, f, r.(hasCb := hasCb, ctx := Start(f), state := INIT)))
  }

  /** Continues at the resume point `to`; a yield that returns drops its `cur`. */
  function Resume(s: Machine, to: Point): (r: Machine)
    requires to.AfterYield? ==> to.f in s.fibers
  {
    match to
    case Nowhere => s
    case Start(f) => s.(control := Entering(f))
    case AfterSwapIn(_, _) => s.(control := AtMain)
    case AfterYield(_, f) => Set(s, f, s.fibers[f].(inYield := false)).(control := Running(f))
  }

  /** Stores the resume point `here` and records the jump. */
  function Save(s: Machine, from: Id, here: Point, j: Jump): Machine
    requires from in s.fibers
  {
    Set(s, from, s.fibers[from].(ctx := here)).(serial := s.serial + 1, trace := s.trace + [j])
  }

  /** `swapcontext(&fibers[from].ctx, &fibers[to].ctx)`. */
  function SwapContext(s: Machine, from: Id, to: Id, here: Point): Machine
    requires from in s.fibers && to in s.fibers
    requires (here.AfterSwapIn? || here.AfterYield?) && here.f in s.fibers
  {
    var target := s.fibers[to].ctx;
    var saved := Save(s, from, here, Jump(here, target, s.fibers[here.f].state));
    if target.AfterYield? && target.f !in saved.fibers then saved else Resume(saved, target)
  }

  function SwapIn(s: Machine, f: Id): Outcome
    requires f in s.fibers && s.tThreadFiber.Some? && s.tThreadFiber.value in s.fibers
  {
    var s1 := s.(tFiber := Some(f));
    if s.fibers[f].state == EXEC then AssertionFailed
    else
      var s2 := Set(s1, f, s.fibers[f].(state := EXEC));
      Ok(SwapContext(s2, s.tThreadFiber.value, f, AfterSwapIn(s.serial, f)))
  }

  /** `YieldToReady` and `YieldToHold`: the reference `cur` stays in the frame. */
  function Yield(s: Machine, to: State): Machine
    requires s.tFiber.Some? && s.tFiber.value in s.fibers
    requires s.tThreadFiber.Some? && s.tThreadFiber.value in s.fibers
  {
    var cur := s.tFiber.value;
    var s1 := Set(s, cur, s.fibers[cur].(inYield := true, state := to)).(tFiber := s.tThreadFiber);
    SwapContext(s1, cur, s.tThreadFiber.value, AfterYield(s.serial, cur))
  }

  // -------------------------------------------------------------- actions

  datatype Action =
    | DoGetThis                   // by main, the result kept by the caller
    | DoNew(hasCb: bool)
    | DoReset(f: Id, hasCb: bool)
    | DoShare(f: Id)              // copy an outside reference
    | DoDrop(f: Id)               // drop an outside reference
    | DoSwapIn(f: Id)
    | DoEnter                     // MainFunc: cur = GetThis()
    | DoYield(ready: bool)
    | DoFinish(threw: bool)       // the callback returns or throws
    | DoReturn                    // MainFunc returns: cur is released, the thread ends
    | DoExitThread                // the thread's end: thread-local destructors

  /** The fiber whose `swapIn` call is still on main's stack, holding a reference. */
  function Pinned(s: Machine): Option<Id> {
    match s.control
    case AtMain => None
    case Entering(f) => Some(f)
    case Running(f) => Some(f)
    case Finishing(f) => Some(f)
    case Ended(f) => Some(f)
    case Exited => None
  }

  /** The intended use: swapIn from main, on a suspended or fresh fiber that the
      caller holds a reference to; a fiber leaves only by yielding or finishing. A thread
      ends when its main program returns or a fiber finishes; references held elsewhere
      may outlive it. */
  predicate Legal(s: Machine, a: Action) {
    match a
    case DoGetThis => s.control == AtMain
    case DoNew(_) => true
    case DoReset(f, _) =>
      && (s.control.AtMain? || s.control.Running?)
      && f in s.fibers && s.fibers[f].hasStack && s.fibers[f].outside > 0
      && s.fibers[f].state in {INIT, TERM, EXCEPT}
    case DoShare(f) => f in s.fibers
    case DoDrop(f) => f in s.fibers && s.fibers[f].outside > Count(Pinned(s) == Some(f))
    case DoSwapIn(f) =>
      && s.control == AtMain && s.tThreadFiber.Some? && s.tThreadFiber.value in s.fibers
      && f in s.fibers && s.fibers[f].hasStack && s.fibers[f].outside > 0
      && s.fibers[f].state in {INIT, HOLD, READY}
    case DoEnter => s.control.Entering?
    case DoYield(_) => s.control.Running?
    case DoFinish(_) => s.control.Running?
    case DoReturn => s.control.Finishing?
    case DoExitThread => s.control.AtMain? || (s.control.Ended? && s.tThreadFiber.Some?)
  }

  ghost predicate Inv(s: Machine) {
    && s.total == |s.fibers|
    && (forall f | f in s.fibers :: f <= s.lastId && FiberOk(s, f))
    && (s.tThreadFiber.Some? ==> s.tThreadFiber == Some(0) && 0 in s.fibers)
    && (s.tThreadFiber.None? ==> s.tFiber.None? || s.control.Ended? || s.control.Exited?)
    && match s.control
       case AtMain => s.tFiber == s.tThreadFiber && (s.tFiber.None? ==> 0 !in s.fibers)
       case Ended(f) => s.tFiber == Some(f) && f != 0 && f in s.fibers
       case Exited => s.tThreadFiber.None? && s.tFiber == if 0 in s.fibers then Some(0) else None
       case _ =>
         var f := s.control.f;
         && s.tFiber == Some(f) && f != 0 && f in s.fibers && s.tThreadFiber == Some(0)
         && s.fibers[0].ctx.AfterSwapIn? && s.fibers[0].ctx.f == f
  }

  /** What every live fiber satisfies, by whether it is main, current or parked. */
  ghost predicate FiberOk(s: Machine, f: Id)
    requires f in s.fibers
  {
    var r := s.fibers[f];
    && Refs(s, f) > 0
    && (f == 0 <==> !r.hasStack)
    && (if f == 0 then !r.hasCb && !r.inMainFunc && !r.inYield
        else if Pinned(s) == Some(f) then CurrentOk(s.control, r)
        else ParkedOk(f, r))
  }

  predicate CurrentOk(c: Control, r: FiberView) {
    && r.outside > 0 && !r.inYield
    && match c
       case Entering(_) => r.state == EXEC && !r.inMainFunc
       case Running(_) => r.state == EXEC && r.inMainFunc
       case Finishing(_) => r.state in {TERM, EXCEPT} && r.inMainFunc
       case Ended(_) => r.state in {TERM, EXCEPT} && !r.inMainFunc
       case AtMain => false
       case Exited => false
  }

  /** A parked fiber is fresh, or suspended in its own yield with both references. */
  predicate ParkedOk(f: Id, r: FiberView) {
    || (r.state == INIT && r.ctx == Start(f) && !r.inMainFunc && !r.inYield)
    || (r.state in {HOLD, READY} && r.ctx.AfterYield? && r.ctx.f == f && r.inMainFunc && r.inYield)
  }

  function Apply(s: Machine, a: Action): Outcome
    requires Inv(s) && Legal(s, a)
  {
    match a
    case DoGetThis =>
      var s1 := GetThis(s);
      Ok(Set(s1, 0, s1.fibers[0].(outside := s1.fibers[0].outside + 1)))
    case DoNew(hasCb) => Ok(New(s, hasCb))
    case DoReset(f, hasCb) => Reset(s, f, hasCb)
    case DoShare(f) => Ok(Set(s, f, s.fibers[f].(outside := s.fibers[f].outside + 1)))
    case DoDrop(f) => Release(Set(s, f, s.fibers[f].(outside := s.fibers[f].outside - 1)), f)
    case DoSwapIn(f) => SwapIn(s, f)
    case DoEnter =>
      var s1 := GetThis(s);
      var cur := s1.tFiber.value;
      Ok(Set(s1, cur, s1.fibers[cur].(inMainFunc := true)).(control := Running(s.control.f)))
    case DoYield(ready) => Ok(Yield(GetThis(s), if ready then READY else HOLD))
    case DoFinish(threw) =>
      var r := s.fibers[s.control.f];
      Ok(Set(s, s.control.f, if threw then r.(state := EXCEPT) else r.(hasCb := false, state := TERM))
         .(control := Finishing(s.control.f)))
    case DoReturn =>
      var f := s.control.f;
      Release(Set(s, f, s.fibers[f].(inMainFunc := false)).(control := Ended(f)), f)
    case DoExitThread =>
      var s1 := if s.control.AtMain? then s.(control := Exited) else s;
      if s1.tThreadFiber.Some? then Release(s1.(tThreadFiber := None), 0) else Ok(s1)
  }

  const INITIAL: Machine := Machine(map[], None, None, 0, 0, 0, AtMain, [])

  // ----------------------------------------------------- one step at a time

  /** No assertion of the code fires, the destructor's included, and the
      invariant is kept. */
  lemma StepIsSafe(s: Machine, a: Action)
    requires Inv(s) && Legal(s, a)
    ensures Apply(s, a).Ok? && Inv(Apply(s, a).next)
  {
    match a
    case DoGetThis => GetThisIsSafe(s);
    case DoNew(hasCb) => NewIsSafe(s, hasCb);
    case DoReset(f, hasCb) => ResetIsSafe(s, f, hasCb);
    case DoShare(f) => ShareIsSafe(s, f);
    case DoDrop(f) => DropIsSafe(s, f);
    case DoSwapIn(f) => SwapInIsSafe(s, f);
    case DoEnter => EnterIsSafe(s);
    case DoYield(ready) => YieldIsSafe(s, ready);
    case DoFinish(threw) => FinishIsSafe(s, threw);
    case DoReturn => ReturnIsSafe(s);
    case DoExitThread => ExitIsSafe(s);
  }

  lemma SameKeysSameSize(a: map<Id, FiberView>, b: map<Id, FiberView>)
    requires a.Keys == b.Keys
    ensures |a| == |b|
  {
    assert |a.Keys| == |a| && |b.Keys| == |b|;
  }

  lemma OneKeyLess(a: map<Id, FiberView>, f: Id)
    requires f in a
    ensures |a - {f}| == |a| - 1
  {
    assert (a - {f}).Keys == a.Keys - {f};
    assert |a.Keys| == |a| && |(a - {f}).Keys| == |a - {f}|;
  }

  lemma GetThisIsSafe(s: Machine)
    requires Inv(s) && Legal(s, DoGetThis)
    ensures Apply(s, DoGetThis).Ok? && Inv(Apply(s, DoGetThis).next)
  {
    var t := Apply(s, DoGetThis).next;
    if 0 in s.fibers { SameKeysSameSize(s.fibers, t.fibers); }
    else { assert (t.fibers - {0}) == s.fibers; OneKeyLess(t.fibers, 0); }
    forall g | g in t.fibers ensures FiberOk(t, g) { if g in s.fibers { assert FiberOk(s, g); } }
  }

  lemma NewIsSafe(s: Machine, hasCb: bool)
    requires Inv(s)
    ensures Inv(New(s, hasCb))
  {
    var t := New(s, hasCb);
    assert s.lastId + 1 !in s.fibers;
    forall g | g in s.fibers ensures FiberOk(t, g) { assert FiberOk(s, g); }
  }

  lemma ResetIsSafe(s: Machine, f: Id, hasCb: bool)
    requires Inv(s) && Legal(s, DoReset(f, hasCb))
    ensures Apply(s, DoReset(f, hasCb)).Ok? && Inv(Apply(s, DoReset(f, hasCb)).next)
  {
    var t := Apply(s, DoReset(f, hasCb)).next;
    forall g | g in t.fibers ensures FiberOk(t, g) { assert FiberOk(s, g); }
    SameKeysSameSize(s.fibers, t.fibers);
  }

  lemma ShareIsSafe(s: Machine, f: Id)
    requires Inv(s) && Legal(s, DoShare(f))
    ensures Inv(Apply(s, DoShare(f)).next)
  {
    var t := Apply(s, DoShare(f)).next;
    forall g | g in t.fibers ensures FiberOk(t, g) { assert FiberOk(s, g); }
    SameKeysSameSize(s.fibers, t.fibers);
  }

  /** A reference to anything but a fresh fiber or main is never the last one. */
  lemma OnlyFreshFibersAreDestroyed(s: Machine, f: Id, mid: Machine)
    requires Inv(s) && Legal(s, DoDrop(f))
    requires mid == Set(s, f, s.fibers[f].(outside := s.fibers[f].outside - 1)) && Refs(mid, f) == 0
    ensures Pinned(s) != Some(f)
    ensures f == 0 ==> s.tThreadFiber.None? && !mid.fibers[f].hasCb && !mid.fibers[f].hasStack
    ensures f != 0 ==> mid.fibers[f].state == INIT && mid.fibers[f].hasStack
  {
    assert FiberOk(s, f);
  }

  lemma UntouchedStaysOk(s: Machine, t: Machine, f: Id)
    requires Inv(s) && t.control == s.control && t.tThreadFiber == s.tThreadFiber
    requires forall g | g in t.fibers && g != f :: g in s.fibers && t.fibers[g] == s.fibers[g]
    ensures forall g | g in t.fibers && g != f :: FiberOk(t, g) && g <= s.lastId
  {
    forall g | g in t.fibers && g != f ensures FiberOk(t, g) { assert FiberOk(s, g); }
  }

  lemma LastDropIsSafe(s: Machine, f: Id, mid: Machine)
    requires Inv(s) && Legal(s, DoDrop(f))
    requires mid == Set(s, f, s.fibers[f].(outside := s.fibers[f].outside - 1)) && Refs(mid, f) == 0
    ensures Destroy(mid, f).Ok? && Inv(Destroy(mid, f).next)
  {
    SameKeysSameSize(s.fibers, mid.fibers);
    OnlyFreshFibersAreDestroyed(s, f, mid);
    OneKeyLess(mid.fibers, f);
    UntouchedStaysOk(s, Destroy(mid, f).next, f);
    hide FiberOk, Refs, Legal, Destroy;
    WithoutTheDropped(s, mid, f);
  }

  lemma WithoutTheDropped(s: Machine, mid: Machine, f: Id)
    requires Inv(s) && f in s.fibers && mid.fibers.Keys == s.fibers.Keys && |mid.fibers| == |s.fibers|
    requires mid == s.(fibers := mid.fibers) && |mid.fibers - {f}| == |mid.fibers| - 1
    requires f in mid.fibers && Pinned(s) != Some(f) && Destroy(mid, f).Ok?
    requires forall g | g in s.fibers && g != f :: mid.fibers[g] == s.fibers[g]
    requires f == 0 ==> s.tThreadFiber.None? && !mid.fibers[f].hasStack
    requires f != 0 ==> mid.fibers[f].hasStack
    requires var t := Destroy(mid, f).next; forall g | g in t.fibers && g != f :: FiberOk(t, g) && g <= s.lastId
    ensures Inv(Destroy(mid, f).next)
  {
    var t := Destroy(mid, f).next;
    assert t.fibers.Keys == s.fibers.Keys - {f};
    hide FiberOk, Refs;
  }

  lemma OtherDropIsSafe(s: Machine, f: Id, mid: Machine)
    requires Inv(s) && Legal(s, DoDrop(f))
    requires mid == Set(s, f, s.fibers[f].(outside := s.fibers[f].outside - 1)) && Refs(mid, f) > 0
    ensures Inv(mid)
  {
    SameKeysSameSize(s.fibers, mid.fibers);
    assert FiberOk(s, f) && FiberOk(mid, f);
    UntouchedStaysOk(s, mid, f);
    hide FiberOk, Refs;
  }

  lemma DropIsSafe(s: Machine, f: Id)
    requires Inv(s) && Legal(s, DoDrop(f))
    ensures Apply(s, DoDrop(f)).Ok? && Inv(Apply(s, DoDrop(f)).next)
  {
    hide Inv, Destroy, Refs, Pinned;
    var mid := Set(s, f, s.fibers[f].(outside := s.fibers[f].outside - 1));
    if Refs(mid, f) == 0 { LastDropIsSafe(s, f, mid); } else { OtherDropIsSafe(s, f, mid); }
  }

  lemma SwapInIsSafe(s: Machine, f: Id)
    requires Inv(s) && Legal(s, DoSwapIn(f))
    ensures Apply(s, DoSwapIn(f)).Ok? && Inv(Apply(s, DoSwapIn(f)).next)
  {
    assert FiberOk(s, f) && FiberOk(s, 0);
    var t := Apply(s, DoSwapIn(f)).next;
    SameKeysSameSize(s.fibers, t.fibers);
    assert t.control == (if s.fibers[f].state == INIT then Entering(f) else Running(f));
    forall g | g in t.fibers ensures FiberOk(t, g) { assert FiberOk(s, g); }
  }

  lemma EnterIsSafe(s: Machine)
    requires Inv(s) && Legal(s, DoEnter)
    ensures Inv(Apply(s, DoEnter).next)
  {
    var t := Apply(s, DoEnter).next;
    SameKeysSameSize(s.fibers, t.fibers);
    forall g | g in t.fibers ensures FiberOk(t, g) { assert FiberOk(s, g); }
  }

  lemma YieldIsSafe(s: Machine, ready: bool)
    requires Inv(s) && Legal(s, DoYield(ready))
    ensures Inv(Apply(s, DoYield(ready)).next)
  {
    var t := Apply(s, DoYield(ready)).next;
    assert FiberOk(s, s.control.f) && FiberOk(s, 0);
    SameKeysSameSize(s.fibers, t.fibers);
    forall g | g in t.fibers ensures FiberOk(t, g) { assert FiberOk(s, g); }
  }

  lemma FinishIsSafe(s: Machine, threw: bool)
    requires Inv(s) && Legal(s, DoFinish(threw))
    ensures Inv(Apply(s, DoFinish(threw)).next)
  {
    var t := Apply(s, DoFinish(threw)).next;
    SameKeysSameSize(s.fibers, t.fibers);
    forall g | g in t.fibers ensures FiberOk(t, g) { assert FiberOk(s, g); }
  }

  lemma ReturnIsSafe(s: Machine)
    requires Inv(s) && Legal(s, DoReturn)
    ensures Apply(s, DoReturn).Ok? && Inv(Apply(s, DoReturn).next)
  {
    assert FiberOk(s, s.control.f);
    var t := Apply(s, DoReturn).next;
    SameKeysSameSize(s.fibers, t.fibers);
    forall g | g in t.fibers ensures FiberOk(t, g) { assert FiberOk(s, g); }
  }

  lemma ExitIsSafe(s: Machine)
    requires Inv(s) && Legal(s, DoExitThread)
    ensures Apply(s, DoExitThread).Ok? && Inv(Apply(s, DoExitThread).next)
  {
    var t := Apply(s, DoExitThread).next;
    if s.tThreadFiber.Some? {
      assert FiberOk(s, 0);
      OneKeyLess(s.fibers, 0);
    }
    forall g | g in t.fibers ensures FiberOk(t, g) { assert FiberOk(s, g); }
  }

  // ----------------------------------------------------------- whole runs

  /** The machine after a legal run, or none when some action is not legal. */
  function Execute(s: Machine, run: seq<Action>): (r: Option<Machine>)
    requires Inv(s)
    ensures r.Some? ==> Inv(r.value)
    decreases |run|
  {
    if run == [] then Some(s)
    else if !Legal(s, run[0]) then None
    else
      StepIsSafe(s, run[0]);
      Execute(Apply(s, run[0]).next, run[1..])
  }

  predicate Reachable(s: Machine, run: seq<Action>) {
    Execute(INITIAL, run) == Some(s)
  }

  /** Live objects are counted exactly, and a fiber that has started and not ended
      is held by its own stack: once in MainFunc, and again when it is suspended. */
  lemma {:induction false} FibersAreCountedAndHeld(s: Machine, run: seq<Action>)
    requires Reachable(s, run)
    ensures s.total == |s.fibers|
    ensures forall f | f in s.fibers && s.fibers[f].state in {HOLD, READY} && f != 0 ::
              s.fibers[f].inMainFunc && s.fibers[f].inYield && Refs(s, f) >= 2
    ensures forall f | f in s.fibers && s.fibers[f].state == EXEC && f != 0 ::
              (s.control == Running(f) && s.fibers[f].inMainFunc) || s.control == Entering(f)
  {
    forall f | f in s.fibers ensures FiberOk(s, f) {}
  }

  /** `t_fiber` is the main fiber, or the one non-main fiber in EXEC. */
  lemma {:induction false} CurrentFiberIsMainOrTheOnlyRunning(s: Machine, run: seq<Action>)
    requires Reachable(s, run)
    ensures s.control == AtMain && s.tThreadFiber.Some? ==>
              && s.tFiber == Some(0)
              && forall f | f in s.fibers && f != 0 :: s.fibers[f].state in {INIT, HOLD, READY}
    ensures s.control.Entering? || s.control.Running? ==>
              && s.tFiber == Some(s.control.f) && s.control.f in s.fibers
              && forall f | f in s.fibers && f != 0 :: s.fibers[f].state == EXEC <==> f == s.control.f
  {
    forall f | f in s.fibers ensures FiberOk(s, f) {}
  }

  /** No sequence of drops destroys a fiber that is suspended or running: a drop
      leaves every such fiber alive. */
  lemma {:induction false} DropsNeverReachASuspendedFiber(s: Machine, run: seq<Action>, f: Id)
    requires Reachable(s, run) && Legal(s, DoDrop(f))
    requires f != 0 && s.fibers[f].state in {EXEC, HOLD, READY}
    ensures Apply(s, DoDrop(f)).Ok? && f in Apply(s, DoDrop(f)).next.fibers
  {
    StepIsSafe(s, DoDrop(f));
    assert FiberOk(s, f);
  }

  /** What outlives a thread whose main program has returned, once nobody else holds a
      fiber: exactly the fibers that are suspended, each holding itself. */
  lemma {:induction false} OnlySuspendedFibersOutliveTheThread(s: Machine, run: seq<Action>)
    requires Reachable(s, run) && s.control.Exited? && forall f | f in s.fibers :: s.fibers[f].outside == 0
    ensures forall f | f in s.fibers :: f != 0 && s.fibers[f].state in {HOLD, READY} && Refs(s, f) == 2
    ensures s.total == |s.fibers| && s.tFiber.None?
  {
    forall f | f in s.fibers ensures FiberOk(s, f) {}
  }

  // ------------------------------------------------------- control transfer

  /** The number of the last yield of `f` recorded in a trace. */
  function LastYield(trace: seq<Jump>, f: Id): Option<nat> {
    if trace == [] then None
    else
      var last := trace[|trace| - 1].saved;
      if last.AfterYield? && last.f == f then Some(last.m) else LastYield(trace[..|trace| - 1], f)
  }

  /** Where a `swapIn` of `f` must continue: at its own last yield, or at its start. */
  function ResumePoint(trace: seq<Jump>, f: Id): Point {
    match LastYield(trace, f)
    case None => Start(f)
    case Some(m) => AfterYield(m, f)
  }

  /** Jump `k` goes where it must: a swapIn to the fiber's own resume point, a yield
      to just behind the swapIn that entered the fiber, in HOLD or READY. */
  ghost predicate Proper(trace: seq<Jump>, k: nat)
    requires k < |trace|
  {
    var j := trace[k];
    match j.saved
    case AfterSwapIn(_, f) => j.resumed == ResumePoint(trace[..k], f) && j.state == EXEC
    case AfterYield(_, f) =>
      && k > 0 && trace[k - 1].saved.AfterSwapIn? && trace[k - 1].saved.f == f
      && j.resumed == trace[k - 1].saved && j.state in {HOLD, READY}
    case _ => false
  }

  ghost predicate Disciplined(trace: seq<Jump>) {
    forall k | 0 <= k < |trace| :: Proper(trace, k)
  }

  ghost predicate TraceInv(s: Machine) {
    && Disciplined(s.trace)
    && (forall f | f > s.lastId :: LastYield(s.trace, f) == None)
    && (forall f | f in s.fibers && f != 0 && Pinned(s) != Some(f) :: s.fibers[f].ctx == ResumePoint(s.trace, f))
    && (s.control.Entering? || s.control.Running? ==>
          s.trace != [] && 0 in s.fibers && s.trace[|s.trace| - 1].saved == s.fibers[0].ctx)
  }

  lemma JumpKeepsDiscipline(trace: seq<Jump>, j: Jump)
    requires Disciplined(trace) && Proper(trace + [j], |trace|)
    ensures Disciplined(trace + [j])
  {
    forall k | 0 <= k < |trace| ensures Proper(trace + [j], k) {
      assert Proper(trace, k);
      assert (trace + [j])[..k] == trace[..k];
    }
  }

  lemma LastYieldAppend(trace: seq<Jump>, j: Jump, f: Id)
    ensures LastYield(trace + [j], f) ==
            if j.saved.AfterYield? && j.saved.f == f then Some(j.saved.m) else LastYield(trace, f)
  {
    assert (trace + [j])[..|trace|] == trace;
  }

  /** The effect of a legal swapIn, field by field. */
  lemma SwapInEffect(s: Machine, f: Id)
    requires Inv(s) && Legal(s, DoSwapIn(f))
    ensures Apply(s, DoSwapIn(f)).Ok?
    ensures var t := Apply(s, DoSwapIn(f)).next;
            && t.trace == s.trace + [Jump(AfterSwapIn(s.serial, f), s.fibers[f].ctx, EXEC)]
            && t.lastId == s.lastId && t.fibers.Keys == s.fibers.Keys
            && 0 in s.fibers && t.fibers[0].ctx == AfterSwapIn(s.serial, f)
            && t.control == (if s.fibers[f].state == INIT then Entering(f) else Running(f))
            && forall g | g in s.fibers && g != 0 && g != f :: t.fibers[g] == s.fibers[g]
  {
    assert FiberOk(s, f) && FiberOk(s, 0);
  }

  /** The effect of a legal yield, field by field. */
  lemma YieldEffect(s: Machine, f: Id, ready: bool)
    requires Inv(s) && s.control == Running(f)
    ensures var t, to := Apply(s, DoYield(ready)).next, if ready then READY else HOLD;
            && 0 in s.fibers && f in s.fibers && f <= s.lastId && s.fibers[0].ctx.AfterSwapIn? && s.fibers[0].ctx.f == f
            && t.trace == s.trace + [Jump(AfterYield(s.serial, f), s.fibers[0].ctx, to)]
            && t.lastId == s.lastId && t.fibers.Keys == s.fibers.Keys && t.control == AtMain
            && t.fibers[f].ctx == AfterYield(s.serial, f) && t.fibers[f].state == to
            && forall g | g in s.fibers && g != f :: t.fibers[g] == s.fibers[g]
  {
    assert FiberOk(s, f) && FiberOk(s, 0);
  }

  lemma SwapInKeepsTrace(s: Machine, f: Id)
    requires Inv(s) && TraceInv(s) && Legal(s, DoSwapIn(f))
    ensures Apply(s, DoSwapIn(f)).Ok? && TraceInv(Apply(s, DoSwapIn(f)).next)
  {
    SwapInEffect(s, f);
    var j := Jump(AfterSwapIn(s.serial, f), s.fibers[f].ctx, EXEC);
    hide Inv, Apply, FiberOk;
    assert Proper(s.trace + [j], |s.trace|) by { assert (s.trace + [j])[..|s.trace|] == s.trace; }
    JumpKeepsDiscipline(s.trace, j);
    forall g: Id
      ensures LastYield(s.trace + [j], g) == LastYield(s.trace, g)
      ensures ResumePoint(s.trace + [j], g) == ResumePoint(s.trace, g)
    {
      LastYieldAppend(s.trace, j, g);
    }
    hide Disciplined, LastYield, Proper, ResumePoint;
  }

  lemma YieldKeepsTrace(s: Machine, f: Id, ready: bool)
    requires Inv(s) && TraceInv(s) && s.control == Running(f)
    ensures TraceInv(Apply(s, DoYield(ready)).next)
  {
    YieldEffect(s, f, ready);
    hide Inv, Apply, TraceInv;
    YieldExtendsTrace(s, Apply(s, DoYield(ready)).next, f, if ready then READY else HOLD);
  }

  lemma YieldExtendsTrace(s: Machine, t: Machine, f: Id, to: State)
    requires TraceInv(s) && s.control == Running(f) && to in {HOLD, READY} && f <= s.lastId
    requires 0 in s.fibers && f in s.fibers && s.fibers[0].ctx.AfterSwapIn? && s.fibers[0].ctx.f == f
    requires t.trace == s.trace + [Jump(AfterYield(s.serial, f), s.fibers[0].ctx, to)]
    requires t.lastId == s.lastId && t.fibers.Keys == s.fibers.Keys && t.control == AtMain
    requires t.fibers[f].ctx == AfterYield(s.serial, f)
    requires forall g | g in s.fibers && g != f :: t.fibers[g] == s.fibers[g]
    ensures TraceInv(t)
  {
    var j := Jump(AfterYield(s.serial, f), s.fibers[0].ctx, to);
    assert Proper(s.trace + [j], |s.trace|);
    JumpKeepsDiscipline(s.trace, j);
    forall g: Id | g != f
      ensures LastYield(s.trace + [j], g) == LastYield(s.trace, g)
      ensures ResumePoint(s.trace + [j], g) == ResumePoint(s.trace, g)
    {
      LastYieldAppend(s.trace, j, g);
    }
    LastYieldAppend(s.trace, j, f);
    hide Disciplined, LastYield, Proper, ResumePoint;
  }

  predicate MakesOrDrops(a: Action) {
    a.DoGetThis? || a.DoNew? || a.DoReset? || a.DoShare? || a.DoDrop?
  }

  /** What every action but the two transfers leaves of contexts and control. */
  ghost predicate NoTransfer(s: Machine, t: Machine) {
    && t.trace == s.trace && t.lastId >= s.lastId && Pinned(t) == Pinned(s)
    && (forall f | f in t.fibers && f != 0 ::
          if f in s.fibers then t.fibers[f].ctx == s.fibers[f].ctx else f > s.lastId && t.fibers[f].ctx == Start(f))
    && (t.control.Entering? || t.control.Running? ==>
          && (s.control.Entering? || s.control.Running?)
          && (0 in s.fibers ==> 0 in t.fibers && t.fibers[0].ctx == s.fibers[0].ctx))
  }

  lemma MakingAndDroppingDoNotTransfer(s: Machine, a: Action)
    requires Inv(s) && Legal(s, a) && MakesOrDrops(a)
    ensures Apply(s, a).Ok? && NoTransfer(s, Apply(s, a).next)
  {
    StepIsSafe(s, a);
    hide Inv, Apply, NoTransfer;
    match a
    case DoReset(f, hasCb) => ResetKeepsContexts(s, f, hasCb);
    case DoDrop(f) => DropKeepsContexts(s, f);
    case _ => MakingKeepsContexts(s, a);
  }

  lemma MakingKeepsContexts(s: Machine, a: Action)
    requires Inv(s) && Legal(s, a) && (a.DoGetThis? || a.DoNew? || a.DoShare?)
    ensures Apply(s, a).Ok? && NoTransfer(s, Apply(s, a).next)
  {
    hide FiberOk;
  }

  lemma ResetKeepsContexts(s: Machine, f: Id, hasCb: bool)
    requires Inv(s) && Legal(s, DoReset(f, hasCb))
    ensures Apply(s, DoReset(f, hasCb)).Ok? && NoTransfer(s, Apply(s, DoReset(f, hasCb)).next)
  {
    assert FiberOk(s, f);
    hide Inv;
  }

  lemma DropKeepsContexts(s: Machine, f: Id)
    requires Inv(s) && Legal(s, DoDrop(f)) && Apply(s, DoDrop(f)).Ok?
    ensures NoTransfer(s, Apply(s, DoDrop(f)).next)
  {
    hide Inv, Refs;
    if s.control.Entering? || s.control.Running? { MainStaysWhileFibersRun(s, f); }
  }

  lemma MainStaysWhileFibersRun(s: Machine, f: Id)
    requires Inv(s) && Legal(s, DoDrop(f)) && (s.control.Entering? || s.control.Running?)
    ensures f == 0 ==> Refs(Set(s, 0, s.fibers[0].(outside := s.fibers[0].outside - 1)), 0) > 0
  {}

  lemma FinishingDoesNotTransfer(s: Machine, a: Action)
    requires Inv(s) && Legal(s, a) && !a.DoSwapIn? && !a.DoYield? && !MakesOrDrops(a)
    ensures Apply(s, a).Ok? && NoTransfer(s, Apply(s, a).next)
  {
    StepIsSafe(s, a);
    if a.DoReturn? { assert FiberOk(s, s.control.f); }
  }

  lemma NoTransferKeepsTrace(s: Machine, t: Machine)
    requires TraceInv(s) && NoTransfer(s, t)
    ensures TraceInv(t)
  {
    hide Disciplined, LastYield;
  }

  lemma StepKeepsTrace(s: Machine, a: Action)
    requires Inv(s) && TraceInv(s) && Legal(s, a)
    ensures Apply(s, a).Ok? && Inv(Apply(s, a).next) && TraceInv(Apply(s, a).next)
  {
    StepIsSafe(s, a);
    hide Inv, TraceInv, Apply;
    match a
    case DoSwapIn(f) => SwapInKeepsTrace(s, f);
    case DoYield(ready) => YieldKeepsTrace(s, s.control.f, ready);
    case _ =>
      if MakesOrDrops(a) { MakingAndDroppingDoNotTransfer(s, a); } else { FinishingDoesNotTransfer(s, a); }
      hide NoTransfer;
      NoTransferKeepsTrace(s, Apply(s, a).next);
  }

  lemma {:induction false} RunKeepsTrace(s: Machine, run: seq<Action>)
    requires Inv(s) && TraceInv(s) && Execute(s, run).Some?
    ensures TraceInv(Execute(s, run).value)
    decreases |run|
  {
    if run != [] {
      hide Inv, TraceInv, Legal, Apply;
      StepKeepsTrace(s, run[0]);
      RunKeepsTrace(Apply(s, run[0]).next, run[1..]);
    }
  }

  /** Control over whole runs: every transfer goes where the calls say it should. */
  lemma {:induction false} ControlIsDisciplined(s: Machine, run: seq<Action>)
    requires Reachable(s, run)
    ensures Disciplined(s.trace)
  {
    RunKeepsTrace(INITIAL, run);
  }

  lemma FinishedStep(s: Machine, a: Action)
    requires Inv(s) && Legal(s, a) && (s.control.Finishing? || s.control.Ended?)
    ensures Apply(s, a).Ok? && Apply(s, a).next.control in {s.control, Ended(s.control.f)}
  {
    StepIsSafe(s, a);
    hide Inv;
  }

  /** After a fiber has finished the thread is over: main never runs again, so main
      never sees a finished fiber. */
  lemma {:induction false} FinishedFibersNeverReturnToMain(s: Machine, run: seq<Action>)
    requires Inv(s) && (s.control.Finishing? || s.control.Ended?) && Execute(s, run).Some?
    ensures Execute(s, run).value.control in {s.control, Ended(s.control.f)}
    decreases |run|
  {
    if run != [] {
      StepIsSafe(s, run[0]);
      FinishedStep(s, run[0]);
      hide Inv, Apply, Legal;
      FinishedFibersNeverReturnToMain(Apply(s, run[0]).next, run[1..]);
    }
  }
}
