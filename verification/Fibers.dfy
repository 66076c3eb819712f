/** `Fiber` and the thread's fiber state as the source writes them: objects whose
    methods update fields (chord/fiber.cpp, chord/fiber.h). Every method is proved
    to take the step of `FiberMachine` that it stands for, and every `CHORD_ASSERT`
    of the source appears as an assertion. */
module Fibers {
  import opened Options
  import opened FiberMachine

  class Fiber {
    const m_id: Id
    const m_hasStack: bool
    var m_state: State
    var m_ctx: Point
    var m_hasCb: bool
    // the references that keep the object alive, but for `t_threadFiber`
    var m_outside: nat
    var m_inMainFunc: bool
    var m_inYield: bool

    /** `Fiber()`: the main fiber has no stack, no callback, and is executing. */
    constructor Main()
      ensures m_id == 0 && View() == FiberView(EXEC, Nowhere, false, false, 0, false, false)
    {
      m_id, m_hasStack, m_state, m_ctx, m_hasCb := 0, false, EXEC, Nowhere, false;
      m_outside, m_inMainFunc, m_inYield := 0, false, false;
    }

    /** `Fiber(cb, stacksize)`; the caller holds the first reference. */
    constructor (id: Id, hasCb: bool)
      ensures m_id == id && View() == FiberView(INIT, Start(id), hasCb, true, 1, false, false)
    {
      m_id, m_hasStack, m_state, m_ctx, m_hasCb := id, true, INIT, Start(id), hasCb;
      m_outside, m_inMainFunc, m_inYield := 1, false, false;
    }

    function View(): FiberView
      reads this
    {
      FiberView(m_state, m_ctx, m_hasCb, m_hasStack, m_outside, m_inMainFunc, m_inYield)
    }
  }

  class FiberThread {
    var table: map<Id, Fiber>  // the live objects
    var t_fiber: Fiber?
    var t_threadFiber: Fiber?
    var s_fiber_id: nat
    var s_fiber_count: int
    var serial: nat
    var control: Control
    ghost var trace: seq<Jump>  // the transfers so far, for the laws of `FiberMachine`

    ghost predicate Valid()
      reads this, table.Values
    {
      && (forall i | i in table :: table[i].m_id == i)
      && (t_fiber != null ==> t_fiber.m_id in table && table[t_fiber.m_id] == t_fiber)
      && (t_threadFiber != null ==> t_threadFiber.m_id in table && table[t_threadFiber.m_id] == t_threadFiber)
    }

    ghost function Views(): (r: map<Id, FiberView>)
      reads this, table.Values
      ensures r.Keys == table.Keys
      ensures forall i | i in table :: r[i] == table[i].View()
    {
      map i | i in table :: table[i].View()
    }

    ghost function View(): Machine
      reads this, table.Values
    {
      Machine(Views(),
              if t_fiber == null then None else Some(t_fiber.m_id),
              if t_threadFiber == null then None else Some(t_threadFiber.m_id),
              s_fiber_id, s_fiber_count, serial, control, trace)
    }

    lemma Owned(f: Fiber)
      requires Valid() && f.m_id in table && table[f.m_id] == f
      ensures f.m_id in Views() && Views()[f.m_id] == f.View()
    {}

    /** Only the fields of `f` have changed. */
    twostate lemma OnlyChanged(f: Fiber, new v: FiberView)
      requires old(Valid()) && table == old(table) && f.m_id in table && table[f.m_id] == f
      requires f.View() == v
      requires forall g | g in table.Values && g != f :: old(g.View()) == g.View()
      ensures Views() == old(Views())[f.m_id := v]
      ensures t_fiber == old(t_fiber) && t_threadFiber == old(t_threadFiber) ==> Valid()
    {
      forall i | i in table && i != f.m_id ensures table[i].View() == old(table[i].View()) {
        assert table[i] in table.Values && table[i] != f;
      }
    }

    /** `f` has joined the table and nothing else has changed there. */
    twostate lemma OneMore(new f: Fiber)
      requires old(Valid()) && f.m_id !in old(table) && table == old(table)[f.m_id := f]
      requires forall g | g in old(table.Values) :: old(g.View()) == g.View()
      ensures Views() == old(Views())[f.m_id := f.View()]
      ensures t_fiber in {old(t_fiber), f} && t_threadFiber in {old(t_threadFiber), f} ==> Valid()
    {
      assert forall i | i in old(table) :: table[i] == old(table)[i] && old(table)[i] in old(table.Values);
    }

    /** `f` has left the table and nothing else has changed there. */
    twostate lemma OneGone(f: Fiber)
      requires old(Valid()) && f.m_id in old(table) && old(table)[f.m_id] == f && table == old(table) - {f.m_id}
      requires forall g | g in old(table.Values) :: old(g.View()) == g.View()
      ensures Views() == old(Views()) - {f.m_id}
      ensures (t_fiber == null || t_fiber == old(t_fiber) != f) && t_threadFiber == old(t_threadFiber) != f ==> Valid()
    {
      assert forall i | i in table :: table[i] == old(table)[i] && old(table)[i] in old(table.Values);
    }

    constructor ()
      ensures Valid() && View() == INITIAL
    {
      table, t_fiber, t_threadFiber := map[], null, null;
      s_fiber_id, s_fiber_count, serial, control, trace := 0, 0, 0, AtMain, [];
    }

    /** `GetThis`, from the main program: the result stays with the caller. */
    method GetThis() returns (r: Fiber)
      requires Valid() && Inv(View()) && Legal(View(), DoGetThis)
      modifies this, table.Values
      ensures Valid() && Apply(old(View()), DoGetThis) == Ok(View())
      ensures r == t_fiber && r.m_id in table && (old(t_fiber) == null ==> fresh(r))
    {
      hide Inv, Views;
      MainFacts(View());
      if t_fiber == null {
        CreateMain();
      }
      r := t_fiber;
      label held:
      ghost var v := r.View().(outside := r.m_outside + 1);
      r.m_outside := r.m_outside + 1;
      OnlyChanged@held(r, v);
    }

    method CreateMain()
      requires Valid() && t_fiber == null && 0 !in table
      modifies this`table, this`t_fiber, this`t_threadFiber, this`s_fiber_count
      ensures Valid() && View() == FiberMachine.GetThis(old(View()))
      ensures t_fiber != null && fresh(t_fiber) && t_fiber == t_threadFiber && 0 in table && t_fiber == table[0]
    {
      hide Views;
      var main_fiber := new Fiber.Main();
      t_fiber := main_fiber;
      table := table[0 := main_fiber];
      s_fiber_count := s_fiber_count + 1;
      assert t_fiber == main_fiber;
      t_threadFiber := main_fiber;
      OneMore(main_fiber);
    }

    method New(hasCb: bool) returns (f: Fiber)
      requires Valid() && Inv(View())
      modifies this
      ensures Valid() && Apply(old(View()), DoNew(hasCb)) == Ok(View())
      ensures fresh(f) && f.m_id in table && table[f.m_id] == f && f.m_id == old(s_fiber_id) + 1
    {
      hide Inv, Apply, FiberMachine.New, Views;
      FreshId(View(), hasCb);
      assert s_fiber_id + 1 !in Views();
      s_fiber_id := s_fiber_id + 1;
      f := new Fiber(s_fiber_id, hasCb);
      s_fiber_count := s_fiber_count + 1;
      table := table[s_fiber_id := f];
      OneMore(f);
    }

    method Reset(f: Fiber, hasCb: bool)
      requires Valid() && Inv(View()) && f.m_id in table && table[f.m_id] == f && Legal(View(), DoReset(f.m_id, hasCb))
      modifies table.Values
      ensures Valid() && Apply(old(View()), DoReset(f.m_id, hasCb)) == Ok(View())
    {
      hide Inv, Views;
      assert f.m_hasStack;
      assert f.m_state in {INIT, TERM, EXCEPT};
      ghost var v := FiberView(INIT, Start(f.m_id), hasCb, true, f.m_outside, f.m_inMainFunc, f.m_inYield);
      f.m_hasCb := hasCb;
      f.m_ctx := Start(f.m_id);
      f.m_state := INIT;
      OnlyChanged(f, v);
    }

    /** Copying a `Fiber::ptr` outside the fibers' own stacks. */
    method Share(f: Fiber)
      requires Valid() && Inv(View()) && f.m_id in table && table[f.m_id] == f
      modifies table.Values
      ensures Valid() && Apply(old(View()), DoShare(f.m_id)) == Ok(View())
    {
      hide Inv, Views;
      ghost var v := f.View().(outside := f.m_outside + 1);
      f.m_outside := f.m_outside + 1;
      OnlyChanged(f, v);
    }

    /** Dropping a `Fiber::ptr`: the last one runs the destructor. */
    method Drop(f: Fiber)
      requires Valid() && Inv(View()) && f.m_id in table && table[f.m_id] == f && Legal(View(), DoDrop(f.m_id))
      modifies this, table.Values
      ensures Valid() && Apply(old(View()), DoDrop(f.m_id)) == Ok(View())
    {
      hide Inv, Pinned, Apply, FiberMachine.Destroy, Views;
      ghost var s := View();
      ghost var mid := Set(s, f.m_id, s.fibers[f.m_id].(outside := s.fibers[f.m_id].outside - 1));
      DropFacts(s, f.m_id, mid);
      ghost var v := f.View().(outside := f.m_outside - 1);
      f.m_outside := f.m_outside - 1;
      OnlyChanged(f, v);
      assert View() == mid;
      if !Alive(f) {
        Destroy(f);
      }
    }

    predicate Alive(f: Fiber)
      reads this, f
    {
      f.m_outside > 0 || f.m_inMainFunc || f.m_inYield || f == t_threadFiber
    }

    /** `~Fiber`. */
    method Destroy(f: Fiber)
      requires Valid() && f.m_id in table && table[f.m_id] == f && f != t_threadFiber
      requires FiberMachine.Destroy(View(), f.m_id).Ok?
      requires f.m_hasStack ==> f != t_fiber
      modifies this
      ensures Valid() && FiberMachine.Destroy(old(View()), f.m_id) == Ok(View())
    {
      hide Views, FiberMachine.Destroy;
      Owned(f);
      DestroyFacts(View(), f.m_id);
      s_fiber_count := s_fiber_count - 1;
      if f.m_hasStack {
        assert f.m_state == TERM || f.m_state == INIT || f.m_state == EXCEPT;
      } else {
        assert !f.m_hasCb;
        var cur := t_fiber;
        if cur == f {
          t_fiber := null;
        }
      }
      table := table - {f.m_id};
      OneGone(f);
    }

    /** A yield that is resumed returns, and its frame's `cur` goes. */
    method ReturnFromYield(f: Fiber)
      requires Valid() && f.m_id in table && table[f.m_id] == f
      modifies f`m_inYield
      ensures Valid() && View() == Set(old(View()), f.m_id, old(View()).fibers[f.m_id].(inYield := false))
    {
      hide Views;
      Owned(f);
      ghost var v := f.View().(inYield := false);
      f.m_inYield := false;
      OnlyChanged(f, v);
    }

    method Save(from: Fiber, here: Point, ghost j: Jump)
      requires Valid() && from.m_id in table && table[from.m_id] == from
      modifies this`serial, this`trace, from`m_ctx
      ensures Valid() && View() == FiberMachine.Save(old(View()), from.m_id, here, j)
    {
      hide Views;
      Owned(from);
      ghost var v := from.View().(ctx := here);
      from.m_ctx := here;
      serial := serial + 1;
      trace := trace + [j];
      OnlyChanged(from, v);
    }

    method Resume(to: Point)
      requires Valid() && (to.AfterYield? ==> to.f in table)
      modifies this`control, (set f | f in table.Values)`m_inYield
      ensures Valid() && View() == FiberMachine.Resume(old(View()), to)
    {
      hide Views;
      match to {
        case Nowhere =>
        case Start(f) => control := Entering(f);
        case AfterSwapIn(_, _) => control := AtMain;
        case AfterYield(_, f) =>
          ReturnFromYield(table[f]);
          control := Running(f);
      }
    }

    /** `swapcontext`: saves where `from` is and continues where `to` was saved. */
    method SwapContext(from: Fiber, to: Fiber, here: Point)
      requires Valid() && from != to
      requires from.m_id in table && table[from.m_id] == from && to.m_id in table && table[to.m_id] == to
      requires to.m_ctx.AfterYield? ==> to.m_ctx.f in table
      requires (here.AfterSwapIn? || here.AfterYield?) && here.f in table
      modifies this`serial, this`trace, this`control, table.Values
      ensures Valid() && View() == FiberMachine.SwapContext(old(View()), from.m_id, to.m_id, here)
    {
      var target := to.m_ctx;
      Save(from, here, Jump(here, target, table[here.f].m_state));
      hide FiberMachine.Save, FiberMachine.Resume;
      Resume(target);
    }

    /** `swapIn`, called by main on a fiber it holds. Control is on the fiber's stack
        when the method ends: the call itself returns at `AfterSwapIn`. */
    method SwapIn(f: Fiber)
      requires Valid() && Inv(View()) && f.m_id in table && table[f.m_id] == f && Legal(View(), DoSwapIn(f.m_id))
      modifies this, table.Values
      ensures Valid() && Apply(old(View()), DoSwapIn(f.m_id)) == Ok(View())
    {
      hide Inv, Legal, Apply, FiberMachine.SwapContext, Views;
      SwapInFacts(View(), f.m_id);
      t_fiber := f;
      assert f.m_state != EXEC;
      ghost var v := f.View().(state := EXEC);
      f.m_state := EXEC;
      OnlyChanged(f, v);
      SwapContext(t_threadFiber, f, AfterSwapIn(serial, f.m_id));
    }

    /** `swapOut`, on the current fiber. */
    method SwapOut(cur: Fiber)
      requires Valid() && t_threadFiber != null && cur != t_threadFiber
      requires cur.m_id in table && table[cur.m_id] == cur
      requires t_threadFiber.m_ctx.AfterSwapIn?
      modifies this, table.Values
      ensures Valid()
      ensures View() == FiberMachine.SwapContext(old(View()).(tFiber := old(View()).tThreadFiber), cur.m_id,
                                                 old(t_threadFiber).m_id, AfterYield(old(serial), cur.m_id))
    {
      t_fiber := t_threadFiber;
      SwapContext(cur, t_threadFiber, AfterYield(serial, cur.m_id));
    }

    method Yield(to: State)
      requires Valid() && Inv(View()) && control.Running? && to in {READY, HOLD}
      modifies this, table.Values
      ensures Valid() && Apply(old(View()), DoYield(to == READY)) == Ok(View())
    {
      hide Inv, Views, Apply, FiberMachine.SwapContext;
      YieldFacts(View(), to);
      var cur := t_fiber;
      ghost var v := cur.View().(inYield := true, state := to);
      cur.m_inYield := true;  // cur = GetThis()
      cur.m_state := to;
      OnlyChanged(cur, v);
      SwapOut(cur);
    }

    method YieldToReady()
      requires Valid() && Inv(View()) && control.Running?
      modifies this, table.Values
      ensures Valid() && Apply(old(View()), DoYield(true)) == Ok(View())
    {
      Yield(READY);
    }

    method YieldToHold()
      requires Valid() && Inv(View()) && control.Running?
      modifies this, table.Values
      ensures Valid() && Apply(old(View()), DoYield(false)) == Ok(View())
    {
      Yield(HOLD);
    }

    /** `MainFunc`, up to the call of the callback. */
    method EnterMainFunc()
      requires Valid() && Inv(View()) && control.Entering?
      modifies this, table.Values
      ensures Valid() && Apply(old(View()), DoEnter) == Ok(View())
    {
      hide Inv, Views;
      CurrentFacts(View());
      var cur := t_fiber;
      ghost var v := cur.View().(inMainFunc := true);
      cur.m_inMainFunc := true;  // cur = GetThis()
      assert cur != null;
      control := Running(control.f);
      OnlyChanged(cur, v);
    }

    /** `MainFunc`, once the callback has returned or thrown. */
    method FinishMainFunc(threw: bool)
      requires Valid() && Inv(View()) && control.Running?
      modifies this, table.Values
      ensures Valid() && Apply(old(View()), DoFinish(threw)) == Ok(View())
    {
      hide Inv, Views, Apply;
      CurrentFacts(View());
      FinishFacts(View(), threw);
      var cur := t_fiber;
      ghost var v := if threw then cur.View().(state := EXCEPT) else cur.View().(hasCb := false, state := TERM);
      if threw {
        cur.m_state := EXCEPT;
      } else {
        cur.m_hasCb := false;
        cur.m_state := TERM;
      }
      control := Finishing(control.f);
      OnlyChanged(cur, v);
    }

    /** `MainFunc` returns: `cur` is released; with no `uc_link` the thread ends. */
    method ReturnFromMainFunc()
      requires Valid() && Inv(View()) && control.Finishing?
      modifies this, table.Values
      ensures Valid() && Apply(old(View()), DoReturn) == Ok(View())
    {
      hide Inv, Views;
      CurrentFacts(View());
      var cur := t_fiber;
      ghost var v := cur.View().(inMainFunc := false);
      cur.m_inMainFunc := false;
      control := Ended(control.f);
      OnlyChanged(cur, v);
      assert Alive(cur);
    }

    /** The thread's end: `t_threadFiber` is destroyed, and with it the main fiber unless
        it is held elsewhere. */
    method ExitThread()
      requires Valid() && Inv(View()) && Legal(View(), DoExitThread)
      modifies this
      ensures Valid() && Apply(old(View()), DoExitThread) == Ok(View())
    {
      hide Inv, Views, Apply, FiberMachine.Destroy;
      ghost var s := View();
      ExitFacts(s);
      ghost var s1 := (if s.control.AtMain? then s.(control := Exited) else s).(tThreadFiber := None);
      if control.AtMain? {
        control := Exited;
      }
      if t_threadFiber != null {
        var main_fiber := t_threadFiber;
        Owned(main_fiber);
        t_threadFiber := null;
        assert View() == s1;
        if !Alive(main_fiber) {
          Destroy(main_fiber);
        }
      }
    }
  }

  lemma DestroyFacts(s: Machine, f: Id)
    requires f in s.fibers && FiberMachine.Destroy(s, f).Ok?
    ensures var r := s.fibers[f];
            && (r.hasStack ==> r.state in {TERM, INIT, EXCEPT}) && (!r.hasStack ==> !r.hasCb)
            && FiberMachine.Destroy(s, f).next ==
               s.(fibers := s.fibers - {f}, total := s.total - 1,
                  tFiber := if !r.hasStack && s.tFiber == Some(f) then None else s.tFiber)
  {}

  lemma ExitFacts(s: Machine)
    requires Inv(s) && Legal(s, DoExitThread)
    ensures var s1 := (if s.control.AtMain? then s.(control := Exited) else s).(tThreadFiber := None);
            if s.tThreadFiber.None? then Apply(s, DoExitThread) == Ok(s1)
            else
              && s.tThreadFiber == Some(0) && 0 in s.fibers && !s.fibers[0].hasStack
              && (Refs(s1, 0) == 0 ==> FiberMachine.Destroy(s1, 0).Ok?)
              && Apply(s, DoExitThread) == if Refs(s1, 0) == 0 then FiberMachine.Destroy(s1, 0) else Ok(s1)
  {
    if s.tThreadFiber.Some? { assert FiberOk(s, 0); }
  }

  lemma SwapInFacts(s: Machine, f: Id)
    requires Inv(s) && Legal(s, DoSwapIn(f))
    ensures f != 0 && s.tThreadFiber == Some(0) && s.fibers[f].state != EXEC
    ensures s.fibers[f].ctx.AfterYield? ==> s.fibers[f].ctx.f in s.fibers
    ensures 0 in s.fibers &&
            Apply(s, DoSwapIn(f)) ==
            Ok(FiberMachine.SwapContext(Set(s, f, s.fibers[f].(state := EXEC)).(tFiber := Some(f)), 0, f,
                AfterSwapIn(s.serial, f)))
  {
    assert FiberOk(s, f) && FiberOk(s, 0);
  }

  lemma CurrentFacts(s: Machine)
    requires Inv(s) && (s.control.Entering? || s.control.Running? || s.control.Finishing?)
    ensures s.tFiber == Some(s.control.f) && s.control.f in s.fibers && s.fibers[s.control.f].outside > 0
  {
    assert FiberOk(s, s.control.f);
  }

  lemma FinishFacts(s: Machine, threw: bool)
    requires Inv(s) && s.control.Running?
    ensures var f, r := s.control.f, s.fibers[s.control.f];
            Apply(s, DoFinish(threw)) ==
            Ok(Set(s, f, if threw then r.(state := EXCEPT) else r.(hasCb := false, state := TERM))
               .(control := Finishing(f)))
  {}

  lemma MainFacts(s: Machine)
    requires Inv(s) && s.control == AtMain
    ensures s.tFiber == s.tThreadFiber && (s.tFiber.Some? ==> s.tFiber == Some(0) && 0 in s.fibers)
    ensures s.tFiber.None? ==> 0 !in s.fibers
  {}

  lemma FreshId(s: Machine, hasCb: bool)
    requires Inv(s)
    ensures s.lastId + 1 !in s.fibers
    ensures var f := s.lastId + 1;
            Apply(s, DoNew(hasCb)) ==
            Ok(s.(fibers := s.fibers[f := FiberView(INIT, Start(f), hasCb, true, 1, false, false)], lastId := f,
                total := s.total + 1))
  {}

  lemma DropFacts(s: Machine, f: Id, mid: Machine)
    requires Inv(s) && Legal(s, DoDrop(f))
    requires mid == Set(s, f, s.fibers[f].(outside := s.fibers[f].outside - 1))
    ensures s.fibers[f].outside > 0
    ensures Refs(mid, f) == 0 ==> FiberMachine.Destroy(mid, f).Ok?
    ensures Refs(mid, f) == 0 && s.fibers[f].hasStack ==> s.tFiber != Some(f)
    ensures Apply(s, DoDrop(f)) == if Refs(mid, f) == 0 then FiberMachine.Destroy(mid, f) else Ok(mid)
  {
    if Refs(mid, f) == 0 { OnlyFreshFibersAreDestroyed(s, f, mid); }
  }

  lemma YieldFacts(s: Machine, to: State)
    requires Inv(s) && s.control.Running? && to in {READY, HOLD}
    ensures s.tFiber == Some(s.control.f) && s.control.f != 0 && s.control.f in s.fibers
    ensures s.tThreadFiber == Some(0) && 0 in s.fibers && s.fibers[0].ctx.AfterSwapIn?
    ensures var f, r := s.control.f, s.fibers[s.control.f];
            Apply(s, DoYield(to == READY)) ==
            Ok(FiberMachine.SwapContext(Set(s, f, r.(inYield := true, state := to)).(tFiber := Some(0)), f, 0,
                AfterYield(s.serial, f)))
  {
    assert FiberOk(s, s.control.f) && FiberOk(s, 0);
  }
}
