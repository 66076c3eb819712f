/** Starting a thread (chord/thread.h:211-224, 279-305, chord/thread.cpp:13-124) in every
    interleaving of the constructor, the new thread and the owner of the object. */
module ThreadStart {
  import opened Options

  /** The thread that constructs, and later joins and destroys, the object. */
  datatype Creator =
    | Constructing  // before pthread_create
    | Spawning      // in pthread_create, which has yet to store the handle
    | Waiting       // at m_semaphore.wait()
    | Owning        // the constructor has returned
    | Gone          // the object has been destroyed
    | Thrown        // the constructor has thrown, which ends the object as well

  /** `run`, one step a line. */
  datatype Runner = Unborn | SetThis | ReadName | StoreId | NameThread | SwapCallback | Notify | Call | Done

  function Order(r: Runner): nat {
    match r
    case Unborn => 0
    case SetThis => 1
    case ReadName => 2
    case StoreId => 3
    case NameThread => 4
    case SwapCallback => 5
    case Notify => 6
    case Call => 7
    case Done => 8
  }

  function After(r: Runner): Runner {
    match r
    case Unborn => SetThis
    case SetThis => ReadName
    case ReadName => StoreId
    case StoreId => NameThread
    case NameThread => SwapCallback
    case SwapCallback => Notify
    case Notify => Call
    case Call => Done
    case Done => Done
  }

  datatype Field = Id | Handle | Callback | Name | Sem

  /** A field of the object used by `run`, and whether the object was still there. */
  datatype Access = Access(field: Field, alive: bool)

  datatype State<F> = State(
    creator: Creator, runner: Runner,
    alive: bool, id: int, handle: bool, cb: Option<F>, sem: nat,  // the object
    local: Option<F>,        // `cb` in run
    posts: nat, waits: nat,  // on the semaphore
    accesses: seq<Access>,   // by run
    calls: seq<F>,           // callbacks called
    joins: nat, detaches: nat)

  function Start<F>(cb: F): State<F> {
    State(Constructing, Unborn, true, -1, false, Some(cb), 0, None, 0, 0, [], [], 0, 0)
  }

  datatype Move =
    | Spawn | SpawnFails | StoreHandle | WaitReturns | WaitFails
    | Join | Destroy
    | RunnerStep

  /** `waitMayFail`: whether a signal may make `sem_wait` return an error. */
  predicate Enabled<F>(s: State<F>, m: Move, waitMayFail: bool) {
    match m
    case Spawn => s.creator.Constructing?
    case SpawnFails => s.creator.Constructing?
    case StoreHandle => s.creator.Spawning?
    case WaitReturns => s.creator.Waiting? && s.sem > 0
    case WaitFails => s.creator.Waiting? && waitMayFail
    case Join => s.creator.Owning? && (s.handle ==> s.runner.Done?)
    case Destroy => s.creator.Owning?
    case RunnerStep => !s.runner.Unborn? && !s.runner.Done? && (s.runner.Call? ==> s.local.Some?)
  }

  function Use<F>(s: State<F>, field: Field): State<F> {
    s.(accesses := s.accesses + [Access(field, s.alive)])
  }

  function Runs<F>(s: State<F>, tid: int): State<F>
    requires s.runner.Call? ==> s.local.Some?
  {
    var s' := s.(runner := After(s.runner));
    match s.runner
    case ReadName => Use(s', Name)
    case StoreId => Use(s', Id).(id := tid)
    case NameThread => Use(s', Name)
    case SwapCallback => Use(s', Callback).(local := s.cb, cb := s.local)
    case Notify => Use(s', Sem).(sem := s.sem + 1, posts := s.posts + 1)
    case Call => s'.(calls := s.calls + [s.local.value])
    case _ => s'
  }

  function Do<F>(s: State<F>, m: Move, waitMayFail: bool, tid: int): State<F>
    requires Enabled(s, m, waitMayFail)
  {
    match m
    case Spawn => s.(creator := Spawning, runner := SetThis)
    case SpawnFails => s.(creator := Thrown, alive := false)
    case StoreHandle => s.(creator := Waiting, handle := true)
    case WaitReturns => s.(creator := Owning, sem := s.sem - 1, waits := s.waits + 1)
    case WaitFails => s.(creator := Thrown, alive := false)
    case Join => if s.handle then s.(handle := false, joins := s.joins + 1) else s
    case Destroy => s.(creator := Gone, alive := false, detaches := s.detaches + if s.handle then 1 else 0)
    case RunnerStep => Runs(s, tid)
  }

  /** The moves can be made one after the other. */
  ghost predicate CanRun<F>(s: State<F>, moves: seq<Move>, waitMayFail: bool, tid: int)
    decreases |moves|
  {
    moves == [] || (Enabled(s, moves[0], waitMayFail)
        && CanRun(Do(s, moves[0], waitMayFail, tid), moves[1..], waitMayFail, tid))
  }

  ghost function RunAll<F>(s: State<F>, moves: seq<Move>, waitMayFail: bool, tid: int): State<F>
    requires CanRun(s, moves, waitMayFail, tid)
    decreases |moves|
  {
    if moves == [] then s else RunAll(Do(s, moves[0], waitMayFail, tid), moves[1..], waitMayFail, tid)
  }

  // ------------------------------------------------------------- invariants

  predicate Ended(c: Creator) {
    c.Gone? || c.Thrown?
  }

  predicate HasReturned(c: Creator) {
    c.Owning? || c.Gone?
  }

  /** The semaphore's value is what was posted less what was waited for, and counts
      never exceed one. */
  predicate Balanced<F>(s: State<F>) {
    && s.sem + s.waits == s.posts
    && s.posts == (if Order(s.runner) > 6 then 1 else 0)
    && s.waits == (if HasReturned(s.creator) then 1 else 0)
  }

  ghost predicate Handshake<F>(s: State<F>, cb: F, tid: int) {
    && Balanced(s)
    && (s.alive <==> !Ended(s.creator))
    && (s.runner.Unborn? <==> s.creator.Constructing? || s.creator.Thrown?)
    && s.id == (if Order(s.runner) > 3 then tid else -1)
    && (if Order(s.runner) > 5 then s.cb == None && s.local == Some(cb) else s.cb == Some(cb) && s.local == None)
    && s.calls == (if s.runner.Done? then [cb] else [])
    && s.joins + s.detaches <= 1 && (s.joins > 0 ==> s.runner.Done?)
    && (s.creator.Gone? ==> s.joins + s.detaches == 1)
    && (s.handle && !s.creator.Gone? ==> s.joins + s.detaches == 0)
    && (s.creator.Owning? && !s.handle ==> s.joins == 1 && s.runner.Done?)
    && (s.creator.Waiting? ==> s.handle)
    && (s.creator.Constructing? || s.creator.Spawning? || s.creator.Thrown? ==> s.joins == 0 && s.detaches == 0)
  }

  ghost predicate NoUseAfterEnd<F>(s: State<F>) {
    forall a | a in s.accesses :: a.alive
  }

  lemma MoveKeepsHandshake<F>(s: State<F>, m: Move, cb: F, tid: int)
    requires Handshake(s, cb, tid) && NoUseAfterEnd(s) && Enabled(s, m, false)
    ensures Handshake(Do(s, m, false, tid), cb, tid) && NoUseAfterEnd(Do(s, m, false, tid))
  {
    if m.RunnerStep? && Order(s.runner) <= 6 { assert s.waits == 0; }
  }

  lemma {:induction false} RunKeepsHandshake<F>(s: State<F>, moves: seq<Move>, cb: F, tid: int)
    requires Handshake(s, cb, tid) && NoUseAfterEnd(s) && CanRun(s, moves, false, tid)
    ensures var t := RunAll(s, moves, false, tid); Handshake(t, cb, tid) && NoUseAfterEnd(t)
    decreases |moves|
  {
    if moves != [] {
      MoveKeepsHandshake(s, moves[0], cb, tid);
      RunKeepsHandshake(Do(s, moves[0], false, tid), moves[1..], cb, tid);
    }
  }

  /** In every interleaving in which `sem_wait` does not fail: once the constructor has
      returned, the new thread has stored its id and taken the callback out of the
      object; `run` never uses a destroyed object, and uses no field after its notify;
      the callback is called once, with what the constructor was given; the thread is
      joined or detached exactly once by the time the object is gone. */
  lemma ConstructorReturnsAfterHandshake<F>(cb: F, tid: int, moves: seq<Move>)
    requires CanRun(Start(cb), moves, false, tid)
    ensures var s := RunAll(Start(cb), moves, false, tid);
            && (HasReturned(s.creator) ==> s.id == tid && s.cb == None && s.local == Some(cb) && Order(s.runner) > 6)
            && NoUseAfterEnd(s)
            && s.sem + s.waits == s.posts
            && s.calls == (if s.runner.Done? then [cb] else [])
            && s.joins + s.detaches <= 1 && (s.creator.Gone? ==> s.joins + s.detaches == 1)
            && (s.joins == 1 ==> s.runner.Done?)
  {
    RunKeepsHandshake(Start(cb), moves, cb, tid);
  }

  /** After its notify, `run` uses no field of the object again, whatever happens. */
  lemma {:induction false} NoAccessAfterNotify<F>(s: State<F>, moves: seq<Move>, waitMayFail: bool, tid: int)
    requires Order(s.runner) > 6 && !s.creator.Constructing? && CanRun(s, moves, waitMayFail, tid)
    ensures RunAll(s, moves, waitMayFail, tid).accesses == s.accesses
    decreases |moves|
  {
    if moves != [] {
      NoAccessAfterNotify(Do(s, moves[0], waitMayFail, tid), moves[1..], waitMayFail, tid);
    }
  }

  /** Neither side can be left waiting: until the constructor has ended and the new
      thread is done, some move other than the owner's is possible. */
  predicate InProgress<F>(s: State<F>) {
    (!HasReturned(s.creator) && !s.creator.Thrown?) || (!s.runner.Unborn? && !s.runner.Done?)
  }

  lemma HandshakeMakesProgress<F>(cb: F, tid: int, moves: seq<Move>)
    requires CanRun(Start(cb), moves, false, tid)
    ensures var s := RunAll(Start(cb), moves, false, tid);
            InProgress(s) ==> exists m: Move :: !m.Join? && !m.Destroy? && Enabled(s, m, false)
  {
    RunKeepsHandshake(Start(cb), moves, cb, tid);
    var s := RunAll(Start(cb), moves, false, tid);
    if !s.runner.Unborn? && !s.runner.Done? {
      assert Enabled(s, RunnerStep, false);
    } else if s.creator.Constructing? {
      assert Enabled(s, Spawn, false);
    } else if s.creator.Spawning? {
      assert Enabled(s, StoreHandle, false);
    } else if s.creator.Waiting? {
      assert Enabled(s, WaitReturns, false);
    }
  }

  /** When a signal interrupts `sem_wait`, the constructor throws while the new thread
      still works on the object. */
  lemma AFailedWaitBreaksTheHandshake<F>(cb: F, tid: int)
    ensures var moves := [Spawn, StoreHandle, WaitFails, RunnerStep, RunnerStep];
            CanRun(Start(cb), moves, true, tid) && !NoUseAfterEnd(RunAll(Start(cb), moves, true, tid))
  {
    var s0: State<F> := Start(cb);
    var s1 := Do(s0, Spawn, true, tid);
    var s2 := Do(s1, StoreHandle, true, tid);
    var s3 := Do(s2, WaitFails, true, tid);
    var s4 := Do(s3, RunnerStep, true, tid);
    var s5 := Do(s4, RunnerStep, true, tid);
    RunsNow(s4, RunnerStep, [], true, tid);
    RunsNow(s3, RunnerStep, [RunnerStep], true, tid);
    RunsNow(s2, WaitFails, [RunnerStep, RunnerStep], true, tid);
    RunsNow(s1, StoreHandle, [WaitFails, RunnerStep, RunnerStep], true, tid);
    RunsNow(s0, Spawn, [StoreHandle, WaitFails, RunnerStep, RunnerStep], true, tid);
    assert [RunnerStep] + [] == [RunnerStep];
    assert [RunnerStep] + [RunnerStep] == [RunnerStep, RunnerStep];
    assert [WaitFails] + [RunnerStep, RunnerStep] == [WaitFails, RunnerStep, RunnerStep];
    assert [StoreHandle] + [WaitFails, RunnerStep, RunnerStep] == [StoreHandle, WaitFails, RunnerStep, RunnerStep];
    assert [Spawn] + [StoreHandle, WaitFails, RunnerStep, RunnerStep] ==
        [Spawn, StoreHandle, WaitFails, RunnerStep, RunnerStep];
    assert s5.accesses[0] == Access(Name, false);
  }

  lemma RunsNow<F>(s: State<F>, m: Move, rest: seq<Move>, waitMayFail: bool, tid: int)
    requires Enabled(s, m, waitMayFail) && CanRun(Do(s, m, waitMayFail, tid), rest, waitMayFail, tid)
    ensures CanRun(s, [m] + rest, waitMayFail, tid)
    ensures RunAll(s, [m] + rest, waitMayFail, tid) == RunAll(Do(s, m, waitMayFail, tid), rest, waitMayFail, tid)
  {
    assert ([m] + rest)[1..] == rest;
  }

  /** The steps of `run` that use the object. */
  predicate Touches(r: Runner) {
    r.ReadName? || r.StoreId? || r.NameThread? || r.SwapCallback? || r.Notify?
  }

  /** After the constructor has thrown, `run` takes a step that uses the object. */
  ghost predicate GoesOnTooLong<F>(s: State<F>, moves: seq<Move>, waitMayFail: bool, tid: int)
    requires CanRun(s, moves, waitMayFail, tid)
    decreases |moves|
  {
    moves != [] &&
      ((s.creator.Thrown? && moves[0].RunnerStep? && Touches(s.runner))
       || GoesOnTooLong(Do(s, moves[0], waitMayFail, tid), moves[1..], waitMayFail, tid))
  }

  ghost predicate HandshakeOrThrown<F>(s: State<F>, cb: F, tid: int) {
    Handshake(s, cb, tid) || (s.creator.Thrown? && !s.alive)
  }

  lemma MoveKeepsOrThrows<F>(s: State<F>, m: Move, waitMayFail: bool, cb: F, tid: int)
    requires HandshakeOrThrown(s, cb, tid) && Enabled(s, m, waitMayFail)
    ensures HandshakeOrThrown(Do(s, m, waitMayFail, tid), cb, tid)
  {}

  lemma UseOfOneMove<F>(s: State<F>, m: Move, waitMayFail: bool, tid: int)
    requires Enabled(s, m, waitMayFail)
    ensures NoUseAfterEnd(Do(s, m, waitMayFail, tid)) <==>
            NoUseAfterEnd(s) && !(!s.alive && m.RunnerStep? && Touches(s.runner))
  {
    var t := Do(s, m, waitMayFail, tid);
    if m.RunnerStep? && Touches(s.runner) {
      var a := t.accesses[|s.accesses|];
      assert t.accesses == s.accesses + [a] && a.alive == s.alive;
      assert a in t.accesses && forall b | b in s.accesses :: b in t.accesses;
    } else {
      assert t.accesses == s.accesses;
    }
  }

  lemma OneMove<F>(s: State<F>, m: Move, waitMayFail: bool, cb: F, tid: int)
    requires HandshakeOrThrown(s, cb, tid) && Enabled(s, m, waitMayFail)
    ensures HandshakeOrThrown(Do(s, m, waitMayFail, tid), cb, tid)
    ensures NoUseAfterEnd(Do(s, m, waitMayFail, tid)) <==>
            NoUseAfterEnd(s) && !(s.creator.Thrown? && m.RunnerStep? && Touches(s.runner))
  {
    MoveKeepsOrThrows(s, m, waitMayFail, cb, tid);
    UseOfOneMove(s, m, waitMayFail, tid);
    hide Do, NoUseAfterEnd;
  }

  lemma {:induction false} UseAfterEndIff<F>(s: State<F>, moves: seq<Move>, waitMayFail: bool, cb: F, tid: int)
    requires HandshakeOrThrown(s, cb, tid) && CanRun(s, moves, waitMayFail, tid)
    ensures NoUseAfterEnd(RunAll(s, moves, waitMayFail, tid)) <==>
            NoUseAfterEnd(s) && !GoesOnTooLong(s, moves, waitMayFail, tid)
    decreases |moves|
  {
    if moves != [] {
      OneMove(s, moves[0], waitMayFail, cb, tid);
      hide HandshakeOrThrown, NoUseAfterEnd, Do, Enabled;
      UseAfterEndIff(Do(s, moves[0], waitMayFail, tid), moves[1..], waitMayFail, cb, tid);
    }
  }

  /** In any single run, with waits that may fail or not, the object is used after its end if
      and only if `run` goes on to use it after the constructor has thrown. */
  lemma RunIsSafeIff<F>(cb: F, tid: int, waitMayFail: bool, moves: seq<Move>)
    requires CanRun(Start(cb), moves, waitMayFail, tid)
    ensures NoUseAfterEnd(RunAll(Start(cb), moves, waitMayFail, tid)) <==>
            !GoesOnTooLong(Start(cb), moves, waitMayFail, tid)
  {
    UseAfterEndIff(Start(cb), moves, waitMayFail, cb, tid);
  }

  /** Every run is safe if and only if `sem_wait` cannot fail. */
  lemma HandshakeIsSafeIff<F(!new)>(cb: F, tid: int, waitMayFail: bool)
    ensures (forall moves: seq<Move> | CanRun(Start(cb), moves, waitMayFail, tid) ::
               NoUseAfterEnd(RunAll(Start(cb), moves, waitMayFail, tid))) <==> !waitMayFail
  {
    if waitMayFail {
      AFailedWaitBreaksTheHandshake(cb, tid);
    } else {
      forall moves: seq<Move> | CanRun(Start(cb), moves, false, tid)
        ensures NoUseAfterEnd(RunAll(Start(cb), moves, false, tid))
      {
        ConstructorReturnsAfterHandshake(cb, tid, moves);
      }
    }
  }

  const TO_CALL: seq<Move> := [RunnerStep, RunnerStep, RunnerStep, RunnerStep, RunnerStep, RunnerStep]

  /** The new thread alone, from its first step to the callback. */
  lemma SixSteps<F>(s: State<F>, tid: int)
    requires s.runner.SetThis?
    ensures CanRun(s, TO_CALL, false, tid)
    ensures var t := RunAll(s, TO_CALL, false, tid);
            && t.runner.Call? && t.id == tid && t.cb == s.local && t.local == s.cb && t.sem == s.sem + 1
            && t.handle == s.handle
  {
    var s1 := Runs(s, tid);
    var s2 := Runs(s1, tid);
    var s3 := Runs(s2, tid);
    var s4 := Runs(s3, tid);
    var s5 := Runs(s4, tid);
    var one: seq<Move> := [RunnerStep];
    RunsNow(s5, RunnerStep, [], false, tid);
    assert one + [] == one;
    RunsNow(s4, RunnerStep, one, false, tid);
    RunsNow(s3, RunnerStep, one + one, false, tid);
    RunsNow(s2, RunnerStep, one + (one + one), false, tid);
    RunsNow(s1, RunnerStep, one + (one + (one + one)), false, tid);
    RunsNow(s, RunnerStep, one + (one + (one + (one + one))), false, tid);
    assert one + (one + (one + (one + (one + one)))) == TO_CALL;
  }

  // -------------------------------------------------------------- semaphores

  /** A semaphore between any number of threads, each about to post, about to wait or
      done with its call. */
  datatype Caller = Posting | WaitingFor | Returned
  datatype Semaphores = Semaphores(value: nat, callers: seq<Caller>, posts: nat, waits: nat)

  predicate CanStep(s: Semaphores, i: nat) {
    i < |s.callers| && (s.callers[i].Posting? || (s.callers[i].WaitingFor? && s.value > 0))
  }

  function StepOf(s: Semaphores, i: nat): Semaphores
    requires CanStep(s, i)
  {
    if s.callers[i].Posting? then Semaphores(s.value + 1, s.callers[i := Returned], s.posts + 1, s.waits)
    else Semaphores(s.value - 1, s.callers[i := Returned], s.posts, s.waits + 1)
  }

  /** New calls arrive, or a thread's call completes. */
  ghost predicate NextOf(s: Semaphores, t: Semaphores) {
    || (exists i: nat :: CanStep(s, i) && t == StepOf(s, i))
    || (exists c: Caller :: !c.Returned? && t == s.(callers := s.callers + [c]))
  }

  ghost predicate IsRunOf(states: seq<Semaphores>, count: nat) {
    && states != [] && states[0] == Semaphores(count, [], 0, 0)
    && forall k | 0 < k < |states| :: NextOf(states[k - 1], states[k])
  }

  function CountReturned(cs: seq<Caller>): nat {
    if cs == [] then 0 else CountReturned(cs[..|cs| - 1]) + if cs[|cs| - 1].Returned? then 1 else 0
  }

  lemma {:induction false} CountAfterReturn(cs: seq<Caller>, i: nat)
    requires i < |cs| && !cs[i].Returned?
    ensures CountReturned(cs[i := Returned]) == CountReturned(cs) + 1
  {
    var n := |cs| - 1;
    if i < n {
      CountAfterReturn(cs[..n], i);
      assert cs[i := Returned][..n] == cs[..n][i := Returned];
    } else {
      assert cs[i := Returned][..n] == cs[..n];
    }
  }

  predicate Accounted(s: Semaphores, count: nat) {
    s.value == count + s.posts - s.waits && s.posts + s.waits == CountReturned(s.callers)
  }

  lemma StepIsAccounted(p: Semaphores, s: Semaphores, count: nat)
    requires Accounted(p, count) && NextOf(p, s)
    ensures Accounted(s, count)
  {
    if i: nat :| CanStep(p, i) && s == StepOf(p, i) {
      CountAfterReturn(p.callers, i);
      hide CountReturned;
    } else {
      assert s.callers[..|p.callers|] == p.callers;
    }
  }

  ghost predicate IsStuck(s: Semaphores) {
    forall i: nat :: !CanStep(s, i)
  }

  /** In every run the value is the initial count plus the posts less the completed
      waits; and when no call can complete, nobody waits while there is anything to
      take: every post that could release a waiter has done so. */
  lemma {:induction false} SemaphoreIsBalanced(states: seq<Semaphores>, count: nat)
    requires IsRunOf(states, count)
    ensures var s := states[|states| - 1];
            && s.value == count + s.posts - s.waits
            && s.posts + s.waits == CountReturned(s.callers)
            && (IsStuck(s) && WaitingFor in s.callers ==> s.value == 0 && s.waits == count + s.posts)
    decreases |states|
  {
    var last := |states| - 1;
    var s := states[last];
    if last > 0 {
      SemaphoreIsBalanced(states[..last], count);
      assert NextOf(states[last - 1], s);
      hide NextOf, CountReturned;
      StepIsAccounted(states[last - 1], s, count);
    }
    if IsStuck(s) && WaitingFor in s.callers {
      var i :| 0 <= i < |s.callers| && s.callers[i] == WaitingFor;
      assert !CanStep(s, i);
    }
  }

  // ---------------------------------------------------------------- the classes

  class Semaphore {
    var m_semaphore: nat

    constructor (count: nat := 0)
      ensures m_semaphore == count
    {
      m_semaphore := count;
    }

    /** Blocks at zero, so it returns only when the count was positive. */
    method Wait()
      requires m_semaphore > 0
      modifies this
      ensures m_semaphore == old(m_semaphore) - 1
    {
      m_semaphore := m_semaphore - 1;
    }

    method Notify()
      modifies this
      ensures m_semaphore == old(m_semaphore) + 1
    {
      m_semaphore := m_semaphore + 1;
    }
  }

  class Thread<F> {
    var m_id: int
    var m_thread: bool  // the handle is not 0
    var m_cb: Option<F>
    var m_name: string
    const m_semaphore: Semaphore

    /** The object as the new thread first sees it, in `Start`. */
    constructor (cb: F, name: string)
      ensures m_id == -1 && !m_thread && m_cb == Some(cb) && m_name == (if name == "" then "UNKNOW" else name)
      ensures fresh(m_semaphore) && m_semaphore.m_semaphore == 0
    {
      m_id, m_thread, m_cb, m_name := -1, false, Some(cb), if name == "" then "UNKNOW" else name;
      m_semaphore := new Semaphore(0);
    }

    /** The object is in state `s`. */
    ghost predicate Matches(s: State<F>)
      reads this, m_semaphore
    {
      m_id == s.id && m_thread == s.handle && m_cb == s.cb && m_semaphore.m_semaphore == s.sem
    }

    /** `run` up to the call of the callback, which it returns: on its own, the machine's
        six steps, touching nothing of the object after the notify. */
    method Run(tid: int, ghost s: State<F>) returns (cb: Option<F>, threadName: string)
      requires Matches(s) && s.runner.SetThis? && s.local == None
      modifies this`m_id, this`m_cb, m_semaphore
      ensures CanRun(s, TO_CALL, false, tid) && Matches(RunAll(s, TO_CALL, false, tid))
      ensures cb == RunAll(s, TO_CALL, false, tid).local && threadName == m_name
      ensures m_id == tid && m_cb == None && cb == old(m_cb)
    {
      SixSteps(s, tid);
      threadName := m_name;
      m_id := tid;
      cb := None;
      cb, m_cb := m_cb, cb;
      m_semaphore.Notify();
    }

    /** What the constructor waits for before it returns. */
    method AwaitStart(ghost s: State<F>, ghost tid: int)
      requires Matches(s) && Enabled(s, WaitReturns, false)
      modifies m_semaphore
      ensures Matches(Do(s, WaitReturns, false, tid))
    {
      m_semaphore.Wait();
    }

    /** Joins at most once: the second time there is no handle. */
    method Join(ghost s: State<F>)
      requires Matches(s) && Enabled(s, Move.Join, false)
      modifies this`m_thread
      ensures Matches(Do(s, Move.Join, false, m_id)) && !m_thread
    {
      if m_thread {
        m_thread := false;
      }
    }
  }
}
