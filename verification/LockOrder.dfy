/** Lock nesting and deadlock freedom for any number of threads. Every guard of
    chord/thread.h is scoped, so what a thread does is a list of nested `Guard`s with the
    accesses to shared data in their places; the operations themselves are in
    `LockedOperations`. */
module LockOrder {

  /** The locks of the system, one constructor a level. */
  datatype Lock =
    | Registry             // Config::GetMutex
    | Var(name: string)    // ConfigVar::m_mutex
    | Manager              // LoggerManager::m_mutex
    | NamedLogger(id: nat) // Logger::m_mutex of any logger but root
    | RootLogger
    | Appender(id: nat)    // LogAppender::m_mutex

  function Rank(l: Lock): nat {
    match l
    case Registry => 0
    case Var(_) => 1
    case Manager => 2
    case NamedLogger(_) => 3
    case RootLogger => 4
    case Appender(_) => 5
  }

  /** Spinlocks are exclusive; the registry and the variables use an RWMutex. */
  predicate IsSpinlock(l: Lock) {
    Rank(l) >= 2
  }

  datatype Mode = Shared | Exclusive

  /** What threads share. */
  datatype Datum =
    | Variables                       // the registry's map
    | Value(name: string)             // ConfigVar::m_val
    | Listeners(name: string)         // ConfigVar::m_cbs
    | ListenerIds                     // the static counter of addListener
    | LoggerTable                     // LoggerManager::m_logger
    | LoggerFormatter(logger: Lock)   // Logger::m_formatter
    | Attached(logger: Lock)          // Logger::m_appenders
    | AppenderFormatter(id: nat)      // LogAppender::m_formatter and its flag
    | Stream(id: nat)                 // FileLogAppender::m_filestream
    | LastTime(id: nat)               // FileLogAppender::m_lastTime
    | LevelOf(holder: Lock)           // m_level of the logger or appender with that lock

  datatype Code =
    | Guard(lock: Lock, mode: Mode, body: seq<Code>)
    | Touch(datum: Datum, writes: bool)

  /** Nested guards take strictly higher ranks than everything around them. */
  predicate RespectsRank(cs: seq<Code>, floor: int) {
    cs == [] ||
    (&& (cs[0].Guard? ==>
           && Rank(cs[0].lock) > floor
           && (IsSpinlock(cs[0].lock) ==> cs[0].mode.Exclusive?)
           && RespectsRank(cs[0].body, Rank(cs[0].lock)))
     && RespectsRank(cs[1..], floor))
  }

  datatype Act = Acquire(lock: Lock, mode: Mode) | Release(lock: Lock) | Access(datum: Datum, writes: bool)

  /** The acquisitions, releases and accesses of `cs`, in order, followed by `rest`. */
  function Flatten(cs: seq<Code>, rest: seq<Act>): seq<Act>
    decreases cs
  {
    if cs == [] then rest
    else
      match cs[0]
      case Guard(l, m, body) => [Acquire(l, m)] + Flatten(body, [Release(l)] + Flatten(cs[1..], rest))
      case Touch(d, writes) => [Access(d, writes)] + Flatten(cs[1..], rest)
  }

  // ------------------------------------------------------------ the machine

  datatype Thread = Thread(held: map<Lock, Mode>, todo: seq<Act>)

  type System = seq<Thread>

  predicate Conflicts(t: Thread, l: Lock, m: Mode) {
    l in t.held && (m.Exclusive? || t.held[l].Exclusive?)
  }

  predicate WaitsToWrite(t: Thread, l: Lock) {
    t.todo != [] && t.todo[0] == Acquire(l, Exclusive)
  }

  /** A reader may also be made to wait for waiting writers: POSIX leaves that to
      the implementation, so the policy is a parameter. */
  ghost predicate Enabled(s: System, i: nat, writersFirst: bool) {
    && i < |s| && s[i].todo != []
    && match s[i].todo[0]
       case Release(_) => true
       case Access(_, _) => true
       case Acquire(l, m) =>
         && (forall j | 0 <= j < |s| :: !Conflicts(s[j], l, m))
         && (writersFirst && m.Shared? ==> forall j | 0 <= j < |s| :: !WaitsToWrite(s[j], l))
  }

  function Advance(t: Thread): Thread
    requires t.todo != []
  {
    match t.todo[0]
    case Acquire(l, m) => Thread(t.held[l := m], t.todo[1..])
    case Release(l) => Thread(t.held - {l}, t.todo[1..])
    case Access(_, _) => Thread(t.held, t.todo[1..])
  }

  ghost predicate Next(s: System, s': System, i: nat, writersFirst: bool) {
    Enabled(s, i, writersFirst) && s' == s[i := Advance(s[i])]
  }

  // -------------------------------------------------------------- invariant

  /** What is still to be done takes locks above everything held, releases only
      what is held, and releases all of it. */
  predicate Ordered(held: set<Lock>, todo: seq<Act>)
    decreases |todo|
  {
    if todo == [] then held == {}
    else
      match todo[0]
      case Acquire(l, _) => (forall h | h in held :: Rank(h) < Rank(l)) && Ordered(held + {l}, todo[1..])
      case Release(l) => l in held && Ordered(held - {l}, todo[1..])
      case Access(_, _) => Ordered(held, todo[1..])
  }

  ghost predicate MutualExclusion(s: System) {
    forall i, j, l | 0 <= i < |s| && 0 <= j < |s| && i != j && l in s[i].held && l in s[j].held ::
      s[i].held[l].Shared? && s[j].held[l].Shared?
  }

  ghost predicate Inv(s: System) {
    && (forall i | 0 <= i < |s| :: Ordered(s[i].held.Keys, s[i].todo))
    && MutualExclusion(s)
  }

  lemma {:induction false} FlattenIsOrdered(cs: seq<Code>, floor: int, held: set<Lock>, rest: seq<Act>)
    requires RespectsRank(cs, floor)
    requires forall h | h in held :: Rank(h) <= floor
    requires Ordered(held, rest)
    ensures Ordered(held, Flatten(cs, rest))
    decreases cs
  {
    if cs != [] {
      FlattenIsOrdered(cs[1..], floor, held, rest);
      if cs[0].Guard? {
        var l := cs[0].lock;
        assert held + {l} - {l} == held;
        FlattenIsOrdered(cs[0].body, Rank(l), held + {l}, [Release(l)] + Flatten(cs[1..], rest));
      }
    }
  }

  /** Threads that run rank-respecting code start in the invariant. */
  lemma InitialInv(programs: seq<seq<Code>>)
    requires forall i | 0 <= i < |programs| :: RespectsRank(programs[i], -1)
    ensures Inv(Start(programs))
  {
    forall i | 0 <= i < |programs| ensures Ordered(Start(programs)[i].held.Keys, Start(programs)[i].todo) {
      assert Start(programs)[i].held.Keys == {};
      FlattenIsOrdered(programs[i], -1, {}, []);
    }
  }

  function Start(programs: seq<seq<Code>>): System {
    seq(|programs|, i requires 0 <= i < |programs| => Thread(map[], Flatten(programs[i], [])))
  }

  lemma StepKeepsInv(s: System, s': System, i: nat, writersFirst: bool)
    requires Inv(s) && Next(s, s', i, writersFirst)
    ensures Inv(s')
  {
    var t, t' := s[i], s'[i];
    assert Ordered(t.held.Keys, t.todo);
    match t.todo[0]
    case Acquire(l, m) =>
      assert t'.held.Keys == t.held.Keys + {l};
      forall j | 0 <= j < |s| && j != i && l in s[j].held ensures m.Shared? && s[j].held[l].Shared? {
        assert !Conflicts(s[j], l, m);
      }
    case Release(l) =>
      assert t'.held.Keys == t.held.Keys - {l};
    case Access(_, _) =>
  }

  /** No thread ever asks for a lock it already holds. */
  lemma NoRelock(s: System, i: nat)
    requires Inv(s) && i < |s| && s[i].todo != [] && s[i].todo[0].Acquire?
    ensures s[i].todo[0].lock !in s[i].held
    ensures forall h | h in s[i].held :: Rank(h) < Rank(s[i].todo[0].lock)
  {
    assert Ordered(s[i].held.Keys, s[i].todo);
  }

  // --------------------------------------------------------------- progress

  predicate Waiting(t: Thread) {
    t.todo != [] && t.todo[0].Acquire?
  }

  /** A waiting thread whose wanted lock has the highest rank of all. */
  ghost predicate WantsHighest(s: System, i: nat) {
    && i < |s| && Waiting(s[i])
    && forall j | 0 <= j < |s| && Waiting(s[j]) :: Rank(s[j].todo[0].lock) <= Rank(s[i].todo[0].lock)
  }

  lemma {:induction false} HighestExists(s: System) returns (i: nat)
    requires exists j | 0 <= j < |s| :: Waiting(s[j])
    ensures WantsHighest(s, i)
  {
    var last := |s| - 1;
    if forall j | 0 <= j < last :: !Waiting(s[j]) {
      i := last;
    } else {
      var j :| 0 <= j < last && Waiting(s[j]);
      assert Waiting(s[..last][j]);
      i := HighestExists(s[..last]);
      forall k | 0 <= k < last && Waiting(s[k]) ensures Rank(s[k].todo[0].lock) <= Rank(s[i].todo[0].lock) {
        assert Waiting(s[..last][k]);
      }
      if Waiting(s[last]) && Rank(s[last].todo[0].lock) > Rank(s[i].todo[0].lock) {
        i := last;
      }
    }
  }

  /** The holder of a lock somebody wants is not finished, and can only be waiting
      for a higher one. */
  lemma HolderIsNotStuckBelow(s: System, k: nat, l: Lock)
    requires Inv(s) && k < |s| && l in s[k].held
    ensures s[k].todo != []
    ensures Waiting(s[k]) ==> Rank(s[k].todo[0].lock) > Rank(l)
  {
    assert Ordered(s[k].held.Keys, s[k].todo);
    assert l in s[k].held.Keys;
  }

  /** Deadlock freedom: some thread can step unless all have finished. */
  lemma {:induction false} Progress(s: System, writersFirst: bool) returns (i: nat)
    requires Inv(s) && !Finished(s)
    ensures Enabled(s, i, writersFirst)
  {
    if k :| 0 <= k < |s| && s[k].todo != [] && !s[k].todo[0].Acquire? {
      return k;
    }
    var j :| 0 <= j < |s| && s[j].todo != [];
    assert Waiting(s[j]);
    i := HighestExists(s);
    var l := s[i].todo[0].lock;
    forall k | 0 <= k < |s| ensures l !in s[k].held {
      if l in s[k].held {
        HolderIsNotStuckBelow(s, k, l);
        assert Waiting(s[k]);
        assert false;
      }
    }
    if w :| 0 <= w < |s| && WaitsToWrite(s[w], l) {
      i := w;
    }
  }

  // ------------------------------------------------------------- whole runs

  ghost predicate CanStep(s: System, s': System, writersFirst: bool) {
    exists i: nat :: Next(s, s', i, writersFirst)
  }

  ghost predicate Run(states: seq<System>, writersFirst: bool) {
    forall k | 0 < k < |states| :: CanStep(states[k - 1], states[k], writersFirst)
  }

  lemma {:induction false} RunKeepsInv(states: seq<System>, writersFirst: bool, k: nat)
    requires k < |states| && Run(states, writersFirst) && Inv(states[0])
    ensures Inv(states[k])
  {
    if k > 0 {
      RunKeepsInv(states, writersFirst, k - 1);
      var i: nat :| Next(states[k - 1], states[k], i, writersFirst);
      StepKeepsInv(states[k - 1], states[k], i, writersFirst);
    }
  }

  function Work(s: System): nat {
    if s == [] then 0 else |s[0].todo| + Work(s[1..])
  }

  lemma {:induction false} WorkDrops(s: System, i: nat, t: Thread)
    requires i < |s| && |t.todo| < |s[i].todo|
    ensures Work(s[i := t]) < Work(s)
  {
    if i == 0 {
      assert s[i := t][1..] == s[1..];
    } else {
      assert s[i := t][1..] == s[1..][i - 1 := t];
      WorkDrops(s[1..], i - 1, t);
    }
  }

  ghost predicate Finished(s: System) {
    forall i | 0 <= i < |s| :: s[i].todo == []
  }

  /** `s` can run until all threads have finished. */
  least predicate CanFinish(s: System, writersFirst: bool) {
    Finished(s) || exists s' :: CanStep(s, s', writersFirst) && CanFinish(s', writersFirst)
  }

  lemma {:induction false} AlwaysCanFinish(s: System, writersFirst: bool)
    requires Inv(s)
    ensures CanFinish(s, writersFirst)
    decreases Work(s)
  {
    if !Finished(s) {
      var i := Progress(s, writersFirst);
      var s' := s[i := Advance(s[i])];
      assert Next(s, s', i, writersFirst);
      StepKeepsInv(s, s', i, writersFirst);
      WorkDrops(s, i, Advance(s[i]));
      AlwaysCanFinish(s', writersFirst);
      assert CanStep(s, s', writersFirst) && CanFinish(s', writersFirst);
    }
  }

  /** No run is longer than the work its first state holds. */
  lemma {:induction false} RunsAreBounded(states: seq<System>, writersFirst: bool, k: nat)
    requires k < |states| && Run(states, writersFirst)
    ensures k + Work(states[k]) <= Work(states[0])
  {
    if k > 0 {
      RunsAreBounded(states, writersFirst, k - 1);
      var i: nat :| Next(states[k - 1], states[k], i, writersFirst);
      WorkDrops(states[k - 1], i, Advance(states[k - 1][i]));
    }
  }

  /** Every state reachable by any number of threads running rank-respecting code
      has an enabled step while some thread is unfinished, and can be completed. */
  lemma {:induction false} DeadlockFree(programs: seq<seq<Code>>, states: seq<System>, writersFirst: bool, k: nat)
    requires forall i | 0 <= i < |programs| :: RespectsRank(programs[i], -1)
    requires k < |states| && states[0] == Start(programs) && Run(states, writersFirst)
    ensures MutualExclusion(states[k])
    ensures !Finished(states[k]) ==> exists i: nat :: Enabled(states[k], i, writersFirst)
    ensures CanFinish(states[k], writersFirst)
  {
    InitialInv(programs);
    RunKeepsInv(states, writersFirst, k);
    if !Finished(states[k]) {
      var i := Progress(states[k], writersFirst);
    }
    AlwaysCanFinish(states[k], writersFirst);
  }
}
