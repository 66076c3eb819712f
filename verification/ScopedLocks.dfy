/** The scoped guards and the lock that spins on an atomic flag (chord/thread.h:22-129,
    252-277). */
module ScopedLocks {
  // ------------------------------------------------------------- one guard

  /** What can be done to a guard between its construction and its destruction. */
  datatype GuardOp = DoLock | DoUnlock

  /** What a guard does to its mutex. */
  datatype MutexCall = Acquire | Release

  /** `m_locked` and the mutex calls of one operation on a guard. */
  function GuardStep(locked: bool, op: GuardOp): (bool, seq<MutexCall>) {
    match op
    case DoLock => (true, if locked then [] else [Acquire])
    case DoUnlock => (false, if locked then [Release] else [])
  }

  function LockedAfter(ops: seq<GuardOp>): bool {
    if ops == [] then true else GuardStep(LockedAfter(ops[..|ops| - 1]), ops[|ops| - 1]).0
  }

  /** The calls made by construction and then `ops`. */
  function CallsAfter(ops: seq<GuardOp>): seq<MutexCall> {
    if ops == [] then [Acquire]
    else CallsAfter(ops[..|ops| - 1]) + GuardStep(LockedAfter(ops[..|ops| - 1]), ops[|ops| - 1]).1
  }

  /** The calls of a whole life: the destructor unlocks. */
  function LifeOf(ops: seq<GuardOp>): seq<MutexCall> {
    CallsAfter(ops + [DoUnlock])
  }

  ghost predicate Alternates(calls: seq<MutexCall>) {
    forall i | 0 <= i < |calls| :: calls[i] == if i % 2 == 0 then Acquire else Release
  }

  lemma {:induction false} GuardCallsAlternate(ops: seq<GuardOp>)
    ensures Alternates(CallsAfter(ops))
    ensures |CallsAfter(ops)| % 2 == if LockedAfter(ops) then 1 else 0
    ensures LockedAfter(ops) <==> ops == [] || ops[|ops| - 1].DoLock?
  {
    if ops != [] {
      GuardCallsAlternate(ops[..|ops| - 1]);
    }
  }

  /** However often a guard is locked and unlocked by hand, over its life it acquires and
      releases in strict alternation, starting with an acquisition and ending with a
      release: it never locks what it holds nor unlocks what it does not. */
  lemma GuardLifeIsBalanced(ops: seq<GuardOp>)
    ensures var calls := LifeOf(ops);
            && Alternates(calls) && |calls| % 2 == 0 && |calls| >= 2
            && calls[0] == Acquire && calls[|calls| - 1] == Release
  {
    GuardCallsAlternate(ops + [DoUnlock]);
    GuardCallsAlternate(ops);
    assert (ops + [DoUnlock])[..|ops|] == ops;
    StartsWithAcquire(ops);
  }

  lemma {:induction false} StartsWithAcquire(ops: seq<GuardOp>)
    ensures CallsAfter(ops) != [] && CallsAfter(ops)[0] == Acquire
  {
    if ops != [] { StartsWithAcquire(ops[..|ops| - 1]); }
  }

  /** Any of the locks, as one thread sees it while no other interferes. */
  class Mutex {
    var held: bool

    constructor ()
      ensures !held
    {
      held := false;
    }

    /** Waits while the lock is held, so it returns only from a free one. */
    method Lock()
      requires !held
      modifies this
      ensures held
    {
      held := true;
    }

    method Unlock()
      requires held
      modifies this
      ensures !held
    {
      held := false;
    }
  }

  /** `ScopedLockImpl`, and the read and write guards alike. `done` records the operations since construction and
      `calls` what reached the mutex. */
  class ScopedLock {
    const m_mutex: Mutex
    var m_locked: bool
    ghost var done: seq<GuardOp>
    ghost var calls: seq<MutexCall>

    ghost predicate Valid()
      reads this, m_mutex
    {
      && m_locked == LockedAfter(done) && calls == CallsAfter(done)
      && (m_locked ==> m_mutex.held)
    }

    constructor (mutex: Mutex)
      requires !mutex.held
      modifies mutex
      ensures Valid() && m_mutex == mutex && m_locked && done == []
    {
      m_mutex, done, calls := mutex, [], [Acquire];
      mutex.Lock();
      m_locked := true;
    }

    method Lock()
      requires Valid() && (m_locked || !m_mutex.held)
      modifies this`m_locked, this`done, this`calls, m_mutex
      ensures Valid() && m_locked && done == old(done) + [DoLock]
    {
      assert (done + [DoLock])[..|done|] == done;
      done := done + [DoLock];
      if !m_locked {
        m_mutex.Lock();
        calls := calls + [Acquire];
        m_locked := true;
      }
    }

    method Unlock()
      requires Valid()
      modifies this`m_locked, this`done, this`calls, m_mutex
      ensures Valid() && !m_locked && done == old(done) + [DoUnlock]
      ensures old(m_locked) ==> !m_mutex.held
      ensures !old(m_locked) ==> m_mutex.held == old(m_mutex.held)
    {
      assert (done + [DoUnlock])[..|done|] == done;
      done := done + [DoUnlock];
      if m_locked {
        m_mutex.Unlock();
        calls := calls + [Release];
        m_locked := false;
      }
    }

    /** The destructor. */
    method Destroy()
      requires Valid()
      modifies this`m_locked, this`done, this`calls, m_mutex
      ensures Valid() && !m_locked && calls == LifeOf(old(done))
      ensures old(m_locked) ==> !m_mutex.held
    {
      Unlock();
    }
  }

  // ------------------------------------- many threads spinning on one CASLock

  /** A thread's guard on the lock: none, trying to acquire, or built. */
  datatype Guard = NoGuard | Spinning | Built(locked: bool)

  datatype Shared = Shared(flag: bool, guards: seq<Guard>, acquired: nat, released: nat)

  datatype Action = Begin | Spin | GiveUp | End

  /** `Begin` is the constructor or `lock()` on an unlocked guard; `Spin` one turn of the
      loop in `CASLock::lock`; `GiveUp` is `unlock()`; `End` the destructor. */
  predicate Can(s: Shared, i: nat, a: Action) {
    i < |s.guards| &&
    match a
    case Begin => s.guards[i].NoGuard? || s.guards[i] == Built(false)
    case Spin => s.guards[i].Spinning?
    case GiveUp => s.guards[i].Built?
    case End => s.guards[i].Built?
  }

  function Act(s: Shared, i: nat, a: Action): Shared
    requires Can(s, i, a)
  {
    match a
    case Begin => s.(guards := s.guards[i := Spinning])
    case Spin =>
      if s.flag then s.(flag := true)
      else s.(flag := true, guards := s.guards[i := Built(true)], acquired := s.acquired + 1)
    case GiveUp => Leave(s, i, Built(false))
    case End => Leave(s, i, NoGuard)
  }

  function Leave(s: Shared, i: nat, g: Guard): Shared
    requires i < |s.guards| && s.guards[i].Built?
  {
    var s' := s.(guards := s.guards[i := g]);
    if s.guards[i].locked then s'.(flag := false, released := s.released + 1) else s'
  }

  ghost predicate IsRun(states: seq<Shared>) {
    && states != [] && !states[0].flag && states[0].acquired == 0 && states[0].released == 0
    && NoGuards(states[0])
    && forall k | 0 < k < |states| :: Next(states[k - 1], states[k])
  }

  ghost predicate Next(s: Shared, t: Shared) {
    exists i: nat, a :: Can(s, i, a) && t == Act(s, i, a)
  }

  predicate NoGuards(s: Shared) {
    forall i | 0 <= i < |s.guards| :: s.guards[i] == NoGuard
  }

  predicate Holds(s: Shared, i: int) {
    0 <= i < |s.guards| && s.guards[i] == Built(true)
  }

  /** The flag is set exactly while one guard says it holds the lock, and only one does. */
  ghost predicate Exclusive(s: Shared) {
    && (s.flag <==> exists i :: Holds(s, i))
    && (forall i, j :: Holds(s, i) && Holds(s, j) ==> i == j)
    && s.acquired == s.released + if s.flag then 1 else 0
  }

  lemma ActIsExclusive(s: Shared, i: nat, a: Action)
    requires Exclusive(s) && Can(s, i, a)
    ensures Exclusive(Act(s, i, a))
  {
    var t := Act(s, i, a);
    forall j ensures Holds(t, j) <==> if j == i then t.guards[i] == Built(true) else Holds(s, j) {}
    if s.guards[i] == Built(true) {
      assert Holds(s, i);
    } else if t.guards[i] == Built(true) {
      assert Holds(t, i);
    } else if j :| Holds(s, j) {
      assert Holds(t, j);
    }
  }

  lemma NextIsExclusive(s: Shared, t: Shared)
    requires Exclusive(s) && Next(s, t)
    ensures Exclusive(t)
  {
    var i: nat, a :| Can(s, i, a) && t == Act(s, i, a);
    ActIsExclusive(s, i, a);
  }

  /** In every interleaving of any number of threads, at most one guard holds the lock,
      the flag says whether one does, and acquisitions exceed releases by just that. */
  lemma {:induction false} CasLockIsExclusive(states: seq<Shared>)
    requires IsRun(states)
    ensures Exclusive(states[|states| - 1])
    decreases |states|
  {
    var last := |states| - 1;
    if last > 0 {
      CasLockIsExclusive(states[..last]);
      NextIsExclusive(states[last - 1], states[last]);
    } else {
      assert forall i :: !Holds(states[0], i);
    }
  }

  /** A turn of the loop takes the lock if and only if no guard holds it; otherwise nothing
      changes, and the thread goes on spinning. */
  lemma SpinTakesAFreeLockIff(states: seq<Shared>, i: nat)
    requires IsRun(states) && Can(states[|states| - 1], i, Spin)
    ensures var s, t := states[|states| - 1], Act(states[|states| - 1], i, Spin);
            if exists j :: Holds(s, j) then t == s
            else t.flag && t.acquired == s.acquired + 1 && t.guards == s.guards[i := Built(true)]
  {
    CasLockIsExclusive(states);
  }

  /** When every guard has been destroyed the lock is free again. */
  lemma NoGuardNoLock(states: seq<Shared>)
    requires IsRun(states) && NoGuards(states[|states| - 1])
    ensures var s := states[|states| - 1]; !s.flag && s.acquired == s.released
  {
    CasLockIsExclusive(states);
    var s := states[|states| - 1];
    assert forall i :: !Holds(s, i);
  }
}
