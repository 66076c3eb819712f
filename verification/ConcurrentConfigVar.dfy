/** One `ConfigVar` shared by any number of threads (chord/config.h:347-401), in
    steps as fine as its lock allows. `setValue` compares and notifies under the read
    lock, releases it, and only then takes the write lock to store: other calls may
    run in that gap. */
module ConcurrentConfigVar {
  import opened ConfigVars

  /** A change to the listeners, made under the write lock. */
  datatype Edit = Add | Delete(key: nat) | Clear

  /** Where a thread is. `c` numbers the `setValue` calls that found a change. */
  datatype Pc<T> =
    | Idle
    | WantSet(v: T)                 // before the read lock
    | InRound(c: nat, v: T, done: nat)  // read lock held, `done` listeners called
    | Unchanged                     // read lock held, nothing to do
    | WantStore(c: nat, v: T, keys: seq<nat>, before: T)  // the gap
    | MayStore(c: nat, v: T, keys: seq<nat>, before: T)   // write lock held
    | Stored                        // write lock held, value stored
    | WantRead
    | Reading                       // read lock held
    | WantEdit(e: Edit)
    | MayEdit(e: Edit)              // write lock held
    | Edited                        // write lock held

  datatype Event<T> =
    | Began(c: nat, keys: seq<nat>, before: T, v: T)
    | Notified(c: nat, key: nat, before: T, v: T)
    | RoundOver(c: nat, v: T)
    | Wrote(c: nat, v: T)
    | DidEdit(e: Edit, added: nat)

  datatype System<T> = System(val: T, keys: seq<nat>, lastId: nat, calls: nat,
                              threads: seq<Pc<T>>, history: seq<Event<T>>)

  predicate HoldsRead<T>(pc: Pc<T>) {
    pc.InRound? || pc.Unchanged? || pc.Reading?
  }

  predicate HoldsWrite<T>(pc: Pc<T>) {
    pc.MayStore? || pc.Stored? || pc.MayEdit? || pc.Edited?
  }

  ghost predicate CanRead<T>(s: System<T>) {
    forall j | 0 <= j < |s.threads| :: !HoldsWrite(s.threads[j])
  }

  ghost predicate CanWrite<T>(s: System<T>) {
    forall j | 0 <= j < |s.threads| :: !HoldsWrite(s.threads[j]) && !HoldsRead(s.threads[j])
  }

  function Goto<T>(s: System<T>, i: nat, pc: Pc<T>): System<T>
    requires i < |s.threads|
  {
    s.(threads := s.threads[i := pc])
  }

  function Log<T>(s: System<T>, e: Event<T>): System<T> {
    s.(history := s.history + [e])
  }

  function EditKeys<T>(s: System<T>, e: Edit): System<T> {
    match e
    case Add => Log(s.(keys := s.keys + [s.lastId + 1], lastId := s.lastId + 1), DidEdit(e, s.lastId + 1))
    case Delete(key) => Log(s.(keys := Without(s.keys, key)), DidEdit(e, 0))
    case Clear => Log(s.(keys := []), DidEdit(e, 0))
  }

  /** Thread `i` takes its next step. An idle thread may start any call. */
  ghost predicate Next<T(!new)>(s: System<T>, s': System<T>, i: nat) {
    && i < |s.threads|
    && match s.threads[i]
       case Idle => exists pc: Pc<T> :: (pc.WantSet? || pc.WantRead? || pc.WantEdit?) && s' == Goto(s, i, pc)
       case WantSet(v) =>
         && CanRead(s)
         && s' == if v == s.val then Goto(s, i, Unchanged)
                  else Log(Goto(s, i, InRound(s.calls, v, 0)).(calls := s.calls + 1), Began(s.calls, s.keys, s.val, v))
       case Unchanged => s' == Goto(s, i, Idle)
       case InRound(c, v, done) =>
         s' == if done < |s.keys| then Log(Goto(s, i, InRound(c, v, done + 1)), Notified(c, s.keys[done], s.val, v))
               else Log(Goto(s, i, WantStore(c, v, s.keys, s.val)), RoundOver(c, v))
       case WantStore(c, v, keys, before) => CanWrite(s) && s' == Goto(s, i, MayStore(c, v, keys, before))
       case MayStore(c, v, _, _) => s' == Log(Goto(s, i, Stored).(val := v), Wrote(c, v))
       case Stored => s' == Goto(s, i, Idle)
       case WantRead => CanRead(s) && s' == Goto(s, i, Reading)
       case Reading => s' == Goto(s, i, Idle)
       case WantEdit(e) => CanWrite(s) && s' == Goto(s, i, MayEdit(e))
       case MayEdit(e) => s' == EditKeys(Goto(s, i, Edited), e)
       case Edited => s' == Goto(s, i, Idle)
  }

  // ------------------------------------------- what a history must look like

  /** The value stored after a history. */
  function ValueAfter<T>(h: seq<Event<T>>, default: T): T {
    if h == [] then default
    else if h[|h| - 1].Wrote? then h[|h| - 1].v
    else ValueAfter(h[..|h| - 1], default)
  }

  /** The listeners registered after a history. */
  function KeysAfter<T>(h: seq<Event<T>>): seq<nat> {
    if h == [] then []
    else
      var before, last := KeysAfter(h[..|h| - 1]), h[|h| - 1];
      if !last.DidEdit? then before
      else match last.e
           case Add => before + [last.added]
           case Delete(key) => Without(before, key)
           case Clear => []
  }

  predicate Belongs<T>(e: Event<T>, c: nat) {
    !e.DidEdit? && e.c == c
  }

  /** The events of call `c`, in order. */
  function OfCall<T>(h: seq<Event<T>>, c: nat): seq<Event<T>> {
    if h == [] then []
    else
      var last := h[|h| - 1];
      OfCall(h[..|h| - 1], c) + if Belongs(last, c) then [last] else []
  }

  /** The first `done` steps of a round: it begins, and calls `keys` one by one. */
  function Partial<T>(c: nat, keys: seq<nat>, before: T, v: T, done: nat): seq<Event<T>>
    requires done <= |keys|
  {
    [Began(c, keys, before, v)] + seq(done, k requires 0 <= k < done => Notified(c, keys[k], before, v))
  }

  /** A complete round. */
  function Announced<T>(c: nat, keys: seq<nat>, before: T, v: T): seq<Event<T>> {
    Partial(c, keys, before, v, |keys|) + [RoundOver(c, v)]
  }

  /** The accounting promised of event `i`. */
  ghost predicate Accounted<T(!new)>(h: seq<Event<T>>, i: nat, default: T)
    requires i < |h|
  {
    match h[i]
    case Began(_, keys, before, v) =>
      keys == KeysAfter(h[..i]) && Ascending(keys) && before == ValueAfter(h[..i], default) && before != v
    case Notified(_, _, before, v) => before == ValueAfter(h[..i], default) && before != v
    case Wrote(c, v) => exists keys, before :: OfCall(h[..i], c) == Announced(c, keys, before, v)
    case _ => true
  }

  ghost predicate AllAccounted<T(!new)>(h: seq<Event<T>>, default: T) {
    forall i | 0 <= i < |h| :: Accounted(h, i, default)
  }

  function Rounds<T>(h: seq<Event<T>>): nat {
    if h == [] then 0 else Rounds(h[..|h| - 1]) + if h[|h| - 1].RoundOver? then 1 else 0
  }

  function Writes<T>(h: seq<Event<T>>): nat {
    if h == [] then 0 else Writes(h[..|h| - 1]) + if h[|h| - 1].Wrote? then 1 else 0
  }

  // -------------------------------------------------------------- invariant

  ghost predicate ThreadOk<T(!new)>(s: System<T>, pc: Pc<T>) {
    match pc
    case InRound(c, v, done) =>
      && v != s.val && c < s.calls && done <= |s.keys|
      && OfCall(s.history, c) == Partial(c, s.keys, s.val, v, done)
    case WantStore(c, v, keys, before) => c < s.calls && OfCall(s.history, c) == Announced(c, keys, before, v)
    case MayStore(c, v, keys, before) => c < s.calls && OfCall(s.history, c) == Announced(c, keys, before, v)
    case _ => true
  }

  predicate InCall<T>(pc: Pc<T>) {
    pc.InRound? || pc.WantStore? || pc.MayStore?
  }

  /** Threads between the end of their round and their store. */
  function Pending<T>(threads: seq<Pc<T>>): nat {
    if threads == [] then 0
    else (if threads[0].WantStore? || threads[0].MayStore? then 1 else 0) + Pending(threads[1..])
  }

  ghost predicate Locked<T>(threads: seq<Pc<T>>) {
    forall i, j | 0 <= i < |threads| && 0 <= j < |threads| && i != j && HoldsWrite(threads[i]) ::
      !HoldsRead(threads[j]) && !HoldsWrite(threads[j])
  }

  ghost predicate Inv<T(!new)>(s: System<T>, default: T) {
    && Locked(s.threads)
    && (forall i | 0 <= i < |s.threads| :: ThreadOk(s, s.threads[i]))
    && (forall i, j | 0 <= i < |s.threads| && 0 <= j < |s.threads| && i != j
          && InCall(s.threads[i]) && InCall(s.threads[j]) :: s.threads[i].c != s.threads[j].c)
    && (forall c | c >= s.calls :: OfCall(s.history, c) == [])
    && Ascending(s.keys) && (forall k | k in s.keys :: k <= s.lastId)
    && s.val == ValueAfter(s.history, default) && s.keys == KeysAfter(s.history)
    && AllAccounted(s.history, default)
    && Rounds(s.history) == Writes(s.history) + Pending(s.threads)
  }

  lemma InitialInv<T(!new)>(s: System<T>, default: T)
    requires s.val == default && s.keys == [] && s.calls == 0 && s.history == []
    requires forall i | 0 <= i < |s.threads| :: s.threads[i] == Idle
    ensures Inv(s, default)
  {
    NothingPending(s.threads);
  }

  lemma {:induction false} NothingPending<T>(threads: seq<Pc<T>>)
    requires forall i | 0 <= i < |threads| :: threads[i] == Idle
    ensures Pending(threads) == 0
  {
    if threads != [] {
      NothingPending(threads[1..]);
    }
  }

  lemma {:induction false} PendingUpdate<T>(threads: seq<Pc<T>>, i: nat, pc: Pc<T>)
    requires i < |threads|
    ensures Pending(threads[i := pc]) + (if threads[i].WantStore? || threads[i].MayStore? then 1 else 0)
         == Pending(threads) + (if pc.WantStore? || pc.MayStore? then 1 else 0)
  {
    if i == 0 {
      assert threads[i := pc][1..] == threads[1..];
    } else {
      assert threads[i := pc][1..] == threads[1..][i - 1 := pc];
      PendingUpdate(threads[1..], i - 1, pc);
    }
  }

  /** What one more event does to every reading of the history. */
  lemma Extend<T(!new)>(h: seq<Event<T>>, e: Event<T>, default: T)
    ensures ValueAfter(h + [e], default) == if e.Wrote? then e.v else ValueAfter(h, default)
    ensures KeysAfter(h + [e]) == if !e.DidEdit? then KeysAfter(h)
                                  else match e.e
                                       case Add => KeysAfter(h) + [e.added]
                                       case Delete(key) => Without(KeysAfter(h), key)
                                       case Clear => []
    ensures forall c :: OfCall(h + [e], c) == OfCall(h, c) + if Belongs(e, c) then [e] else []
    ensures Rounds(h + [e]) == Rounds(h) + if e.RoundOver? then 1 else 0
    ensures Writes(h + [e]) == Writes(h) + if e.Wrote? then 1 else 0
  {
    assert (h + [e])[..|h|] == h;
  }

  lemma ExtendAccounts<T(!new)>(h: seq<Event<T>>, e: Event<T>, default: T)
    requires AllAccounted(h, default) && Accounted(h + [e], |h|, default)
    ensures AllAccounted(h + [e], default)
  {
    forall i | 0 <= i < |h| ensures Accounted(h + [e], i, default) {
      assert (h + [e])[..i] == h[..i] && (h + [e])[i] == h[i];
      assert Accounted(h, i, default);
    }
  }

  /** Steps that change neither the data nor the history. */
  lemma QuietStep<T(!new)>(s: System<T>, s': System<T>, i: nat, default: T)
    requires Inv(s, default) && i < |s.threads|
    requires |s'.threads| == |s.threads| && s' == Goto(s, i, s'.threads[i])
    requires Locked(s'.threads) && ThreadOk(s, s'.threads[i])
    requires InCall(s'.threads[i]) ==> InCall(s.threads[i]) && s'.threads[i].c == s.threads[i].c
    requires (s'.threads[i].WantStore? || s'.threads[i].MayStore?) <==>
              (s.threads[i].WantStore? || s.threads[i].MayStore?)
    ensures Inv(s', default)
  {
    PendingUpdate(s.threads, i, s'.threads[i]);
    hide OfCall, AllAccounted, ValueAfter, KeysAfter, Partial, Announced;
    forall j | 0 <= j < |s'.threads| ensures ThreadOk(s', s'.threads[j]) {
      assert j != i ==> ThreadOk(s, s.threads[j]);
    }
  }

  /** What a step that records event `e` leaves of the other threads. */
  lemma OthersOk<T(!new)>(s: System<T>, s': System<T>, i: nat, e: Event<T>, default: T)
    requires Inv(s, default) && i < |s.threads| && |s'.threads| == |s.threads| && s'.calls >= s.calls
    requires s'.history == s.history + [e]
    requires forall j | 0 <= j < |s.threads| && j != i :: s'.threads[j] == s.threads[j]
    requires forall j | 0 <= j < |s.threads| && j != i && InCall(s.threads[j]) :: !Belongs(e, s.threads[j].c)
    requires (s'.val == s.val && s'.keys == s.keys) || HoldsWrite(s.threads[i])
    ensures forall j | 0 <= j < |s.threads| && j != i :: ThreadOk(s', s'.threads[j])
  {
    Extend(s.history, e, default);
    hide OfCall, AllAccounted, ValueAfter, KeysAfter, Partial, Announced, Belongs;
    forall j | 0 <= j < |s.threads| && j != i ensures ThreadOk(s', s'.threads[j]) {
      assert ThreadOk(s, s.threads[j]);
      if InCall(s.threads[j]) {
        assert OfCall(s'.history, s.threads[j].c) == OfCall(s.history, s.threads[j].c);
      }
    }
  }

  lemma NoCallYet<T(!new)>(s: System<T>, e: Event<T>, calls: nat, default: T)
    requires Inv(s, default) && calls >= s.calls && (!e.DidEdit? ==> e.c < calls)
    ensures forall c | c >= calls :: OfCall(s.history + [e], c) == []
  {
    Extend(s.history, e, default);
    forall c | c >= calls ensures OfCall(s.history + [e], c) == [] {
      assert OfCall(s.history, c) == [];
    }
  }

  lemma BeginStep<T(!new)>(s: System<T>, s': System<T>, i: nat, default: T)
    requires Inv(s, default) && Next(s, s', i) && s.threads[i].WantSet? && s.threads[i].v != s.val
    ensures Inv(s', default)
  {
    var v := s.threads[i].v;
    var e := Began(s.calls, s.keys, s.val, v);
    PendingUpdate(s.threads, i, s'.threads[i]);
    Extend(s.history, e, default);
    assert Accounted(s'.history, |s.history|, default) by { assert s'.history[..|s.history|] == s.history; }
    ExtendAccounts(s.history, e, default);
    NoCallYet(s, e, s'.calls, default);
    OthersOk(s, s', i, e, default);
    assert OfCall(s.history, s.calls) == [];
    assert OfCall(s'.history, s.calls) == [e];
    assert Partial(s.calls, s.keys, s.val, v, 0) == [e];
    hide OfCall, AllAccounted, ValueAfter, KeysAfter, Partial, Announced, Rounds, Writes;
    assert ThreadOk(s', s'.threads[i]);
  }

  lemma NotifyStep<T(!new)>(s: System<T>, s': System<T>, i: nat, default: T)
    requires Inv(s, default) && Next(s, s', i) && s.threads[i].InRound? && s.threads[i].done < |s.keys|
    ensures Inv(s', default)
  {
    var InRound(c, v, done) := s.threads[i];
    assert ThreadOk(s, s.threads[i]);
    var e := Notified(c, s.keys[done], s.val, v);
    PendingUpdate(s.threads, i, s'.threads[i]);
    Extend(s.history, e, default);
    assert Accounted(s'.history, |s.history|, default) by { assert s'.history[..|s.history|] == s.history; }
    ExtendAccounts(s.history, e, default);
    NoCallYet(s, e, s'.calls, default);
    OthersOk(s, s', i, e, default);
    assert Partial(c, s.keys, s.val, v, done) + [e] == Partial(c, s.keys, s.val, v, done + 1);
    hide OfCall, AllAccounted, ValueAfter, KeysAfter, Partial, Announced, Rounds, Writes;
    assert ThreadOk(s', s'.threads[i]);
  }

  lemma EndRoundStep<T(!new)>(s: System<T>, s': System<T>, i: nat, default: T)
    requires Inv(s, default) && Next(s, s', i) && s.threads[i].InRound? && s.threads[i].done >= |s.keys|
    ensures Inv(s', default)
  {
    var InRound(c, v, done) := s.threads[i];
    assert ThreadOk(s, s.threads[i]);
    var e := RoundOver(c, v);
    PendingUpdate(s.threads, i, s'.threads[i]);
    Extend(s.history, e, default);
    ExtendAccounts(s.history, e, default);
    NoCallYet(s, e, s'.calls, default);
    OthersOk(s, s', i, e, default);
    assert Partial(c, s.keys, s.val, v, done) + [e] == Announced(c, s.keys, s.val, v);
    hide OfCall, AllAccounted, ValueAfter, KeysAfter, Partial, Announced, Rounds, Writes;
    assert ThreadOk(s', s'.threads[i]);
  }

  lemma StoreStep<T(!new)>(s: System<T>, s': System<T>, i: nat, default: T)
    requires Inv(s, default) && Next(s, s', i) && s.threads[i].MayStore?
    ensures Inv(s', default)
  {
    var MayStore(c, v, keys, before) := s.threads[i];
    assert ThreadOk(s, s.threads[i]);
    var e := Wrote(c, v);
    PendingUpdate(s.threads, i, s'.threads[i]);
    Extend(s.history, e, default);
    assert Accounted(s'.history, |s.history|, default) by {
      assert s'.history[..|s.history|] == s.history;
      assert OfCall(s'.history[..|s.history|], c) == Announced(c, keys, before, v);
    }
    ExtendAccounts(s.history, e, default);
    NoCallYet(s, e, s'.calls, default);
    OthersOk(s, s', i, e, default);
    hide OfCall, AllAccounted, ValueAfter, KeysAfter, Partial, Announced, Rounds, Writes;
    assert ThreadOk(s', s'.threads[i]);
  }

  lemma EditStep<T(!new)>(s: System<T>, s': System<T>, i: nat, default: T)
    requires Inv(s, default) && Next(s, s', i) && s.threads[i].MayEdit?
    ensures Inv(s', default)
  {
    var ed := s.threads[i].e;
    var e: Event<T> := DidEdit(ed, if ed.Add? then s.lastId + 1 else 0);
    assert s' == EditKeys(Goto(s, i, Edited), ed);
    EditKeepsOrder(Goto(s, i, Edited), ed);
    Extend(s.history, e, default);
    hide Next, Ascending, KeysAfter, AllAccounted, ThreadOk, Locked;
    EditEffect(s, s', i, e, default);
  }

  /** A change to the listeners, by its effect. */
  lemma EditEffect<T(!new)>(s: System<T>, t: System<T>, i: nat, e: Event<T>, default: T)
    requires Inv(s, default) && i < |s.threads| && s.threads[i].MayEdit? && e.DidEdit?
    requires t == s.(threads := s.threads[i := Edited], keys := t.keys, lastId := t.lastId, history := s.history + [e])
    requires Ascending(t.keys) && (forall k | k in t.keys :: k <= t.lastId) && t.keys == KeysAfter(t.history)
    ensures Inv(t, default)
  {
    PendingUpdate(s.threads, i, Edited);
    Extend(s.history, e, default);
    ExtendAccounts(s.history, e, default);
    NoCallYet(s, e, t.calls, default);
    OthersOk(s, t, i, e, default);
    hide Ascending, OfCall, AllAccounted, ValueAfter, KeysAfter, Partial, Announced, Rounds, Writes;
  }

  lemma EditKeepsOrder<T(!new)>(s: System<T>, ed: Edit)
    requires Ascending(s.keys) && forall k | k in s.keys :: k <= s.lastId
    ensures var t := EditKeys(s, ed); Ascending(t.keys) && forall k | k in t.keys :: k <= t.lastId
  {
    match ed
    case Add => forall j | 0 <= j < |s.keys| ensures s.keys[j] < s.lastId + 1 { assert s.keys[j] in s.keys; }
    case Delete(key) => WithoutKeepsOrder(s.keys, key);
    case Clear =>
  }

  lemma StepKeepsInv<T(!new)>(s: System<T>, s': System<T>, i: nat, default: T)
    requires Inv(s, default) && Next(s, s', i)
    ensures Inv(s', default)
  {
    assert ThreadOk(s, s.threads[i]);
    match s.threads[i]
    case WantSet(v) => if v == s.val { QuietStep(s, s', i, default); } else { BeginStep(s, s', i, default); }
    case InRound(_, _, done) =>
      if done < |s.keys| { NotifyStep(s, s', i, default); } else { EndRoundStep(s, s', i, default); }
    case MayStore(_, _, _, _) => StoreStep(s, s', i, default);
    case MayEdit(_) => EditStep(s, s', i, default);
    case _ => QuietStep(s, s', i, default);
  }

  // ------------------------------------------------------------- whole runs

  ghost predicate CanStep<T(!new)>(s: System<T>, s': System<T>) {
    exists i: nat :: Next(s, s', i)
  }

  ghost predicate Run<T(!new)>(states: seq<System<T>>) {
    forall k | 0 < k < |states| :: CanStep(states[k - 1], states[k])
  }

  ghost predicate Initial<T(!new)>(s: System<T>, default: T) {
    && s.val == default && s.keys == [] && s.calls == 0 && s.history == []
    && forall i | 0 <= i < |s.threads| :: s.threads[i] == Idle
  }

  lemma {:induction false} ReachableInv<T(!new)>(states: seq<System<T>>, k: nat, default: T)
    requires k < |states| && Run(states) && Initial(states[0], default)
    ensures Inv(states[k], default)
  {
    if k == 0 {
      InitialInv(states[0], default);
    } else {
      ReachableInv(states, k - 1, default);
      var i: nat :| Next(states[k - 1], states[k], i);
      StepKeepsInv(states[k - 1], states[k], i, default);
    }
  }

  /** The accounting, in every interleaving: each notification carries the value that
      is stored at that moment and a different new one; each store follows a complete
      round, over exactly the listeners registered when it began and in ascending
      order, that announced the same value in the same call. */
  lemma {:induction false} EveryRunIsAccounted<T(!new)>(states: seq<System<T>>, k: nat, default: T)
    requires k < |states| && Run(states) && Initial(states[0], default)
    ensures AllAccounted(states[k].history, default)
    ensures states[k].val == ValueAfter(states[k].history, default)
    ensures states[k].keys == KeysAfter(states[k].history)
  {
    ReachableInv(states, k, default);
  }

  lemma {:induction false} ValueIsWritten<T(!new)>(h: seq<Event<T>>, default: T)
    ensures ValueAfter(h, default) == default ||
            exists i | 0 <= i < |h| :: h[i].Wrote? && h[i].v == ValueAfter(h, default)
  {
    if h != [] && !h[|h| - 1].Wrote? {
      ValueIsWritten(h[..|h| - 1], default);
      if ValueAfter(h, default) != default {
        var i :| 0 <= i < |h| - 1 && h[..|h| - 1][i].Wrote? && h[..|h| - 1][i].v == ValueAfter(h, default);
        assert h[i].Wrote?;
      }
    }
  }

  /** At quiescence there were as many rounds as writes, and the value is the default
      or one that a complete round announced. */
  lemma {:induction false} QuiescentTotals<T(!new)>(states: seq<System<T>>, k: nat, default: T)
    requires k < |states| && Run(states) && Initial(states[0], default)
    requires forall i | 0 <= i < |states[k].threads| :: states[k].threads[i] == Idle
    ensures Rounds(states[k].history) == Writes(states[k].history)
    ensures states[k].val == default ||
            exists c, keys, before, i | 0 <= i < |states[k].history| ::
              OfCall(states[k].history[..i], c) == Announced(c, keys, before, states[k].val)
  {
    ReachableInv(states, k, default);
    NothingPending(states[k].threads);
    var h := states[k].history;
    ValueIsWritten(h, default);
    if states[k].val != default {
      var i :| 0 <= i < |h| && h[i].Wrote? && h[i].v == states[k].val;
      assert Accounted(h, i, default);
    }
  }

  // --------------------------------------- the listeners, from the events alone

  /** Every change to the listeners is recorded as it was asked for; an added one gets the
      key after the last. */
  lemma EditIsRecorded<T(!new)>(s: System<T>, s': System<T>, i: nat)
    requires Next(s, s', i) && s.threads[i].MayEdit?
    ensures var e := s.threads[i].e;
            && s'.history == s.history + [DidEdit(e, if e.Add? then s.lastId + 1 else 0)]
            && s'.lastId == (if e.Add? then s.lastId + 1 else s.lastId) && s'.val == s.val
  {}

  predicate Adds<T>(e: Event<T>, key: nat) {
    e.DidEdit? && e.e.Add? && e.added == key
  }

  predicate TakesOut<T>(e: Event<T>, key: nat) {
    e.DidEdit? && (e.e.Clear? || (e.e.Delete? && e.e.key == key))
  }

  /** Event `i` adds the listener, and none after it takes it out. */
  ghost predicate AddsForGood<T>(h: seq<Event<T>>, i: int, key: nat) {
    0 <= i < |h| && Adds(h[i], key) && forall j | i < j < |h| :: !TakesOut(h[j], key)
  }

  /** The listeners in force are those added and not taken out since. */
  lemma {:induction false} KeysAfterIff<T(!new)>(h: seq<Event<T>>, key: nat)
    ensures key in KeysAfter(h) <==> exists i :: AddsForGood(h, i, key)
  {
    if h != [] {
      var front, last := h[..|h| - 1], h[|h| - 1];
      KeysAfterIff(front, key);
      if i :| AddsForGood(front, i, key) && !TakesOut(last, key) {
        assert forall j | 0 <= j < |front| :: h[j] == front[j];
        assert AddsForGood(h, i, key);
      }
      if Adds(last, key) { assert AddsForGood(h, |h| - 1, key); }
      if i :| AddsForGood(h, i, key) {
        assert forall j | 0 <= j < |front| :: h[j] == front[j];
        assert i < |front| ==> AddsForGood(front, i, key) && !TakesOut(h[|h| - 1], key);
      }
    }
  }

  // ------------------------------------------------- a call that runs alone

  ghost predicate AllIdle<T>(s: System<T>) {
    forall j | 0 <= j < |s.threads| :: s.threads[j].Idle?
  }

  /** A run goes on with one step. */
  lemma RunGrows<T(!new)>(states: seq<System<T>>, t: System<T>, i: nat)
    requires states != [] && Run(states) && Next(states[|states| - 1], t, i)
    ensures Run(states + [t])
  {
    assert CanStep(states[|states| - 1], t);
    var more := states + [t];
    forall k | 0 < k < |more| ensures CanStep(more[k - 1], more[k]) {
      assert k < |states| ==> more[k - 1] == states[k - 1] && more[k] == states[k];
    }
  }

  /** A round, listener by listener. */
  lemma {:induction false} RoundRuns<T(!new)>(states: seq<System<T>>, i: nat, c: nat, v: T, done: nat)
    returns (more: seq<System<T>>)
    requires states != [] && Run(states)
    requires var s := states[|states| - 1]; i < |s.threads| && s.threads[i] == InRound(c, v, done) && done <= |s.keys|
    ensures |more| >= |states| && more[0] == states[0] && Run(more)
    ensures var s := states[|states| - 1];
            more[|more| - 1] ==
            s.(threads := s.threads[i := InRound(c, v, |s.keys|)],
               history := s.history + seq(|s.keys| - done, k requires 0 <= k < |s.keys| - done =>
                                                             Notified(c, s.keys[done + k], s.val, v)))
    decreases |states[|states| - 1].keys| - done
  {
    var s := states[|states| - 1];
    if done == |s.keys| {
      more := states;
      assert s.threads[i := s.threads[i]] == s.threads;
    } else {
      var e := Notified(c, s.keys[done], s.val, v);
      var t := Log(Goto(s, i, InRound(c, v, done + 1)), e);
      RunGrows(states, t, i);
      more := RoundRuns(states + [t], i, c, v, done + 1);
      assert t.threads[i := InRound(c, v, |s.keys|)] == s.threads[i := InRound(c, v, |s.keys|)];
      var rest := seq(|s.keys| - done - 1, k requires 0 <= k < |s.keys| - done - 1 =>
                                             Notified(c, t.keys[done + 1 + k], t.val, v));
      var all := seq(|s.keys| - done, k requires 0 <= k < |s.keys| - done => Notified(c, s.keys[done + k], s.val, v));
      assert all == [e] + rest;
      assert s.history + all == (s.history + [e]) + rest;
    }
  }

  /** From a moment at which no call is under way, any thread can set any value without being
      interrupted; the call then does what the sequential `setValue` does: it announces the
      new value to every listener in order and stores it, or, if it is held already, does
      nothing. */
  lemma AloneItIsSetValue<T(!new)>(s: System<T>, i: nat, v: T) returns (states: seq<System<T>>)
    requires AllIdle(s) && i < |s.threads|
    ensures states != [] && states[0] == s && Run(states)
    ensures var t := states[|states| - 1];
            if v == s.val then t == s
            else t == s.(val := v, calls := s.calls + 1,
                         history := s.history + Announced(s.calls, s.keys, s.val, v) + [Wrote(s.calls, v)])
  {
    var s1 := Goto(s, i, WantSet(v));
    RunGrows([s], s1, i);
    states := [s] + [s1];
    if v == s.val {
      var s2 := Goto(s1, i, Unchanged);
      RunGrows(states, s2, i);
      states := states + [s2];
      var s3 := Goto(s2, i, Idle);
      RunGrows(states, s3, i);
      states := states + [s3];
      assert s3.threads == s.threads;
    } else {
      states := RoundAndStore(states, s, i, v);
    }
  }

  lemma RoundAndStore<T(!new)>(states: seq<System<T>>, s: System<T>, i: nat, v: T) returns (more: seq<System<T>>)
    requires AllIdle(s) && i < |s.threads| && v != s.val
    requires states != [] && Run(states) && states[|states| - 1] == Goto(s, i, WantSet(v))
    ensures |more| >= |states| && more[0] == states[0] && Run(more)
    ensures more[|more| - 1] ==
            s.(val := v, calls := s.calls + 1,
               history := s.history + Announced(s.calls, s.keys, s.val, v) + [Wrote(s.calls, v)])
  {
    var s1, c := states[|states| - 1], s.calls;
    var s2 := Log(Goto(s1, i, InRound(c, v, 0)).(calls := c + 1), Began(c, s.keys, s.val, v));
    RunGrows(states, s2, i);
    var toRound := RoundRuns(states + [s2], i, c, v, 0);
    var s3 := toRound[|toRound| - 1];
    assert s3.threads == s.threads[i := InRound(c, v, |s.keys|)];
    assert s3.history == s.history + Partial(c, s.keys, s.val, v, |s.keys|);
    more := StoreRuns(toRound, s, i, v);
  }

  lemma StoreRuns<T(!new)>(states: seq<System<T>>, s: System<T>, i: nat, v: T) returns (more: seq<System<T>>)
    requires AllIdle(s) && i < |s.threads| && states != [] && Run(states)
    requires states[|states| - 1] ==
             s.(threads := s.threads[i := InRound(s.calls, v, |s.keys|)], calls := s.calls + 1,
                history := s.history + Partial(s.calls, s.keys, s.val, v, |s.keys|))
    ensures |more| >= |states| && more[0] == states[0] && Run(more)
    ensures more[|more| - 1] ==
            s.(val := v, calls := s.calls + 1,
               history := s.history + Announced(s.calls, s.keys, s.val, v) + [Wrote(s.calls, v)])
  {
    var s3, c := states[|states| - 1], s.calls;
    hide Partial;
    var s4 := Log(Goto(s3, i, WantStore(c, v, s.keys, s.val)), RoundOver(c, v));
    RunGrows(states, s4, i);
    var s5 := Goto(s4, i, MayStore(c, v, s.keys, s.val));
    RunGrows(states + [s4], s5, i);
    var s6 := Log(Goto(s5, i, Stored).(val := v), Wrote(c, v));
    RunGrows(states + [s4] + [s5], s6, i);
    var s7 := Goto(s6, i, Idle);
    RunGrows(states + [s4] + [s5] + [s6], s7, i);
    more := states + [s4] + [s5] + [s6] + [s7];
    assert s7.threads == s.threads;
    var p := Partial(c, s.keys, s.val, v, |s.keys|);
    assert s.history + p + [RoundOver(c, v)] == s.history + (p + [RoundOver(c, v)]);
  }
}
