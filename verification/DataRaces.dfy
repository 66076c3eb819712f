/** Which data the locks protect: of all that the operations share, races are possible on
    the levels, on a file appender's last time and on the counter of listener keys, and on
    nothing else. */
module DataRaces {
  import opened LockOrder
  import opened LockedOperations
  import opened Options

  /** The lock that goes with a datum, where there is one. */
  function Home(d: Datum): Option<Lock> {
    match d
    case Variables => Some(Registry)
    case Value(name) => Some(Var(name))
    case Listeners(name) => Some(Var(name))
    case LoggerTable => Some(Manager)
    case LoggerFormatter(l) => Some(l)
    case Attached(l) => Some(l)
    case AppenderFormatter(id) => Some(Appender(id))
    case Stream(id) => Some(Appender(id))
    case ListenerIds => None
    case LastTime(_) => None
    case LevelOf(_) => None
  }

  /** Held well enough for the access: to write, exclusively. */
  predicate MayTouch(held: map<Lock, Mode>, d: Datum, writes: bool) {
    var l := Home(d);
    l.Some? ==> l.value in held && (writes ==> held[l.value].Exclusive?)
  }

  /** Every access in the code, run with these locks held, has its lock around it. */
  predicate Guarded(cs: seq<Code>, held: map<Lock, Mode>) {
    cs == [] ||
    (&& Guarded(cs[1..], held)
     && match cs[0]
        case Guard(l, m, body) => Guarded(body, held[l := m])
        case Touch(d, writes) => MayTouch(held, d, writes))
  }

  predicate Covered(held: map<Lock, Mode>, todo: seq<Act>)
    decreases |todo|
  {
    todo == [] ||
    match todo[0]
    case Acquire(l, m) => Covered(held[l := m], todo[1..])
    case Release(l) => Covered(held - {l}, todo[1..])
    case Access(d, writes) => MayTouch(held, d, writes) && Covered(held, todo[1..])
  }

  lemma {:induction false} FlattenIsCovered(cs: seq<Code>, floor: int, held: map<Lock, Mode>, rest: seq<Act>)
    requires RespectsRank(cs, floor) && Guarded(cs, held) && Covered(held, rest)
    requires forall h | h in held :: Rank(h) <= floor
    ensures Covered(held, Flatten(cs, rest))
    decreases cs
  {
    if cs != [] {
      FlattenIsCovered(cs[1..], floor, held, rest);
      match cs[0]
      case Guard(l, m, body) =>
        assert held[l := m] - {l} == held;
        FlattenIsCovered(body, Rank(l), held[l := m], [Release(l)] + Flatten(cs[1..], rest));
      case Touch(_, _) =>
    }
  }

  // ---------------------------------------------------------------- races

  predicate IsAbout(t: Thread, d: Datum, writes: bool) {
    t.todo != [] && t.todo[0] == Access(d, writes)
  }

  /** Two threads are about to access the datum, one of them to write it. */
  ghost predicate RaceOn(s: System, d: Datum) {
    exists i, j, writes: bool ::
      0 <= i < |s| && 0 <= j < |s| && i != j && IsAbout(s[i], d, true) && IsAbout(s[j], d, writes)
  }

  ghost predicate AllCovered(s: System) {
    forall i | 0 <= i < |s| :: Covered(s[i].held, s[i].todo)
  }

  lemma AccessIsLocked(t: Thread, d: Datum, writes: bool)
    requires Covered(t.held, t.todo) && IsAbout(t, d, writes) && Home(d).Some?
    ensures Home(d).value in t.held && (writes ==> t.held[Home(d).value].Exclusive?)
  {}

  lemma NoRaceOnGuarded(s: System, d: Datum)
    requires MutualExclusion(s) && AllCovered(s) && Home(d).Some?
    ensures !RaceOn(s, d)
  {
    forall i, writes: bool | 0 <= i < |s| && IsAbout(s[i], d, writes)
      ensures Home(d).value in s[i].held && (writes ==> s[i].held[Home(d).value].Exclusive?)
    {
      AccessIsLocked(s[i], d, writes);
    }
    hide IsAbout, Covered, Home;
  }

  lemma {:induction false} RunKeepsCovered(states: seq<System>, writersFirst: bool, k: nat)
    requires k < |states| && LockOrder.Run(states, writersFirst) && AllCovered(states[0])
    ensures AllCovered(states[k])
  {
    if k > 0 {
      RunKeepsCovered(states, writersFirst, k - 1);
      var i: nat :| Next(states[k - 1], states[k], i, writersFirst);
      assert Covered(states[k - 1][i].held, states[k - 1][i].todo);
    }
  }

  // ------------------------------------------------------ composing guarded code

  lemma {:induction false} GuardedWithMore(cs: seq<Code>, held: map<Lock, Mode>, more: map<Lock, Mode>)
    requires Guarded(cs, held) && forall l | l in held :: l in more && more[l] == held[l]
    ensures Guarded(cs, more)
  {
    if cs != [] {
      GuardedWithMore(cs[1..], held, more);
      if cs[0].Guard? {
        GuardedWithMore(cs[0].body, held[cs[0].lock := cs[0].mode], more[cs[0].lock := cs[0].mode]);
      }
    }
  }

  lemma {:induction false} GuardedAppend(a: seq<Code>, b: seq<Code>, held: map<Lock, Mode>)
    requires Guarded(a, held) && Guarded(b, held)
    ensures Guarded(a + b, held)
  {
    if a == [] {
      assert a + b == b;
    } else {
      assert (a + b)[1..] == a[1..] + b;
      GuardedAppend(a[1..], b, held);
    }
  }

  lemma {:induction false} GuardedConcat(parts: seq<seq<Code>>, held: map<Lock, Mode>)
    requires forall k | 0 <= k < |parts| :: Guarded(parts[k], held)
    ensures Guarded(Concat(parts), held)
  {
    if parts != [] {
      GuardedConcat(parts[1..], held);
      GuardedAppend(parts[0], Concat(parts[1..]), held);
    }
  }

  /** Code that guards all it touches may run anywhere. */
  lemma Anywhere(cs: seq<Code>, held: map<Lock, Mode>)
    requires Guarded(cs, map[])
    ensures Guarded(cs, held)
  {
    GuardedWithMore(cs, map[], held);
  }

  lemma UsesGuarded(d: Datum, writes: bool, held: map<Lock, Mode>)
    requires MayTouch(held, d, writes)
    ensures Guarded(Uses(d, writes), held)
  {
    assert Uses(d, writes)[1..] == [];
  }

  lemma LockingGuarded(l: Lock, body: seq<Code>, held: map<Lock, Mode>)
    requires Guarded(body, held[l := Exclusive])
    ensures Guarded(Locking(l, body), held)
  {
    assert Locking(l, body)[1..] == [];
  }

  lemma ReadingGuarded(l: Lock, body: seq<Code>, held: map<Lock, Mode>)
    requires Guarded(body, held[l := Shared])
    ensures Guarded(Reading(l, body), held)
  {
    assert Reading(l, body)[1..] == [];
  }

  /** One access under its lock. */
  lemma LockedUseGuarded(l: Lock, d: Datum, writes: bool, held: map<Lock, Mode>)
    requires Home(d) == Some(l)
    ensures Guarded(Locking(l, Uses(d, writes)), held)
    ensures !writes ==> Guarded(Reading(l, Uses(d, writes)), held)
  {
    UsesGuarded(d, writes, held[l := Exclusive]);
    LockingGuarded(l, Uses(d, writes), held);
    if !writes {
      UsesGuarded(d, writes, held[l := Shared]);
      ReadingGuarded(l, Uses(d, writes), held);
    }
  }

  // ------------------------------------------------------- the operations

  lemma EmitGuarded(e: Emission)
    ensures Guarded(Emit(e), map[])
  {
    hide Guarded, Uses, Locking;
    var level := Reads(LevelOf(Appender(e.id)));
    UsesGuarded(LevelOf(Appender(e.id)), false, map[]);
    match e
    case Filtered(_) =>
    case Console(id) =>
      LockedUseGuarded(Appender(id), AppenderFormatter(id), false, map[]);
      GuardedAppend(level, Locking(Appender(id), Reads(AppenderFormatter(id))), map[]);
    case File(id, reopens) => FileGuarded(id, reopens);
  }

  lemma FileGuarded(id: nat, reopens: bool)
    ensures Guarded(Emit(File(id, reopens)), map[])
  {
    hide Guarded, Uses, Locking, Concat;
    var held := map[Appender(id) := Exclusive];
    assert map[][Appender(id) := Exclusive] == held;
    UsesGuarded(LevelOf(Appender(id)), false, map[]);
    UsesGuarded(LastTime(id), false, map[]);
    UsesGuarded(LastTime(id), true, map[]);
    LockedUseGuarded(Appender(id), Stream(id), true, map[]);
    GuardedAppend(Reopen(id), Writes(LastTime(id)), map[]);
    UsesGuarded(AppenderFormatter(id), false, held);
    UsesGuarded(Stream(id), true, held);
    GuardedAppend(Reads(AppenderFormatter(id)), Writes(Stream(id)), held);
    LockingGuarded(Appender(id), Reads(AppenderFormatter(id)) + Writes(Stream(id)), map[]);
    Nothing(map[]);
    var reopened := if reopens then Reopen(id) + Writes(LastTime(id)) else [];
    GuardedConcat([Reads(LevelOf(Appender(id))), Reads(LastTime(id)), reopened,
        Locking(Appender(id), Reads(AppenderFormatter(id)) + Writes(Stream(id)))], map[]);
  }

  lemma Nothing(held: map<Lock, Mode>)
    ensures Guarded([], held)
  {}

  lemma {:induction false} EmitAllGuarded(es: seq<Emission>)
    ensures Guarded(EmitAll(es), map[])
  {
    if es != [] {
      EmitGuarded(es[0]);
      EmitAllGuarded(es[1..]);
      GuardedAppend(Emit(es[0]), EmitAll(es[1..]), map[]);
    }
  }

  lemma LogUnderGuarded(l: Lock, enabled: bool, body: seq<Code>)
    requires RespectsRank(body, Rank(l)) && Guarded(body, map[])
    ensures Guarded(LogUnder(l, enabled, body), map[])
  {
    hide Guarded, Uses, Locking, RespectsRank;
    var held := map[][l := Exclusive];
    UsesGuarded(LevelOf(l), false, map[]);
    UsesGuarded(Attached(l), false, held);
    Anywhere(body, held);
    GuardedAppend(Reads(Attached(l)), body, held);
    LockingGuarded(l, Reads(Attached(l)) + body, map[]);
    Nothing(map[]);
    GuardedAppend(Reads(LevelOf(l)), if enabled then Locking(l, Reads(Attached(l)) + body) else [], map[]);
  }

  lemma LogGuarded(c: LogCall)
    ensures Guarded(Log(c), map[])
  {
    hide Guarded, LogUnder, RespectsRank;
    Nothing(map[]);
    match c
    case ToRoot(enabled, emissions) =>
      EmitAllGuarded(emissions);
      LogUnderGuarded(RootLogger, enabled, EmitAll(emissions));
    case ToNamed(id, enabled, emissions, hasRoot, rootEnabled, rootEmissions) =>
      EmitAllGuarded(emissions);
      EmitAllGuarded(rootEmissions);
      LogUnderGuarded(RootLogger, rootEnabled, EmitAll(rootEmissions));
      RespectsLower(EmitAll(emissions), 4, 3);
      LogUnderGuarded(NamedLogger(id), enabled,
          if emissions != [] then EmitAll(emissions)
          else if hasRoot then LogRoot(rootEnabled, rootEmissions) else []);
  }

  lemma VisitOneGuarded(id: nat, v: Visit)
    ensures Guarded(VisitOne(id, v), map[])
  {
    hide Guarded, Uses, Locking;
    var held := map[][Appender(id) := Exclusive];
    var look := Reads(if v.Dumps? then LevelOf(Appender(id)) else AppenderFormatter(id));
    var rest := if v.Dumps? then Reads(AppenderFormatter(id))
                else if id in v.own then [] else Writes(AppenderFormatter(id));
    UsesGuarded(LevelOf(Appender(id)), false, held);
    UsesGuarded(AppenderFormatter(id), false, held);
    UsesGuarded(AppenderFormatter(id), true, held);
    Nothing(held);
    GuardedAppend(look, rest, held);
    LockingGuarded(Appender(id), look + rest, map[]);
  }

  lemma {:induction false} EachAppenderGuarded(ids: seq<nat>, v: Visit)
    ensures Guarded(EachAppender(ids, v), map[])
  {
    if ids != [] {
      VisitOneGuarded(ids[0], v);
      EachAppenderGuarded(ids[1..], v);
      GuardedAppend(VisitOne(ids[0], v), EachAppender(ids[1..], v), map[]);
    }
  }

  lemma VisitAppendersGuarded(l: LoggerRef, v: Visit)
    ensures Guarded(VisitAppenders(l, v), map[])
  {
    hide Guarded, Uses, Locking, Concat, EachAppender;
    var lock := LockOf(l);
    var held := map[][lock := Exclusive];
    Nothing(held);
    UsesGuarded(LevelOf(lock), false, held);
    UsesGuarded(LoggerFormatter(lock), v.Formats?, held);
    UsesGuarded(Attached(lock), false, held);
    EachAppenderGuarded(l.appenders, v);
    Anywhere(EachAppender(l.appenders, v), held);
    var steps := [if v.Dumps? then Reads(LevelOf(lock)) else [], Uses(LoggerFormatter(lock), v.Formats?),
                  Reads(Attached(lock)), EachAppender(l.appenders, v)];
    GuardedConcat(steps, held);
    LockingGuarded(lock, Concat(steps), map[]);
  }

  lemma AddAppenderGuarded(l: LoggerRef, a: nat, hasFormatter: bool)
    ensures Guarded(AddAppender(l, a, hasFormatter), map[])
  {
    hide Guarded, Uses, Locking, Concat;
    var lock := LockOf(l);
    var held := map[][lock := Exclusive];
    var both := held[Appender(a) := Exclusive];
    LockedUseGuarded(Appender(a), AppenderFormatter(a), false, held);
    UsesGuarded(LoggerFormatter(lock), false, both);
    UsesGuarded(AppenderFormatter(a), true, both);
    GuardedAppend(Reads(LoggerFormatter(lock)), Writes(AppenderFormatter(a)), both);
    LockingGuarded(Appender(a), Reads(LoggerFormatter(lock)) + Writes(AppenderFormatter(a)), held);
    UsesGuarded(Attached(lock), true, held);
    Nothing(held);
    var assign :=
      if hasFormatter then [] else Locking(Appender(a), Reads(LoggerFormatter(lock)) + Writes(AppenderFormatter(a)));
    var steps := [Locking(Appender(a), Reads(AppenderFormatter(a))), assign, Writes(Attached(lock))];
    GuardedConcat(steps, held);
    LockingGuarded(lock, Concat(steps), map[]);
  }

  lemma {:induction false} LoggersToYamlGuarded(ls: seq<LoggerRef>)
    ensures Guarded(LoggersToYaml(ls), map[])
  {
    if ls != [] {
      VisitAppendersGuarded(ls[0], Dumps);
      LoggersToYamlGuarded(ls[1..]);
      GuardedAppend(VisitAppenders(ls[0], Dumps), LoggersToYaml(ls[1..]), map[]);
    }
  }

  lemma ManagerGuarded(ls: seq<LoggerRef>, creates: bool)
    ensures Guarded(ManagerToYaml(ls), map[])
    ensures Guarded(GetLogger(creates), map[])
  {
    hide Guarded, Uses, Locking;
    var held := map[][Manager := Exclusive];
    UsesGuarded(LoggerTable, false, held);
    UsesGuarded(LoggerTable, true, held);
    LoggersToYamlGuarded(ls);
    Anywhere(LoggersToYaml(ls), held);
    GuardedAppend(Reads(LoggerTable), LoggersToYaml(ls), held);
    LockingGuarded(Manager, Reads(LoggerTable) + LoggersToYaml(ls), map[]);
    Nothing(held);
    var create := if creates then Writes(LoggerTable) else [];
    GuardedAppend(Reads(LoggerTable), create, held);
    LockingGuarded(Manager, Reads(LoggerTable) + create, map[]);
  }

  lemma {:induction false} SetupAppendersGuarded(l: LoggerRef, setups: seq<AppenderSetup>)
    ensures Guarded(SetupAppenders(l, setups), map[])
  {
    if setups != [] {
      var a := setups[0];
      SetupAppendersGuarded(l, setups[1..]);
      AddAppenderGuarded(l, a.id, a.hasFormatter);
      hide Guarded, Uses, Locking, Concat, AddAppender;
      LockedUseGuarded(Appender(a.id), Stream(a.id), true, map[]);
      LockedUseGuarded(Appender(a.id), AppenderFormatter(a.id), true, map[]);
      UsesGuarded(LevelOf(Appender(a.id)), true, map[]);
      Nothing(map[]);
      var reopened := if a.isFile then Reopen(a.id) else [];
      var formatted := if a.setsFormatter then Locking(Appender(a.id), Writes(AppenderFormatter(a.id))) else [];
      GuardedConcat([reopened, Writes(LevelOf(Appender(a.id))), formatted, AddAppender(l, a.id, a.hasFormatter),
          SetupAppenders(l, setups[1..])], map[]);
    } else {
      Nothing(map[]);
    }
  }

  lemma SetupLoggerGuarded(s: LoggerSetup)
    ensures Guarded(SetupLogger(s), map[])
  {
    hide Guarded, Uses, Locking, Concat, VisitAppenders, SetupAppenders;
    var lock := LockOf(s.logger);
    ManagerGuarded([], s.creates);
    UsesGuarded(LevelOf(lock), true, map[]);
    VisitAppendersGuarded(s.logger, Formats(s.own));
    LockedUseGuarded(lock, Attached(lock), true, map[]);
    SetupAppendersGuarded(s.logger, s.setups);
    Nothing(map[]);
    var formatted := if s.setsFormatter then VisitAppenders(s.logger, Formats(s.own)) else [];
    GuardedConcat([GetLogger(s.creates), Writes(LevelOf(lock)), formatted, Locking(lock, Writes(Attached(lock))),
        SetupAppenders(s.logger, s.setups)], map[]);
  }

  lemma {:induction false} SetupLoggersGuarded(setups: seq<LoggerSetup>)
    ensures Guarded(SetupLoggers(setups), map[])
  {
    if setups != [] {
      SetupLoggerGuarded(setups[0]);
      SetupLoggersGuarded(setups[1..]);
      GuardedAppend(SetupLogger(setups[0]), SetupLoggers(setups[1..]), map[]);
    }
  }

  lemma ListenerGuarded(first: LogCall, setups: seq<LoggerSetup>)
    ensures Guarded(OnLogDefinesChanged(first, setups), map[])
  {
    LogGuarded(first);
    SetupLoggersGuarded(setups);
    GuardedAppend(Log(first), SetupLoggers(setups), map[]);
  }

  ghost predicate AllGuarded(callbacks: seq<seq<Code>>) {
    forall k | 0 <= k < |callbacks| :: Guarded(callbacks[k], map[])
  }

  lemma RoundGuarded(name: string, callbacks: seq<seq<Code>>)
    requires AllGuarded(callbacks) && forall k | 0 <= k < |callbacks| :: RespectsRank(callbacks[k], 1)
    ensures Guarded(Round(name, callbacks), map[])
  {
    hide Guarded, Uses, Reading, Concat, RespectsRank;
    var held := map[][Var(name) := Shared];
    UsesGuarded(Value(name), false, held);
    UsesGuarded(Listeners(name), false, held);
    GuardedConcat(callbacks, map[]);
    Anywhere(Concat(callbacks), held);
    var steps := [Reads(Value(name)), Reads(Listeners(name)), Concat(callbacks)];
    GuardedConcat(steps, held);
    ReadingGuarded(Var(name), Concat(steps), map[]);
  }

  lemma SetValueGuarded(name: string, changed: bool, callbacks: seq<seq<Code>>)
    requires AllGuarded(callbacks) && forall k | 0 <= k < |callbacks| :: RespectsRank(callbacks[k], 1)
    ensures Guarded(SetValue(name, changed, callbacks), map[])
  {
    hide Guarded, Uses, Reading, Locking, Round, RespectsRank;
    RoundGuarded(name, callbacks);
    LockedUseGuarded(Var(name), Value(name), true, map[]);
    LockedUseGuarded(Var(name), Value(name), false, map[]);
    GuardedAppend(Round(name, callbacks), Locking(Var(name), Writes(Value(name))), map[]);
  }

  lemma FromStringGuarded(name: string, c: Conversion, callbacks: seq<seq<Code>>, log: LogCall)
    requires AllGuarded(callbacks) && forall k | 0 <= k < |callbacks| :: RespectsRank(callbacks[k], 1)
    ensures Guarded(FromString(name, c, callbacks, log), map[])
  {
    hide Guarded, RespectsRank, Round, SetValue;
    LogGuarded(log);
    RoundGuarded(name, callbacks);
    GuardedAppend(Round(name, callbacks), Log(log), map[]);
    if c.Good? { SetValueGuarded(name, c.changed, callbacks); }
  }

  lemma ToStringGuarded(name: string, fails: bool, log: LogCall)
    ensures Guarded(ToString(name, fails, log), map[])
  {
    hide Guarded, Uses, Reading, Log;
    LogGuarded(log);
    LockedUseGuarded(Var(name), Value(name), false, map[]);
    Nothing(map[]);
    GuardedAppend(Reading(Var(name), Reads(Value(name))), if fails then Log(log) else [], map[]);
  }

  lemma LookupGuarded(o: LookupOutcome, log: LogCall)
    ensures Guarded(Lookup(o, log), map[])
  {
    hide Guarded, Uses, Locking, Log, ToString;
    var held := map[][Registry := Exclusive];
    UsesGuarded(Variables, false, held);
    UsesGuarded(Variables, true, held);
    LogGuarded(log);
    Anywhere(Log(log), held);
    Nothing(held);
    var shown := if o.WrongType? then ToString(o.existing, o.fails, log) else [];
    if o.WrongType? {
      ToStringGuarded(o.existing, o.fails, log);
      Anywhere(shown, held);
    }
    GuardedAppend(shown, Log(log), held);
    var rest := if o.Created? then Writes(Variables) else shown + Log(log);
    GuardedAppend(Reads(Variables), rest, held);
    LockingGuarded(Registry, Reads(Variables) + rest, map[]);
  }

  /** The proviso on user code: listeners and visitors guard what they touch themselves. */
  ghost predicate CallbacksAreGuarded(op: Op) {
    match op
    case OpSetValue(_, _, callbacks) => AllGuarded(callbacks)
    case OpFromString(_, _, callbacks, _) => AllGuarded(callbacks)
    case OpVisit(visitors) => AllGuarded(visitors)
    case _ => true
  }

  lemma VisitGuarded(visitors: seq<seq<Code>>)
    requires AllGuarded(visitors)
    ensures Guarded(Reading(Registry, Reads(Variables) + Concat(visitors)), map[])
  {
    hide Guarded, Uses, Reading, Concat;
    var held := map[][Registry := Shared];
    UsesGuarded(Variables, false, held);
    GuardedConcat(visitors, map[]);
    Anywhere(Concat(visitors), held);
    GuardedAppend(Reads(Variables), Concat(visitors), held);
    ReadingGuarded(Registry, Reads(Variables) + Concat(visitors), map[]);
  }

  lemma AddListenerGuarded(name: string)
    ensures Guarded(Locking(Var(name), Writes(ListenerIds) + Writes(Listeners(name))), map[])
  {
    hide Guarded, Uses, Locking;
    var held := map[][Var(name) := Exclusive];
    UsesGuarded(ListenerIds, true, held);
    UsesGuarded(Listeners(name), true, held);
    GuardedAppend(Writes(ListenerIds), Writes(Listeners(name)), held);
    LockingGuarded(Var(name), Writes(ListenerIds) + Writes(Listeners(name)), map[]);
  }

  lemma EveryOperationIsGuarded(op: Op)
    requires CallbacksRespectRank(op) && CallbacksAreGuarded(op)
    ensures Guarded(CodeOf(op), map[])
  {
    hide Guarded, Uses, Reading, Locking, RespectsRank, Concat, Log, SetValue, FromString, ToString, Lookup,
        VisitAppenders, AddAppender, ManagerToYaml, GetLogger, VisitOne, OnLogDefinesChanged;
    match op
    case OpLog(call) => LogGuarded(call);
    case OpLevel(holder, writes) => UsesGuarded(LevelOf(holder), writes, map[]);
    case OpFormatter(id, writes) => LockedUseGuarded(Appender(id), AppenderFormatter(id), writes, map[]);
    case OpReopen(id) => LockedUseGuarded(Appender(id), Stream(id), true, map[]);
    case OpAppenderToYaml(id) => VisitOneGuarded(id, Dumps);
    case OpLoggerFormatter(logger) =>
      LockedUseGuarded(LockOf(logger), LoggerFormatter(LockOf(logger)), false, map[]);
    case OpTakeOut(logger) => LockedUseGuarded(LockOf(logger), Attached(LockOf(logger)), true, map[]);
    case OpVisitAppenders(logger, visit) => VisitAppendersGuarded(logger, visit);
    case OpAddAppender(logger, a, hasFormatter) => AddAppenderGuarded(logger, a, hasFormatter);
    case OpGetLogger(creates) => ManagerGuarded([], creates);
    case OpManagerToYaml(loggers) => ManagerGuarded(loggers, false);
    case OpGetValue(name) => LockedUseGuarded(Var(name), Value(name), false, map[]);
    case OpGetListener(name) => LockedUseGuarded(Var(name), Listeners(name), false, map[]);
    case OpAddListener(name) => AddListenerGuarded(name);
    case OpDropListeners(name) => LockedUseGuarded(Var(name), Listeners(name), true, map[]);
    case OpSetValue(name, changed, callbacks) => SetValueGuarded(name, changed, callbacks);
    case OpSetLogDefines(changed, first, setups) =>
      ListenerGuarded(first, setups);
      SetValueGuarded("logs", changed, [OnLogDefinesChanged(first, setups)]);
    case OpFromString(name, conversion, callbacks, call) => FromStringGuarded(name, conversion, callbacks, call);
    case OpToString(name, fails, call) => ToStringGuarded(name, fails, call);
    case OpLookup(outcome, call) => LookupGuarded(outcome, call);
    case OpLookupRead => LockedUseGuarded(Registry, Variables, false, map[]);
    case OpVisit(visitors) => VisitGuarded(visitors);
  }

  lemma {:induction false} ProgramsAreGuarded(ops: seq<Op>)
    requires forall k | 0 <= k < |ops| :: CallbacksRespectRank(ops[k]) && CallbacksAreGuarded(ops[k])
    ensures Guarded(Program(ops), map[])
  {
    if ops != [] {
      EveryOperationIsGuarded(ops[0]);
      ProgramsAreGuarded(ops[1..]);
      GuardedAppend(CodeOf(ops[0]), Program(ops[1..]), map[]);
    }
  }

  // ------------------------------------------------------------ all of it

  ghost predicate AllowedAll(threads: seq<seq<Op>>) {
    forall i, j | 0 <= i < |threads| && 0 <= j < |threads[i]| ::
      CallbacksRespectRank(threads[i][j]) && CallbacksAreGuarded(threads[i][j])
  }

  ghost function Programs(threads: seq<seq<Op>>): (r: seq<seq<Code>>)
    requires AllowedAll(threads)
    ensures |r| == |threads| && forall i | 0 <= i < |r| :: r[i] == Program(threads[i])
  {
    seq(|threads|, i requires 0 <= i < |threads| => Program(threads[i]))
  }

  /** A run of threads that each perform a list of operations. */
  ghost predicate IsSystemRun(threads: seq<seq<Op>>, states: seq<System>, writersFirst: bool) {
    && AllowedAll(threads) && states != []
    && states[0] == Start(Programs(threads)) && LockOrder.Run(states, writersFirst)
  }

  lemma ProgramsStartCovered(threads: seq<seq<Op>>)
    requires AllowedAll(threads)
    ensures LockOrder.Inv(Start(Programs(threads))) && AllCovered(Start(Programs(threads)))
  {
    var programs := Programs(threads);
    forall i | 0 <= i < |threads|
      ensures RespectsRank(programs[i], -1)
      ensures Covered(map[], Flatten(programs[i], []))
    {
      ProgramsRespectRank(threads[i]);
      ProgramsAreGuarded(threads[i]);
      FlattenIsCovered(programs[i], -1, map[], []);
    }
    InitialInv(programs);
  }

  /** Whatever the threads do, and under either lock policy, no two of them are ever about to
      access one datum, one to write it, if a lock goes with that datum. */
  lemma {:induction false} GuardedDataNeverRace(threads: seq<seq<Op>>, states: seq<System>, writersFirst: bool,
      k: nat, d: Datum)
    requires IsSystemRun(threads, states, writersFirst) && k < |states| && Home(d).Some?
    ensures !RaceOn(states[k], d)
  {
    ProgramsStartCovered(threads);
    RunKeepsInv(states, writersFirst, k);
    RunKeepsCovered(states, writersFirst, k);
    NoRaceOnGuarded(states[k], d);
  }

  ghost predicate CanRaceOn(d: Datum) {
    exists threads: seq<seq<Op>>, states: seq<System>, writersFirst: bool ::
      IsSystemRun(threads, states, writersFirst) && RaceOn(states[|states| - 1], d)
  }

  // ------------------------------------------------ the data without a lock

  function Onward(t: Thread, n: nat): (r: Thread)
    requires n <= |t.todo|
    ensures r.todo == t.todo[n..]
  {
    if n == 0 then t else Advance(Onward(t, n - 1))
  }

  /** The next `n` steps of thread `i` only wait for locks that nobody else holds. */
  ghost predicate IsFree(s: System, i: nat, n: nat) {
    && i < |s| && n <= |s[i].todo|
    && (forall k | 0 <= k < n && s[i].todo[k].Acquire? :: s[i].todo[k].mode.Exclusive?)
    && forall k, j | 0 <= k < n && s[i].todo[k].Acquire? && 0 <= j < |s| && j != i ::
         s[i].todo[k].lock !in s[j].held
  }

  /** A run goes on with these steps. */
  lemma {:induction false} GoesOn(states: seq<System>, i: nat, n: nat, writersFirst: bool) returns (more: seq<System>)
    requires states != [] && LockOrder.Run(states, writersFirst)
    requires LockOrder.Inv(states[0]) && IsFree(states[|states| - 1], i, n)
    ensures |more| >= |states| && more[0] == states[0] && LockOrder.Run(more, writersFirst)
    ensures var s := states[|states| - 1]; more[|more| - 1] == s[i := Onward(s[i], n)]
  {
    var s := states[|states| - 1];
    if n == 0 {
      more := states;
    } else {
      var before := GoesOn(states, i, n - 1, writersFirst);
      var u := before[|before| - 1];
      RunKeepsInv(before, writersFirst, |before| - 1);
      assert u[i].todo == s[i].todo[n - 1..] && u[i].todo[0] == s[i].todo[n - 1];
      if u[i].todo[0].Acquire? { NoRelock(u, i); }
      StepIsEnabled(s, u, i, n, writersFirst);
      more := before + [u[i := Advance(u[i])]];
      assert Next(u, u[i := Advance(u[i])], i, writersFirst);
      assert CanStep(u, u[i := Advance(u[i])], writersFirst);
      forall k | 0 < k < |more| ensures CanStep(more[k - 1], more[k], writersFirst) {
        assert k < |before| ==> more[k - 1] == before[k - 1] && more[k] == before[k];
      }
    }
  }

  lemma StepIsEnabled(s: System, u: System, i: nat, n: nat, writersFirst: bool)
    requires n > 0 && IsFree(s, i, n) && |u| == |s|
    requires forall j | 0 <= j < |s| && j != i :: u[j] == s[j]
    requires u[i].todo != [] && u[i].todo[0] == s[i].todo[n - 1]
    requires u[i].todo[0].Acquire? ==> u[i].todo[0].lock !in u[i].held
    ensures Enabled(u, i, writersFirst)
  {
    if u[i].todo[0].Acquire? {
      var l := u[i].todo[0].lock;
      forall j | 0 <= j < |u| ensures l !in u[j].held { assert j != i ==> u[j] == s[j]; }
    }
  }

  lemma {:induction false} FlattenAppend(a: seq<Code>, b: seq<Code>, rest: seq<Act>)
    ensures Flatten(a + b, rest) == Flatten(a, Flatten(b, rest))
    decreases |a|
  {
    if a == [] {
      assert a + b == b;
    } else {
      assert (a + b)[1..] == a[1..] + b && (a + b)[0] == a[0];
      FlattenAppend(a[1..], b, rest);
    }
  }

  lemma FlattenLocking(l: Lock, body: seq<Code>, rest: seq<Act>)
    ensures Flatten(Locking(l, body), rest) == [Acquire(l, Exclusive)] + Flatten(body, [Release(l)] + rest)
  {
    assert Locking(l, body)[1..] == [];
    assert Flatten([], rest) == rest;
  }

  lemma FlattenUse(d: Datum, writes: bool, rest: seq<Act>)
    ensures Flatten(Uses(d, writes), rest) == [Access(d, writes)] + rest
  {
    assert Uses(d, writes)[1..] == [];
    assert Flatten([], rest) == rest;
  }

  lemma FlattenReading(l: Lock, body: seq<Code>, rest: seq<Act>)
    ensures Flatten(Reading(l, body), rest) == [Acquire(l, Shared)] + Flatten(body, [Release(l)] + rest)
  {
    assert Reading(l, body)[1..] == [];
    assert Flatten([], rest) == rest;
  }

  // --------------------------------------------- what operations do, act by act

  lemma LockedUseActs(l: Lock, d: Datum, writes: bool)
    ensures Flatten(Locking(l, Uses(d, writes)), []) == [Acquire(l, Exclusive), Access(d, writes), Release(l)]
    ensures Flatten(Reading(l, Uses(d, writes)), []) == [Acquire(l, Shared), Access(d, writes), Release(l)]
  {
    FlattenLocking(l, Uses(d, writes), []);
    FlattenReading(l, Uses(d, writes), []);
    FlattenUse(d, writes, [Release(l)]);
    assert [Release(l)] + [] == [Release(l)];
    hide Flatten;
  }

  /** The operations that make one access: under which lock, how it is held, and what they
      access. */
  lemma OneAccessOperations(name: string, id: nat, writes: bool, logger: LoggerRef)
    ensures Flatten(CodeOf(OpGetValue(name)), []) ==
            [Acquire(Var(name), Shared), Access(Value(name), false), Release(Var(name))]
    ensures Flatten(CodeOf(OpGetListener(name)), []) ==
            [Acquire(Var(name), Shared), Access(Listeners(name), false), Release(Var(name))]
    ensures Flatten(CodeOf(OpDropListeners(name)), []) ==
            [Acquire(Var(name), Exclusive), Access(Listeners(name), true), Release(Var(name))]
    ensures Flatten(CodeOf(OpLookupRead), []) ==
            [Acquire(Registry, Shared), Access(Variables, false), Release(Registry)]
    ensures Flatten(CodeOf(OpFormatter(id, writes)), []) ==
            [Acquire(Appender(id), Exclusive), Access(AppenderFormatter(id), writes), Release(Appender(id))]
    ensures Flatten(CodeOf(OpReopen(id)), []) ==
            [Acquire(Appender(id), Exclusive), Access(Stream(id), true), Release(Appender(id))]
    ensures var l := if logger.root then RootLogger else NamedLogger(logger.id);
            && Flatten(CodeOf(OpLoggerFormatter(logger)), []) ==
               [Acquire(l, Exclusive), Access(LoggerFormatter(l), false), Release(l)]
            && Flatten(CodeOf(OpTakeOut(logger)), []) == [Acquire(l, Exclusive), Access(Attached(l), true), Release(l)]
  {
    var l := LockOf(logger);
    LockedUseActs(Var(name), Value(name), false);
    LockedUseActs(Var(name), Listeners(name), false);
    LockedUseActs(Var(name), Listeners(name), true);
    LockedUseActs(Registry, Variables, false);
    LockedUseActs(Appender(id), AppenderFormatter(id), writes);
    LockedUseActs(Appender(id), Stream(id), true);
    LockedUseActs(l, LoggerFormatter(l), false);
    LockedUseActs(l, Attached(l), true);
    hide Flatten, Locking, Reading, Uses;
  }

  /** `setValue` with a new value: the value and the listeners are read and the listeners run
      under the read lock; it is given up before the write lock is taken to store. */
  lemma SetValueActs(name: string, callbacks: seq<seq<Code>>)
    requires forall k | 0 <= k < |callbacks| :: RespectsRank(callbacks[k], 1)
    ensures Flatten(SetValue(name, true, callbacks), []) ==
            [Acquire(Var(name), Shared), Access(Value(name), false), Access(Listeners(name), false)]
            + Flatten(Concat(callbacks),
                      [Release(Var(name))] +
                      [Acquire(Var(name), Exclusive), Access(Value(name), true), Release(Var(name))])
    ensures Flatten(SetValue(name, false, callbacks), []) ==
            [Acquire(Var(name), Shared), Access(Value(name), false), Release(Var(name))]
  {
    var store := Locking(Var(name), Writes(Value(name)));
    hide RespectsRank, Locking, Reading, Uses, Concat, Round;
    assert SetValue(name, true, callbacks) == Round(name, callbacks) + store;
    assert SetValue(name, false, callbacks) == Reading(Var(name), Reads(Value(name)));
    hide SetValue, Flatten;
    LockedUseActs(Var(name), Value(name), true);
    LockedUseActs(Var(name), Value(name), false);
    FlattenAppend(Round(name, callbacks), store, []);
    RoundActs(name, callbacks, Flatten(store, []));
  }

  lemma RoundActs(name: string, callbacks: seq<seq<Code>>, rest: seq<Act>)
    requires forall k | 0 <= k < |callbacks| :: RespectsRank(callbacks[k], 1)
    ensures Flatten(Round(name, callbacks), rest) ==
            [Acquire(Var(name), Shared), Access(Value(name), false), Access(Listeners(name), false)]
            + Flatten(Concat(callbacks), [Release(Var(name))] + rest)
  {
    var l, all := Var(name), Concat(callbacks);
    var value, listeners := Reads(Value(name)), Reads(Listeners(name));
    ConcatThree(value, listeners, all);
    assert Round(name, callbacks) == Reading(l, value + (listeners + all));
    hide Flatten, Reading, Uses, Concat, RespectsRank, Round;
    FlattenReading(l, value + (listeners + all), rest);
    var more := [Release(l)] + rest;
    FlattenAppend(value, listeners + all, more);
    FlattenAppend(listeners, all, more);
    FlattenUse(Listeners(name), false, Flatten(all, more));
    FlattenUse(Value(name), false, Flatten(listeners + all, more));
  }

  lemma ConcatThree(a: seq<Code>, b: seq<Code>, c: seq<Code>)
    ensures Concat([a, b, c]) == a + (b + c)
  {
    assert [a, b, c][1..] == [b, c] && [b, c][1..] == [c] && [c][1..] == [];
    assert Concat([c]) == c + [] == c;
  }

  /** `addAppender` of an appender without formatter: looked at and assigned in two separate
      holds of the appender's lock, both under the logger's. */
  lemma AddAppenderActs(logger: LoggerRef, a: nat)
    ensures var l, al := if logger.root then RootLogger else NamedLogger(logger.id), Appender(a);
            Flatten(AddAppender(logger, a, false), []) ==
            [Acquire(l, Exclusive), Acquire(al, Exclusive), Access(AppenderFormatter(a), false), Release(al),
             Acquire(al, Exclusive), Access(LoggerFormatter(l), false), Access(AppenderFormatter(a), true), Release(al),
             Access(Attached(l), true), Release(l)]
  {
    var l, al := LockOf(logger), Appender(a);
    var look := Locking(al, Reads(AppenderFormatter(a)));
    var lend := Reads(LoggerFormatter(l)) + Writes(AppenderFormatter(a));
    var attach := Writes(Attached(l));
    ConcatThree(look, Locking(al, lend), attach);
    hide Flatten, Locking, Uses, Concat;
    var r0 := [Release(l)] + [];
    FlattenLocking(l, look + (Locking(al, lend) + attach), []);
    FlattenAppend(look, Locking(al, lend) + attach, r0);
    FlattenAppend(Locking(al, lend), attach, r0);
    FlattenUse(Attached(l), true, r0);
    var r1 := [Access(Attached(l), true)] + r0;
    FlattenLocking(al, lend, r1);
    FlattenAppend(Reads(LoggerFormatter(l)), Writes(AppenderFormatter(a)), [Release(al)] + r1);
    FlattenUse(AppenderFormatter(a), true, [Release(al)] + r1);
    FlattenUse(LoggerFormatter(l), false, [Access(AppenderFormatter(a), true)] + ([Release(al)] + r1));
    var r2 := Flatten(Locking(al, lend), r1);
    FlattenLocking(al, Reads(AppenderFormatter(a)), r2);
    FlattenUse(AppenderFormatter(a), false, [Release(al)] + r2);
  }

  /** Two threads, one operation each. */
  lemma TwoThreads(a: Op, b: Op)
    requires CallbacksRespectRank(a) && CallbacksAreGuarded(a) && CallbacksRespectRank(b) && CallbacksAreGuarded(b)
    ensures AllowedAll([[a], [b]])
    ensures Start(Programs([[a], [b]])) ==
            [Thread(map[], Flatten(CodeOf(a), [])), Thread(map[], Flatten(CodeOf(b), []))]
    ensures IsSystemRun([[a], [b]], [Start(Programs([[a], [b]]))], true)
  {
    forall op | op in {a, b} ensures CallbacksRespectRank(op) ==> Program([op]) == CodeOf(op) {
      assert [op][1..] == [];
      if CallbacksRespectRank(op) { assert CodeOf(op) + [] == CodeOf(op); }
    }
  }

  lemma LevelsRace(l: Lock)
    ensures CanRaceOn(LevelOf(l))
  {
    var op := OpLevel(l, true);
    TwoThreads(op, op);
    FlattenUse(LevelOf(l), true, []);
    hide Flatten, Uses, CodeOf;
    var s := Start(Programs([[op], [op]]));
    assert CodeOf(op) == Uses(LevelOf(l), true) by { CodeOfLevel(l); }
    assert IsAbout(s[0], LevelOf(l), true) && IsAbout(s[1], LevelOf(l), true);
    assert [s][|[s]| - 1] == s;
  }

  lemma CodeOfLevel(l: Lock)
    ensures CodeOf(OpLevel(l, true)) == Uses(LevelOf(l), true)
  {}

  lemma AddListenerActs(name: string)
    ensures var todo := Flatten(CodeOf(OpAddListener(name)), []);
            |todo| > 1 && todo[0] == Acquire(Var(name), Exclusive) && todo[1] == Access(ListenerIds, true)
  {
    var more := [Release(Var(name))] + [];
    FlattenLocking(Var(name), Writes(ListenerIds) + Writes(Listeners(name)), []);
    FlattenAppend(Writes(ListenerIds), Writes(Listeners(name)), more);
    FlattenUse(ListenerIds, true, Flatten(Writes(Listeners(name)), more));
    hide Flatten;
  }

  lemma ListenerIdsRace()
    ensures CanRaceOn(ListenerIds)
  {
    var a, b := OpAddListener("a"), OpAddListener("b");
    var threads := [[a], [b]];
    TwoThreads(a, b);
    AddListenerActs("a");
    AddListenerActs("b");
    hide Flatten, CodeOf;
    var s := Start(Programs(threads));
    ProgramsStartCovered(threads);
    assert IsFree(s, 0, 1);
    var first := GoesOn([s], 0, 1, true);
    var t := first[|first| - 1];
    assert t == s[0 := Onward(s[0], 1)] && t[0].held == map[Var("a") := Exclusive] by { OneOnward(s[0]); }
    assert IsFree(t, 1, 1);
    var states := GoesOn(first, 1, 1, true);
    var u := states[|states| - 1];
    assert IsAbout(u[0], ListenerIds, true) && IsAbout(u[1], ListenerIds, true);
    assert IsSystemRun(threads, states, true);
  }

  lemma OneOnward(t: Thread)
    requires t.todo != []
    ensures Onward(t, 1) == Advance(t)
  {}

  lemma {:induction false} HeldFromActs(t: Thread, n: nat, l: Lock)
    requires n <= |t.todo| && l in Onward(t, n).held && l !in t.held
    ensures exists k :: 0 <= k < n && t.todo[k].Acquire? && t.todo[k].lock == l
  {
    if l in Onward(t, n - 1).held {
      HeldFromActs(t, n - 1, l);
    } else {
      assert Onward(t, n - 1).todo[0] == t.todo[n - 1];
    }
  }

  lemma FileActs(id: nat, rest: seq<Act>)
    ensures var acts := Flatten(Emit(File(id, true)), rest);
            && |acts| > 5 && acts[0] == Access(LevelOf(Appender(id)), false) && acts[1] == Access(LastTime(id), false)
            && acts[2] == Acquire(Appender(id), Exclusive) && acts[3] == Access(Stream(id), true)
            && acts[4] == Release(Appender(id)) && acts[5] == Access(LastTime(id), true)
  {
    var level, time := Reads(LevelOf(Appender(id))), Reads(LastTime(id));
    var reopened := Reopen(id) + Writes(LastTime(id));
    var write := Locking(Appender(id), Reads(AppenderFormatter(id)) + Writes(Stream(id)));
    var steps := [level, time, reopened, write];
    ConcatFour(level, time, reopened, write);
    hide Flatten, Locking, Uses;
    FlattenAppend(level, time + (reopened + write), rest);
    FlattenAppend(time, reopened + write, rest);
    FlattenAppend(reopened, write, rest);
    var r3 := Flatten(write, rest);
    FlattenAppend(Reopen(id), Writes(LastTime(id)), r3);
    var r2 := Flatten(Writes(LastTime(id)), r3);
    FlattenUse(LastTime(id), true, r3);
    FlattenLocking(Appender(id), Writes(Stream(id)), r2);
    FlattenUse(Stream(id), true, [Release(Appender(id))] + r2);
    var r1 := Flatten(reopened, r3);
    FlattenUse(LastTime(id), false, r1);
    FlattenUse(LevelOf(Appender(id)), false, Flatten(time, r1));
  }

  lemma ConcatFour(a: seq<Code>, b: seq<Code>, c: seq<Code>, d: seq<Code>)
    ensures Concat([a, b, c, d]) == a + (b + (c + d))
  {
    assert [a, b, c, d][1..] == [b, c, d] && [b, c, d][1..] == [c, d] && [c, d][1..] == [d] && [d][1..] == [];
    assert Concat([d]) == d + [] == d;
    assert Concat([c, d]) == c + d;
  }

  function LogToFile(n: nat, id: nat): Op {
    OpLog(ToNamed(n, true, [File(id, true)], false, false, []))
  }

  lemma CodeOfLogToFile(n: nat, id: nat)
    ensures var l := NamedLogger(n);
            CodeOf(LogToFile(n, id)) == Reads(LevelOf(l)) + Locking(l, Reads(Attached(l)) + Emit(File(id, true)))
  {
    var e := File(id, true);
    hide Emit, Locking, Uses;
    assert [e][1..] == [] && EmitAll([]) == [];
    assert EmitAll([e]) == Emit(e) + [] == Emit(e);
  }

  lemma LogToFileActs(n: nat, id: nat)
    ensures var acts := Flatten(CodeOf(LogToFile(n, id)), []);
            && |acts| > 8 && acts[4] == Access(LastTime(id), false) && acts[8] == Access(LastTime(id), true)
            && acts[1] == Acquire(NamedLogger(n), Exclusive) && acts[5] == Acquire(Appender(id), Exclusive)
            && forall k | 0 <= k < 8 && k != 1 && k != 5 :: !acts[k].Acquire?
  {
    CodeOfLogToFile(n, id);
    var l := NamedLogger(n);
    var body := Reads(Attached(l)) + Emit(File(id, true));
    var rest := [Release(l)] + [];
    hide Flatten, Locking, Uses, Emit, CodeOf;
    FlattenAppend(Reads(LevelOf(l)), Locking(l, body), []);
    FlattenUse(LevelOf(l), false, Flatten(Locking(l, body), []));
    FlattenLocking(l, body, []);
    FlattenAppend(Reads(Attached(l)), Emit(File(id, true)), rest);
    FlattenUse(Attached(l), false, Flatten(Emit(File(id, true)), rest));
    FileActs(id, rest);
    assert Flatten(CodeOf(LogToFile(n, id)), []) ==
      [Access(LevelOf(l), false), Acquire(l, Exclusive), Access(Attached(l), false)]
      + Flatten(Emit(File(id, true)), rest);
  }

  /** Two loggers that share a file appender. */
  lemma LastTimesRace(id: nat)
    ensures CanRaceOn(LastTime(id))
  {
    var a, b := LogToFile(0, id), LogToFile(1, id);
    var threads := [[a], [b]];
    TwoThreads(a, b);
    LogToFileActs(0, id);
    LogToFileActs(1, id);
    ProgramsStartCovered(threads);
    hide Flatten, CodeOf, LogToFile, Onward, Start, Programs, LockOrder.Inv;
    var s := Start(Programs(threads));
    var first := GoesOn([s], 0, 8, true);
    var t := first[|first| - 1];
    assert NamedLogger(1) !in t[0].held by {
      if NamedLogger(1) in t[0].held { HeldFromActs(s[0], 8, NamedLogger(1)); }
    }
    assert IsFree(t, 1, 4);
    var states := GoesOn(first, 1, 4, true);
    var u := states[|states| - 1];
    assert IsAbout(u[0], LastTime(id), true) && IsAbout(u[1], LastTime(id), false);
    assert IsSystemRun(threads, states, true);
  }

  /** Races are possible exactly on the data no lock goes with: the levels, the counter of
      listener keys, which variables of one type share, and a file appender's last time. */
  lemma RacesIff(d: Datum)
    ensures (exists threads: seq<seq<Op>>, states: seq<System>, writersFirst: bool ::
               IsSystemRun(threads, states, writersFirst) && RaceOn(states[|states| - 1], d)) <==>
            d.LevelOf? || d.ListenerIds? || d.LastTime?
  {
    forall threads, states, writersFirst: bool
      | Home(d).Some? && IsSystemRun(threads, states, writersFirst)
      ensures !RaceOn(states[|states| - 1], d)
    {
      GuardedDataNeverRace(threads, states, writersFirst, |states| - 1, d);
    }
    hide IsSystemRun, RaceOn;
    match d
    case LevelOf(l) => LevelsRace(l);
    case ListenerIds => ListenerIdsRace();
    case LastTime(id) => LastTimesRace(id);
    case _ =>
  }
}
