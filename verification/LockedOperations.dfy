/** What each operation of the configuration and logging system does to locks and to the
    data they are there for, and that all of them nest by rank. */
module LockedOperations {
  import opened LockOrder

  lemma {:induction false} RespectsAppend(a: seq<Code>, b: seq<Code>, floor: int)
    requires RespectsRank(a, floor) && RespectsRank(b, floor)
    ensures RespectsRank(a + b, floor)
  {
    if a == [] {
      assert a + b == b;
    } else {
      assert (a + b)[1..] == a[1..] + b;
      RespectsAppend(a[1..], b, floor);
    }
  }

  lemma {:induction false} RespectsLower(cs: seq<Code>, floor: int, lower: int)
    requires RespectsRank(cs, floor) && lower <= floor
    ensures RespectsRank(cs, lower)
  {
    if cs != [] {
      RespectsLower(cs[1..], floor, lower);
    }
  }

  function Concat(parts: seq<seq<Code>>): seq<Code> {
    if parts == [] then [] else parts[0] + Concat(parts[1..])
  }

  lemma {:induction false} RespectsConcat(parts: seq<seq<Code>>, floor: int)
    requires forall k | 0 <= k < |parts| :: RespectsRank(parts[k], floor)
    ensures RespectsRank(Concat(parts), floor)
  {
    if parts != [] {
      RespectsConcat(parts[1..], floor);
      RespectsAppend(parts[0], Concat(parts[1..]), floor);
    }
  }

  function Uses(d: Datum, writes: bool): (r: seq<Code>)
    ensures forall floor: int :: RespectsRank(r, floor)
  {
    assert [Touch(d, writes)][1..] == [];
    [Touch(d, writes)]
  }

  function Reads(d: Datum): (r: seq<Code>)
    ensures forall floor: int :: RespectsRank(r, floor)
  {
    Uses(d, false)
  }

  function Writes(d: Datum): (r: seq<Code>)
    ensures forall floor: int :: RespectsRank(r, floor)
  {
    Uses(d, true)
  }

  /** `ScopedLockImpl` and `WriteScopedLockImpl`: holds the lock around `body`. */
  function Locking(l: Lock, body: seq<Code>): (r: seq<Code>)
    ensures RespectsRank(body, Rank(l)) ==> forall floor: int | floor < Rank(l) :: RespectsRank(r, floor)
  {
    assert [Guard(l, Exclusive, body)][1..] == [];
    [Guard(l, Exclusive, body)]
  }

  /** `ReadScopedLockImpl`. */
  function Reading(l: Lock, body: seq<Code>): (r: seq<Code>)
    ensures RespectsRank(body, Rank(l)) && !IsSpinlock(l) ==>
      forall floor: int | floor < Rank(l) :: RespectsRank(r, floor)
  {
    assert [Guard(l, Shared, body)][1..] == [];
    [Guard(l, Shared, body)]
  }

  // -------------------------------------------------- appenders and loggers

  /** One appender's part in a `log` call: filtered out by its level, written to
      the console, or written to a file that may be reopened first. */
  datatype Emission = Filtered(id: nat) | Console(id: nat) | File(id: nat, reopens: bool)

  function Emit(e: Emission): (r: seq<Code>)
    ensures RespectsRank(r, 4)
  {
    var level := Reads(LevelOf(Appender(e.id)));
    match e
    case Filtered(_) => level
    case Console(id) =>
      RespectsAppend(level, Locking(Appender(id), Reads(AppenderFormatter(id))), 4);
      level + Locking(Appender(id), Reads(AppenderFormatter(id)))
    case File(id, reopens) =>
      RespectsAppend(Reopen(id), Writes(LastTime(id)), 4);
      RespectsAppend(Reads(AppenderFormatter(id)), Writes(Stream(id)), 5);
      var reopened := if reopens then Reopen(id) + Writes(LastTime(id)) else [];
      var write := Locking(Appender(id), Reads(AppenderFormatter(id)) + Writes(Stream(id)));
      var steps := [level, Reads(LastTime(id)), reopened, write];
      RespectsConcat(steps, 4);
      Concat(steps)
  }

  /** `FileLogAppender::reopen`. */
  function Reopen(id: nat): (r: seq<Code>)
    ensures forall floor: int | floor < 5 :: RespectsRank(r, floor)
  {
    Locking(Appender(id), Writes(Stream(id)))
  }

  function EmitAll(es: seq<Emission>): (r: seq<Code>)
    ensures RespectsRank(r, 4)
  {
    if es == [] then []
    else
      RespectsAppend(Emit(es[0]), EmitAll(es[1..]), 4);
      Emit(es[0]) + EmitAll(es[1..])
  }

  /** A `Logger::log` call. Only `getLogger` sets `m_root`, and never on the root
      logger itself (chord/logger.cpp:634, 649-651). */
  datatype LogCall =
    | ToRoot(enabled: bool, emissions: seq<Emission>)
    | ToNamed(id: nat, enabled: bool, emissions: seq<Emission>, hasRoot: bool, rootEnabled: bool,
        rootEmissions: seq<Emission>)

  /** `log` on the logger with lock `l`: the level test, then under the lock what the
      attached appenders do, or what is done instead. */
  function LogUnder(l: Lock, enabled: bool, body: seq<Code>): (r: seq<Code>)
    requires RespectsRank(body, Rank(l))
    ensures forall floor: int | floor < Rank(l) :: RespectsRank(r, floor)
  {
    RespectsAppend(Reads(Attached(l)), body, Rank(l));
    var rest := if enabled then Locking(l, Reads(Attached(l)) + body) else [];
    assert forall floor: int | floor < Rank(l) :: RespectsRank(Reads(LevelOf(l)) + rest, floor) by {
      forall floor: int | floor < Rank(l) ensures RespectsRank(Reads(LevelOf(l)) + rest, floor) {
        RespectsAppend(Reads(LevelOf(l)), rest, floor);
      }
    }
    Reads(LevelOf(l)) + rest
  }

  function LogRoot(enabled: bool, emissions: seq<Emission>): (r: seq<Code>)
    ensures RespectsRank(r, 3)
  {
    LogUnder(RootLogger, enabled, EmitAll(emissions))
  }

  function Log(c: LogCall): (r: seq<Code>)
    ensures RespectsRank(r, 2)
  {
    match c
    case ToRoot(enabled, emissions) =>
      RespectsLower(LogRoot(enabled, emissions), 3, 2);
      LogRoot(enabled, emissions)
    case ToNamed(id, enabled, emissions, hasRoot, rootEnabled, rootEmissions) =>
      RespectsLower(EmitAll(emissions), 4, 3);
      LogUnder(NamedLogger(id), enabled,
               if emissions != [] then EmitAll(emissions)
               else if hasRoot then LogRoot(rootEnabled, rootEmissions) else [])
  }

  /** A logger and its attached appenders, as far as locks go. */
  datatype LoggerRef = LoggerRef(root: bool, id: nat, appenders: seq<nat>)

  function LockOf(l: LoggerRef): (r: Lock)
    ensures 3 <= Rank(r) <= 4
  {
    if l.root then RootLogger else NamedLogger(l.id)
  }

  /** `setFormatter`, which passes over the appenders with their own, or `toYamlString`. */
  datatype Visit = Formats(own: set<nat>) | Dumps

  function VisitOne(id: nat, v: Visit): (r: seq<Code>)
    ensures forall floor: int | floor < 5 :: RespectsRank(r, floor)
  {
    var look := Reads(if v.Dumps? then LevelOf(Appender(id)) else AppenderFormatter(id));
    var rest := if v.Dumps? then Reads(AppenderFormatter(id))
                else if id in v.own then [] else Writes(AppenderFormatter(id));
    RespectsAppend(look, rest, 5);
    Locking(Appender(id), look + rest)
  }

  function EachAppender(ids: seq<nat>, v: Visit): (r: seq<Code>)
    ensures RespectsRank(r, 4)
  {
    if ids == [] then []
    else
      RespectsAppend(VisitOne(ids[0], v), EachAppender(ids[1..], v), 4);
      VisitOne(ids[0], v) + EachAppender(ids[1..], v)
  }

  /** `setFormatter` and `toYamlString` visit every appender under the logger's lock. */
  function VisitAppenders(l: LoggerRef, v: Visit): (r: seq<Code>)
    ensures RespectsRank(r, 2)
  {
    var lock := LockOf(l);
    RespectsLower(EachAppender(l.appenders, v), 4, Rank(lock));
    var steps := [if v.Dumps? then Reads(LevelOf(lock)) else [], Uses(LoggerFormatter(lock), v.Formats?),
                  Reads(Attached(lock)), EachAppender(l.appenders, v)];
    RespectsConcat(steps, Rank(lock));
    Locking(lock, Concat(steps))
  }

  /** The formatter is looked at under the appender's lock, which is then given up, and
      assigned under it. */
  function AddAppender(l: LoggerRef, a: nat, hasFormatter: bool): (r: seq<Code>)
    ensures RespectsRank(r, 2)
  {
    var lock := LockOf(l);
    RespectsAppend(Reads(LoggerFormatter(lock)), Writes(AppenderFormatter(a)), 5);
    var assign :=
      if hasFormatter then [] else Locking(Appender(a), Reads(LoggerFormatter(lock)) + Writes(AppenderFormatter(a)));
    var steps := [Locking(Appender(a), Reads(AppenderFormatter(a))), assign, Writes(Attached(lock))];
    RespectsConcat(steps, Rank(lock));
    Locking(lock, Concat(steps))
  }

  function ManagerToYaml(ls: seq<LoggerRef>): (r: seq<Code>)
    ensures RespectsRank(r, 1)
  {
    RespectsAppend(Reads(LoggerTable), LoggersToYaml(ls), 2);
    Locking(Manager, Reads(LoggerTable) + LoggersToYaml(ls))
  }

  function LoggersToYaml(ls: seq<LoggerRef>): (r: seq<Code>)
    ensures RespectsRank(r, 2)
  {
    if ls == [] then []
    else
      RespectsAppend(VisitAppenders(ls[0], Dumps), LoggersToYaml(ls[1..]), 2);
      VisitAppenders(ls[0], Dumps) + LoggersToYaml(ls[1..])
  }

  function GetLogger(creates: bool): (r: seq<Code>)
    ensures RespectsRank(r, 1) && RespectsRank(r, -1)
  {
    var create := if creates then Writes(LoggerTable) else [];
    RespectsAppend(Reads(LoggerTable), create, 2);
    Locking(Manager, Reads(LoggerTable) + create)
  }

  // ---------------------------------------------- reconfiguring the loggers

  datatype AppenderSetup = AppenderSetup(id: nat, isFile: bool, setsFormatter: bool, hasFormatter: bool)

  function SetupAppenders(l: LoggerRef, setups: seq<AppenderSetup>): (r: seq<Code>)
    ensures RespectsRank(r, 1)
  {
    if setups == [] then []
    else
      var a := setups[0];
      RespectsLower(AddAppender(l, a.id, a.hasFormatter), 2, 1);
      var reopened := if a.isFile then Reopen(a.id) else [];
      var formatted := if a.setsFormatter then Locking(Appender(a.id), Writes(AppenderFormatter(a.id))) else [];
      var steps := [reopened, Writes(LevelOf(Appender(a.id))), formatted, AddAppender(l, a.id, a.hasFormatter),
                    SetupAppenders(l, setups[1..])];
      RespectsConcat(steps, 1);
      Concat(steps)
  }

  datatype LoggerSetup = LoggerSetup(logger: LoggerRef, creates: bool, setsFormatter: bool, own: set<nat>,
                                     setups: seq<AppenderSetup>)

  /** `getLogger`, `setLevel`, `setFormatter`, `clearAppenders`, then every new appender; for
      a removed logger there is no formatter and no appender. */
  function SetupLogger(s: LoggerSetup): (r: seq<Code>)
    ensures RespectsRank(r, 1)
  {
    var lock := LockOf(s.logger);
    RespectsLower(VisitAppenders(s.logger, Formats(s.own)), 2, 1);
    var formatted := if s.setsFormatter then VisitAppenders(s.logger, Formats(s.own)) else [];
    var steps := [GetLogger(s.creates), Writes(LevelOf(lock)), formatted, Locking(lock, Writes(Attached(lock))),
                  SetupAppenders(s.logger, s.setups)];
    RespectsConcat(steps, 1);
    Concat(steps)
  }

  /** The listener that `LogIniter` registers (chord/logger.cpp:815-884). */
  function OnLogDefinesChanged(first: LogCall, setups: seq<LoggerSetup>): (r: seq<Code>)
    ensures RespectsRank(r, 1)
  {
    RespectsLower(Log(first), 2, 1);
    RespectsAppend(Log(first), SetupLoggers(setups), 1);
    Log(first) + SetupLoggers(setups)
  }

  function SetupLoggers(setups: seq<LoggerSetup>): (r: seq<Code>)
    ensures RespectsRank(r, 1)
  {
    if setups == [] then []
    else
      RespectsAppend(SetupLogger(setups[0]), SetupLoggers(setups[1..]), 1);
      SetupLogger(setups[0]) + SetupLoggers(setups[1..])
  }

  // ------------------------------------------------ variables and registry

  /** The listeners' round: value and listeners are read, and all are called, under the read
      lock. */
  function Round(name: string, callbacks: seq<seq<Code>>): (r: seq<Code>)
    requires forall k | 0 <= k < |callbacks| :: RespectsRank(callbacks[k], 1)
    ensures RespectsRank(r, 0)
  {
    RespectsConcat(callbacks, 1);
    var steps := [Reads(Value(name)), Reads(Listeners(name)), Concat(callbacks)];
    RespectsConcat(steps, 1);
    Reading(Var(name), Concat(steps))
  }

  /** `setValue`: the write lock is taken after the read lock has been released. */
  function SetValue(name: string, changed: bool, callbacks: seq<seq<Code>>): (r: seq<Code>)
    requires forall k | 0 <= k < |callbacks| :: RespectsRank(callbacks[k], 1)
    ensures RespectsRank(r, 0)
  {
    RespectsAppend(Round(name, callbacks), Locking(Var(name), Writes(Value(name))), 0);
    if changed then Round(name, callbacks) + Locking(Var(name), Writes(Value(name)))
    else Reading(Var(name), Reads(Value(name)))
  }

  /** Results of converting a text: fails to convert, converts, or converts and
      then one of the listeners throws. The handler logs after the unwinding. */
  datatype Conversion = Bad | Good(changed: bool) | Throws

  function FromString(name: string, c: Conversion, callbacks: seq<seq<Code>>, log: LogCall): (r: seq<Code>)
    requires forall k | 0 <= k < |callbacks| :: RespectsRank(callbacks[k], 1)
    ensures RespectsRank(r, 0)
  {
    RespectsLower(Log(log), 2, 0);
    RespectsAppend(Round(name, callbacks), Log(log), 0);
    match c
    case Bad => Log(log)
    case Good(changed) => SetValue(name, changed, callbacks)
    case Throws => Round(name, callbacks) + Log(log)
  }

  function ToString(name: string, fails: bool, log: LogCall): (r: seq<Code>)
    ensures RespectsRank(r, 0)
  {
    RespectsLower(Log(log), 2, 0);
    var handled := if fails then Log(log) else [];
    RespectsAppend(Reading(Var(name), Reads(Value(name))), handled, 0);
    Reading(Var(name), Reads(Value(name))) + handled
  }

  datatype LookupOutcome = Found | WrongType(existing: string, fails: bool) | Invalid | Created

  function Lookup(o: LookupOutcome, log: LogCall): (r: seq<Code>)
    ensures RespectsRank(r, -1)
  {
    RespectsLower(Log(log), 2, 0);
    var shown := if o.WrongType? then ToString(o.existing, o.fails, log) else [];
    var rest := if o.Created? then Writes(Variables) else shown + Log(log);
    RespectsAppend(shown, Log(log), 0);
    RespectsAppend(Reads(Variables), rest, 0);
    Locking(Registry, Reads(Variables) + rest)
  }

  // -------------------------------------------------------------- all of it

  datatype Op =
    | OpLog(call: LogCall)
    | OpLevel(holder: Lock, writes: bool)      // getLevel, setLevel of a logger or an appender
    | OpFormatter(id: nat, writes: bool)       // getFormatter, setFormatter of an appender
    | OpReopen(id: nat)
    | OpAppenderToYaml(id: nat)
    | OpLoggerFormatter(logger: LoggerRef)     // getFormatter
    | OpTakeOut(logger: LoggerRef)             // clearAppenders, delAppender
    | OpVisitAppenders(logger: LoggerRef, visit: Visit)
    | OpAddAppender(logger: LoggerRef, a: nat, hasFormatter: bool)
    | OpGetLogger(creates: bool)
    | OpManagerToYaml(loggers: seq<LoggerRef>)
    | OpGetValue(name: string)
    | OpGetListener(name: string)
    | OpAddListener(name: string)
    | OpDropListeners(name: string)            // delListener, clearListener
    | OpSetValue(name: string, changed: bool, callbacks: seq<seq<Code>>)
    | OpSetLogDefines(changed: bool, first: LogCall, setups: seq<LoggerSetup>)
    | OpFromString(name: string, conversion: Conversion, callbacks: seq<seq<Code>>, call: LogCall)
    | OpToString(name: string, fails: bool, call: LogCall)
    | OpLookup(outcome: LookupOutcome, call: LogCall)
    | OpLookupRead                             // Lookup without a default, LookupBase
    | OpVisit(visitors: seq<seq<Code>>)

  /** The proviso on user code: listeners run above a variable, visitors above the registry. */
  predicate CallbacksRespectRank(op: Op) {
    match op
    case OpSetValue(_, _, callbacks) => forall k | 0 <= k < |callbacks| :: RespectsRank(callbacks[k], 1)
    case OpFromString(_, _, callbacks, _) => forall k | 0 <= k < |callbacks| :: RespectsRank(callbacks[k], 1)
    case OpVisit(visitors) => forall k | 0 <= k < |visitors| :: RespectsRank(visitors[k], 0)
    case _ => true
  }

  function CodeOf(op: Op): seq<Code>
    requires CallbacksRespectRank(op)
  {
    match op
    case OpLog(call) => Log(call)
    case OpLevel(holder, writes) => Uses(LevelOf(holder), writes)
    case OpFormatter(id, writes) => Locking(Appender(id), Uses(AppenderFormatter(id), writes))
    case OpReopen(id) => Reopen(id)
    case OpAppenderToYaml(id) => VisitOne(id, Dumps)
    case OpLoggerFormatter(logger) => Locking(LockOf(logger), Reads(LoggerFormatter(LockOf(logger))))
    case OpTakeOut(logger) => Locking(LockOf(logger), Writes(Attached(LockOf(logger))))
    case OpVisitAppenders(logger, visit) => VisitAppenders(logger, visit)
    case OpAddAppender(logger, a, hasFormatter) => AddAppender(logger, a, hasFormatter)
    case OpGetLogger(creates) => GetLogger(creates)
    case OpManagerToYaml(loggers) => ManagerToYaml(loggers)
    case OpGetValue(name) => Reading(Var(name), Reads(Value(name)))
    case OpGetListener(name) => Reading(Var(name), Reads(Listeners(name)))
    case OpAddListener(name) => Locking(Var(name), Writes(ListenerIds) + Writes(Listeners(name)))
    case OpDropListeners(name) => Locking(Var(name), Writes(Listeners(name)))
    case OpSetValue(name, changed, callbacks) => SetValue(name, changed, callbacks)
    case OpSetLogDefines(changed, first, setups) => SetValue("logs", changed, [OnLogDefinesChanged(first, setups)])
    case OpFromString(name, conversion, callbacks, call) => FromString(name, conversion, callbacks, call)
    case OpToString(name, fails, call) => ToString(name, fails, call)
    case OpLookup(outcome, call) => Lookup(outcome, call)
    case OpLookupRead => Reading(Registry, Reads(Variables))
    case OpVisit(visitors) => Reading(Registry, Reads(Variables) + Concat(visitors))
  }

  lemma EveryOperationRespectsRank(op: Op)
    requires CallbacksRespectRank(op)
    ensures RespectsRank(CodeOf(op), -1)
  {
    match op
    case OpLog(call) => RespectsLower(Log(call), 2, -1);
    case OpVisitAppenders(logger, visit) => RespectsLower(VisitAppenders(logger, visit), 2, -1);
    case OpAddListener(name) => RespectsAppend(Writes(ListenerIds), Writes(Listeners(name)), 1);
    case OpAddAppender(logger, a, hasFormatter) => RespectsLower(AddAppender(logger, a, hasFormatter), 2, -1);
    case OpManagerToYaml(loggers) => RespectsLower(ManagerToYaml(loggers), 1, -1);
    case OpSetValue(name, changed, callbacks) => RespectsLower(SetValue(name, changed, callbacks), 0, -1);
    case OpSetLogDefines(changed, first, setups) =>
      RespectsLower(SetValue("logs", changed, [OnLogDefinesChanged(first, setups)]), 0, -1);
    case OpFromString(name, conversion, callbacks, call) =>
      RespectsLower(FromString(name, conversion, callbacks, call), 0, -1);
    case OpToString(name, fails, call) => RespectsLower(ToString(name, fails, call), 0, -1);
    case OpVisit(visitors) =>
      RespectsConcat(visitors, 0);
      RespectsAppend(Reads(Variables), Concat(visitors), 0);
    case _ =>
  }

  function Program(ops: seq<Op>): seq<Code>
    requires forall k | 0 <= k < |ops| :: CallbacksRespectRank(ops[k])
  {
    if ops == [] then [] else CodeOf(ops[0]) + Program(ops[1..])
  }

  lemma {:induction false} ProgramsRespectRank(ops: seq<Op>)
    requires forall k | 0 <= k < |ops| :: CallbacksRespectRank(ops[k])
    ensures RespectsRank(Program(ops), -1)
  {
    if ops != [] {
      EveryOperationRespectsRank(ops[0]);
      ProgramsRespectRank(ops[1..]);
      RespectsAppend(CodeOf(ops[0]), Program(ops[1..]), -1);
    }
  }

  /** Deadlock freedom of the system itself: any number of threads, each running any
      list of operations, whatever lock policy the platform has. */
  lemma {:induction false} TheSystemIsDeadlockFree(threads: seq<seq<Op>>, states: seq<System>, writersFirst: bool,
      k: nat)
    requires forall i, j | 0 <= i < |threads| && 0 <= j < |threads[i]| :: CallbacksRespectRank(threads[i][j])
    requires k < |states| && Run(states, writersFirst)
    requires states[0] == Start(seq(|threads|, i requires 0 <= i < |threads| => Program(threads[i])))
    ensures MutualExclusion(states[k])
    ensures !Finished(states[k]) ==> exists i: nat :: Enabled(states[k], i, writersFirst)
    ensures CanFinish(states[k], writersFirst)
    ensures forall i | 0 <= i < |states[k]| && Waiting(states[k][i]) :: states[k][i].todo[0].lock !in states[k][i].held
  {
    var programs := seq(|threads|, i requires 0 <= i < |threads| => Program(threads[i]));
    forall i | 0 <= i < |threads| ensures RespectsRank(programs[i], -1) {
      ProgramsRespectRank(threads[i]);
    }
    DeadlockFree(programs, states, writersFirst, k);
    InitialInv(programs);
    RunKeepsInv(states, writersFirst, k);
    forall i | 0 <= i < |states[k]| && Waiting(states[k][i])
      ensures states[k][i].todo[0].lock !in states[k][i].held
    {
      NoRelock(states[k], i);
    }
  }

  /** The proviso is needed: a listener that registers a listener on its own variable
      asks for the write lock under the read lock, and the thread is stuck. */
  lemma ListenerOnItsOwnVariableIsStuck(name: string, writersFirst: bool, s0: System, s1: System)
    requires s0 == Start([Reading(Var(name), Locking(Var(name), []))])
    requires s1 == s0[0 := Advance(s0[0])]
    ensures !RespectsRank(Reading(Var(name), Locking(Var(name), [])), -1)
    ensures Next(s0, s1, 0, writersFirst)
    ensures !Finished(s1) && forall i: nat :: !Enabled(s1, i, writersFirst)
  {
    var inner, code := Locking(Var(name), []), Reading(Var(name), Locking(Var(name), []));
    assert code[0].body == inner && inner[0].lock == Var(name);
    var rest := Flatten(inner, [Release(Var(name))]);
    assert rest[0] == Acquire(Var(name), Exclusive);
    assert code[1..] == [] && [Release(Var(name))] + [] == [Release(Var(name))];
    assert Flatten(code[1..], []) == [];
    assert s0[0].todo == Flatten(code, []) == [Acquire(Var(name), Shared)] + rest;
    assert s1[0].todo == rest && s1[0].held == map[Var(name) := Shared];
    assert Conflicts(s1[0], Var(name), Exclusive);
  }
}
