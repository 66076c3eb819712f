/** Live reconfiguration of the loggers (chord/logger.cpp:640-653, 815-884) on values:
    what a change of the `logs` variable does, over every sequence of changes. */
module Reconciliation {
  import opened DefaultPattern
  import opened LogDefines
  import opened Options
  import opened PatternLaws

  /** `(LogLevel::Level)100`, above every level an event can have. */
  const TOO_HIGH: Level := 100

  const ROOT := "root"

  /** `pattern` is the pattern of the formatter object held, if any. */
  datatype AppenderState = AppenderState(kind: int, file: string, level: Level, own: bool, pattern: Option<string>)
  datatype LoggerState = LoggerState(level: Level, pattern: Option<string>, appenders: seq<AppenderState>)

  type Loggers = map<string, LoggerState>

  const NEW_LOGGER := LoggerState(DEBUG, Some(DEFAULT_PATTERN), [])

  /** What a new manager holds: root, writing to stdout. */
  const INITIAL: Loggers :=
    map[ROOT := LoggerState(DEBUG, Some(DEFAULT_PATTERN),
        [AppenderState(STDOUT, "", DEBUG, false, Some(DEFAULT_PATTERN))])]

  /** `CHORD_LOG_NAME(name)`: an unknown logger is created. */
  function Ensure(m: Loggers, name: string): Loggers {
    if name in m then m else m[name := NEW_LOGGER]
  }

  predicate IsValidPattern(pattern: string) {
    pattern != "" && !Compile(pattern).error
  }

  function BuildAppender(a: AppenderDefine, pattern: Option<string>): AppenderState {
    var own := IsValidPattern(a.formatter);
    AppenderState(a.kind, if a.kind == FILE then a.file else "", a.level, own,
                  if own then Some(a.formatter) else pattern)
  }

  function BuildAppenders(appenders: seq<AppenderDefine>, pattern: Option<string>): (r: seq<AppenderState>)
    ensures |r| == |appenders|
  {
    seq(|appenders|, i requires 0 <= i < |appenders| => BuildAppender(appenders[i], pattern))
  }

  function Configure(l: LoggerState, d: LogDefine): LoggerState {
    var pattern := if IsValidPattern(d.formatter) then Some(d.formatter) else l.pattern;
    LoggerState(d.level, pattern, BuildAppenders(d.appenders, pattern))
  }

  function Silence(l: LoggerState): LoggerState {
    LoggerState(TOO_HIGH, l.pattern, [])
  }

  /** The appender types the callback knows how to build. */
  predicate IsBuildable(d: LogDefine) {
    forall a | a in d.appenders :: a.kind == FILE || a.kind == STDOUT
  }

  ghost predicate AllBuildable(s: seq<LogDefine>) {
    forall d | d in s :: IsBuildable(d)
  }

  /** The definition in `s` with a name. */
  function FindDefine(s: seq<LogDefine>, name: string): Reading<LogDefine> {
    if s == [] then Absent
    else if s[|s| - 1].name == name then Found(s[|s| - 1])
    else FindDefine(s[..|s| - 1], name)
  }

  lemma {:induction false} FindDefineIff(s: seq<LogDefine>, name: string)
    ensures !FindDefine(s, name).Thrown?
    ensures FindDefine(s, name).Found? <==> Names(s, name)
    ensures FindDefine(s, name).Found? ==> FindDefine(s, name).value in s && FindDefine(s, name).value.name == name
    ensures Ascending(s) ==> forall d | d in s && d.name == name :: FindDefine(s, name) == Found(d)
  {
    if s != [] {
      var front, last := s[..|s| - 1], s[|s| - 1];
      FindDefineIff(front, name);
      assert s == front + [last];
      if Ascending(s) && last.name == name {
        forall d | d in front ensures d.name != name { LessIsTotal(d.name, name); }
      }
    }
  }

  /** The callback's first loop over a prefix of the new definitions, skipping those
      that have not changed. */
  function ApplyDefines(m: Loggers, oldDefs: seq<LogDefine>, defs: seq<LogDefine>): Loggers {
    if defs == [] then m
    else
      var before, d := ApplyDefines(m, oldDefs, defs[..|defs| - 1]), defs[|defs| - 1];
      if FindDefine(oldDefs, d.name) == Found(d) then before
      else
        var known := Ensure(before, d.name);
        known[d.name := Configure(known[d.name], d)]
  }

  /** The second loop: loggers whose definition is gone. */
  function SilenceRemoved(m: Loggers, defs: seq<LogDefine>, newDefs: seq<LogDefine>): Loggers {
    if defs == [] then m
    else
      var before, d := SilenceRemoved(m, defs[..|defs| - 1], newDefs), defs[|defs| - 1];
      if FindDefine(newDefs, d.name).Found? then before
      else
        var known := Ensure(before, d.name);
        known[d.name := Silence(known[d.name])]
  }

  function Reconcile(m: Loggers, oldDefs: seq<LogDefine>, newDefs: seq<LogDefine>): Loggers {
    SilenceRemoved(ApplyDefines(m, oldDefs, newDefs), oldDefs, newDefs)
  }

  /** The callback as written runs to its end: no definition is unchanged, for then no
      logger is looked up and a null pointer is followed, and every appender is built. */
  ghost predicate Completes(oldDefs: seq<LogDefine>, newDefs: seq<LogDefine>) {
    forall d | d in newDefs :: d !in oldDefs && IsBuildable(d)
  }

  // -------------------------------------------------- what one change does

  /** A logger's state after a change, by name. */
  function After(m: Loggers, oldDefs: seq<LogDefine>, newDefs: seq<LogDefine>, name: string): Reading<LoggerState> {
    var was := if name in m then Found(m[name]) else Absent;
    var base := if name in m then m[name] else NEW_LOGGER;
    match FindDefine(newDefs, name)
    case Found(d) => if FindDefine(oldDefs, name) == Found(d) then was else Found(Configure(base, d))
    case _ => if FindDefine(oldDefs, name).Found? then Found(Silence(base)) else was
  }

  function Get(m: Loggers, name: string): Reading<LoggerState> {
    if name in m then Found(m[name]) else Absent
  }

  lemma AscendingFront(s: seq<LogDefine>)
    requires Ascending(s) && s != []
    ensures Ascending(s[..|s| - 1]) && !Names(s[..|s| - 1], s[|s| - 1].name)
  {
    forall d | d in s[..|s| - 1] ensures d.name != s[|s| - 1].name { LessIsTotal(d.name, s[|s| - 1].name); }
  }

  lemma {:induction false} ApplyByName(m: Loggers, oldDefs: seq<LogDefine>, defs: seq<LogDefine>, name: string)
    requires Ascending(defs)
    ensures Get(ApplyDefines(m, oldDefs, defs), name) ==
            match FindDefine(defs, name)
            case Found(d) =>
              if FindDefine(oldDefs, name) == Found(d) then Get(m, name)
              else Found(Configure(if name in m then m[name] else NEW_LOGGER, d))
            case _ => Get(m, name)
  {
    if defs != [] {
      AscendingFront(defs);
      ApplyByName(m, oldDefs, defs[..|defs| - 1], name);
      FindDefineIff(defs[..|defs| - 1], name);
      hide Configure;
    }
  }

  lemma {:induction false} SilenceByName(m: Loggers, defs: seq<LogDefine>, newDefs: seq<LogDefine>, name: string)
    requires Ascending(defs)
    ensures Get(SilenceRemoved(m, defs, newDefs), name) ==
            if FindDefine(defs, name).Found? && !FindDefine(newDefs, name).Found?
            then Found(Silence(if name in m then m[name] else NEW_LOGGER)) else Get(m, name)
  {
    if defs != [] {
      AscendingFront(defs);
      SilenceByName(m, defs[..|defs| - 1], newDefs, name);
      FindDefineIff(defs[..|defs| - 1], name);
    }
  }

  /** One change, logger by logger: changed definitions are applied, unchanged ones
      skipped, removed ones silenced, and every other logger is left as it was. */
  lemma ReconcileByName(m: Loggers, oldDefs: seq<LogDefine>, newDefs: seq<LogDefine>, name: string)
    requires Ascending(oldDefs) && Ascending(newDefs)
    ensures Get(Reconcile(m, oldDefs, newDefs), name) == After(m, oldDefs, newDefs, name)
  {
    ApplyByName(m, oldDefs, newDefs, name);
    SilenceByName(ApplyDefines(m, oldDefs, newDefs), oldDefs, newDefs, name);
    FindDefineIff(newDefs, name);
    hide ApplyDefines, SilenceRemoved, FindDefine, Configure, Silence;
  }

  // ------------------------------------------------------ every run of changes

  type History = seq<seq<LogDefine>>

  /** Every set the variable takes; an appender of unknown type would end the program. */
  ghost predicate IsHistory(h: History) {
    forall s | s in h :: Ascending(s) && AllBuildable(s)
  }

  /** The definitions in force; the variable's default is the empty set. */
  function Current(h: History): seq<LogDefine> {
    if h == [] then [] else h[|h| - 1]
  }

  function Run(m: Loggers, h: History): Loggers {
    if h == [] then m
    else Reconcile(Run(m, h[..|h| - 1]), Current(h[..|h| - 1]), Current(h))
  }

  ghost predicate EverDefined(h: History, name: string) {
    exists s | s in h :: Names(s, name)
  }

  /** The pattern last configured for a logger that compiles. */
  function LastValidPattern(m: Loggers, h: History, name: string): Option<string> {
    if h == [] then (if name in m then m[name].pattern else Some(DEFAULT_PATTERN))
    else
      match FindDefine(Current(h), name)
      case Found(d) =>
        if IsValidPattern(d.formatter) then Some(d.formatter) else LastValidPattern(m, h[..|h| - 1], name)
      case _ => LastValidPattern(m, h[..|h| - 1], name)
  }

  /** What a definition alone says, given the logger's pattern. */
  function AsDefined(d: LogDefine, pattern: Option<string>): LoggerState {
    LoggerState(d.level, pattern, BuildAppenders(d.appenders, pattern))
  }

  lemma EverDefinedSnoc(front: History, last: seq<LogDefine>, name: string)
    ensures EverDefined(front + [last], name) <==> EverDefined(front, name) || Names(last, name)
  {
    if Names(last, name) { assert last in front + [last]; }
    if EverDefined(front, name) {
      var s :| s in front && Names(s, name);
      assert s in front + [last];
    }
  }

  /** The state of every logger after any sequence of changes, in closed form: defined
      now, once defined, or never defined. */
  function Outcome(m: Loggers, h: History, name: string, ever: bool): Reading<LoggerState> {
    var pattern := LastValidPattern(m, h, name);
    match FindDefine(Current(h), name)
    case Found(d) => Found(AsDefined(d, pattern))
    case _ => if ever then Found(LoggerState(TOO_HIGH, pattern, [])) else Get(m, name)
  }

  lemma OutcomeStep(m: Loggers, front: History, last: seq<LogDefine>, name: string, before: Loggers)
    requires !FindDefine(last, name).Thrown? && !FindDefine(Current(front), name).Thrown?
    requires FindDefine(Current(front), name).Found? ==> EverDefined(front, name)
    requires Get(before, name) == Outcome(m, front, name, EverDefined(front, name))
    requires !EverDefined(front, name) ==>
               LastValidPattern(m, front, name) == if name in m then m[name].pattern else Some(DEFAULT_PATTERN)
    ensures After(before, Current(front), last, name) ==
            Outcome(m, front + [last], name, EverDefined(front, name) || FindDefine(last, name).Found?)
  {
    assert (front + [last])[..|front|] == front;
    hide FindDefine, EverDefined, IsValidPattern, BuildAppenders;
  }

  /** Whatever came before, after any sequence of changes each defined logger has exactly
      the level and appenders of its latest definition, each logger once defined and now
      removed has level 100 and no appenders, the formatter is the last valid one ever
      configured, and loggers never named are untouched. */
  lemma {:induction false} EveryHistoryEndsAsDefined(m: Loggers, h: History, name: string)
    requires IsHistory(h)
    ensures Get(Run(m, h), name) == Outcome(m, h, name, EverDefined(h, name))
    ensures Names(Current(h), name) ==> EverDefined(h, name)
    ensures !EverDefined(h, name) ==>
              LastValidPattern(m, h, name) == if name in m then m[name].pattern else Some(DEFAULT_PATTERN)
  {
    if h != [] {
      var front, last := h[..|h| - 1], h[|h| - 1];
      assert h == front + [last];
      EveryHistoryEndsAsDefined(m, front, name);
      EverDefinedSnoc(front, last, name);
      FindDefineIff(last, name);
      FindDefineIff(Current(front), name);
      var before := Run(m, front);
      if front != [] { assert Current(front) in h; }
      ReconcileByName(before, Current(front), last, name);
      hide FindDefine, EverDefined, IsValidPattern, BuildAppenders, Reconcile, After, Outcome, Ascending, Names;
      OutcomeStep(m, front, last, name, before);
    }
  }

  /** Two histories that end in the same definitions agree on every defined logger that
      names a valid formatter: how the configuration got there does not matter. */
  lemma HistoryDoesNotMatter(m: Loggers, h: History, m': Loggers, h': History, d: LogDefine)
    requires IsHistory(h) && IsHistory(h') && Current(h) == Current(h') && d in Current(h)
    requires IsValidPattern(d.formatter)
    ensures Get(Run(m, h), d.name) == Get(Run(m', h'), d.name) == Found(AsDefined(d, Some(d.formatter)))
  {
    EveryHistoryEndsAsDefined(m, h, d.name);
    EveryHistoryEndsAsDefined(m', h', d.name);
    FindDefineIff(Current(h), d.name);
  }

  // --------------------------------------------------------------- emission

  /** One appender writing one event with one pattern; with none, the source follows a
      null formatter. */
  datatype Output = Output(kind: int, file: string, pattern: Option<string>)

  function EmitEach(appenders: seq<AppenderState>, level: Level): seq<Output> {
    if appenders == [] then []
    else
      var a := appenders[|appenders| - 1];
      EmitEach(appenders[..|appenders| - 1], level)
      + if level >= a.level then [Output(a.kind, a.file, a.pattern)] else []
  }

  /** `Logger::log`: a logger without appenders of its own hands the event to root. */
  function Emit(m: Loggers, name: string, level: Level): seq<Output>
    requires name in m && ROOT in m
  {
    if level < m[name].level then []
    else if m[name].appenders != [] then EmitEach(m[name].appenders, level)
    else if name == ROOT || level < m[ROOT].level then []
    else EmitEach(m[ROOT].appenders, level)
  }

  /** No event of any level comes out of a removed logger, not even through root, until
      it is defined again. */
  lemma RemovedLoggersAreSilent(m: Loggers, h: History, name: string, level: Level)
    requires IsHistory(h) && ROOT in m && level <= FATAL
    requires EverDefined(h, name) && !Names(Current(h), name)
    ensures name in Run(m, h) && ROOT in Run(m, h) && Emit(Run(m, h), name, level) == []
  {
    EveryHistoryEndsAsDefined(m, h, name);
    EveryHistoryEndsAsDefined(m, h, ROOT);
    FindDefineIff(Current(h), name);
  }

  /** What definition `d` alone says about an event: each of its appenders that admits
      the level writes it, with its own formatter if that is valid. */
  function DefinedOutputs(appenders: seq<AppenderDefine>, pattern: Option<string>, level: Level): seq<Output> {
    if appenders == [] then []
    else
      var a := appenders[|appenders| - 1];
      DefinedOutputs(appenders[..|appenders| - 1], pattern, level)
      + if level < a.level then []
        else [Output(a.kind, if a.kind == FILE then a.file else "",
                     if IsValidPattern(a.formatter) then Some(a.formatter) else pattern)]
  }

  lemma {:induction false} BuiltAppendersEmit(appenders: seq<AppenderDefine>, pattern: Option<string>, level: Level)
    ensures EmitEach(BuildAppenders(appenders, pattern), level) == DefinedOutputs(appenders, pattern, level)
  {
    if appenders != [] {
      var front, built := appenders[..|appenders| - 1], BuildAppenders(appenders, pattern);
      BuiltAppendersEmit(front, pattern, level);
      assert built[..|built| - 1] == BuildAppenders(front, pattern);
    }
  }

  /** What a defined logger with appenders writes is a function of its definition and of
      the last valid formatter alone. */
  lemma DefinedLoggersEmitAsDefined(m: Loggers, h: History, d: LogDefine, level: Level)
    requires IsHistory(h) && ROOT in m && d in Current(h) && d.appenders != []
    ensures d.name in Run(m, h) && ROOT in Run(m, h)
    ensures Emit(Run(m, h), d.name, level) ==
            if level < d.level then [] else DefinedOutputs(d.appenders, LastValidPattern(m, h, d.name), level)
  {
    EveryHistoryEndsAsDefined(m, h, d.name);
    EveryHistoryEndsAsDefined(m, h, ROOT);
    FindDefineIff(Current(h), d.name);
    BuiltAppendersEmit(d.appenders, LastValidPattern(m, h, d.name), level);
    hide EmitEach, DefinedOutputs, LastValidPattern, FindDefine;
  }

  // ------------------------------------------------------- the callback as written

  lemma {:induction false} UnchangedIffMember(oldDefs: seq<LogDefine>, d: LogDefine)
    requires Ascending(oldDefs)
    ensures FindDefine(oldDefs, d.name) == Found(d) <==> d in oldDefs
  {
    FindDefineIff(oldDefs, d.name);
  }

  /** The first loop as written. A null logger or appender is followed, and the loop
      does not get to its end, at an unchanged definition or at an appender of a type it
      cannot build. */
  function ApplyAsWritten(m: Loggers, oldDefs: seq<LogDefine>, defs: seq<LogDefine>): Reading<Loggers> {
    if defs == [] then Found(m)
    else
      var before, d := ApplyAsWritten(m, oldDefs, defs[..|defs| - 1]), defs[|defs| - 1];
      if !before.Found? || FindDefine(oldDefs, d.name) == Found(d) || !IsBuildable(d) then Thrown
      else
        var known := Ensure(before.value, d.name);
        Found(known[d.name := Configure(known[d.name], d)])
  }

  function AsWritten(m: Loggers, oldDefs: seq<LogDefine>, newDefs: seq<LogDefine>): Reading<Loggers> {
    var applied := ApplyAsWritten(m, oldDefs, newDefs);
    if applied.Found? then Found(SilenceRemoved(applied.value, oldDefs, newDefs)) else applied
  }

  lemma {:induction false} ApplyAsWrittenIff(m: Loggers, oldDefs: seq<LogDefine>, defs: seq<LogDefine>)
    requires Ascending(oldDefs)
    ensures ApplyAsWritten(m, oldDefs, defs) ==
            if Completes(oldDefs, defs) then Found(ApplyDefines(m, oldDefs, defs)) else Thrown
  {
    if defs != [] {
      var front, last := defs[..|defs| - 1], defs[|defs| - 1];
      assert defs == front + [last];
      ApplyAsWrittenIff(m, oldDefs, front);
      UnchangedIffMember(oldDefs, last);
      assert last in defs && forall d | d in front :: d in defs;
      hide Configure, IsBuildable, Ascending, FindDefine;
    }
  }

  /** The callback as written gets to its end exactly when no definition of the new set
      is also in the old one and every appender has a known type; then it does what the
      guarded reconciliation does. */
  lemma AsWrittenCompletesIff(m: Loggers, oldDefs: seq<LogDefine>, newDefs: seq<LogDefine>)
    requires Ascending(oldDefs)
    ensures AsWritten(m, oldDefs, newDefs).Found? <==> Completes(oldDefs, newDefs)
    ensures Completes(oldDefs, newDefs) ==> AsWritten(m, oldDefs, newDefs) == Found(Reconcile(m, oldDefs, newDefs))
  {
    ApplyAsWrittenIff(m, oldDefs, newDefs);
  }

  // ------------------------------------------ histories, under the code as written

  lemma NoChangeNoEffect(m: Loggers, defs: seq<LogDefine>)
    requires Ascending(defs)
    ensures Reconcile(m, defs, defs) == m
  {
    forall name ensures Get(Reconcile(m, defs, defs), name) == Get(m, name) {
      ReconcileByName(m, defs, defs, name);
    }
    hide Reconcile;
    var r := Reconcile(m, defs, defs);
    assert forall name :: name in r <==> Get(r, name).Found?;
    assert forall name :: name in m <==> Get(m, name).Found?;
    assert forall name | name in m :: Get(r, name) == Found(m[name]);
  }

  /** The callback as written, called as `setValue` does: only when the set has changed. */
  function RunAsWritten(m: Loggers, h: History): Reading<Loggers> {
    if h == [] then Found(m)
    else
      var front := h[..|h| - 1];
      var before := RunAsWritten(m, front);
      if !before.Found? || Current(h) == Current(front) then before
      else AsWritten(before.value, Current(front), Current(h))
  }

  ghost predicate EveryChangeCompletes(h: History) {
    h != [] ==>
      && EveryChangeCompletes(h[..|h| - 1])
      && (Current(h) != Current(h[..|h| - 1]) ==> Completes(Current(h[..|h| - 1]), Current(h)))
  }

  lemma AsWrittenOutcome(m: Loggers, oldDefs: seq<LogDefine>, newDefs: seq<LogDefine>)
    requires Ascending(oldDefs)
    ensures AsWritten(m, oldDefs, newDefs) ==
            if Completes(oldDefs, newDefs) then Found(Reconcile(m, oldDefs, newDefs)) else Thrown
  {
    ApplyAsWrittenIff(m, oldDefs, newDefs);
  }

  /** Over any sequence of values of the variable, the code as written survives if and only
      if every change completes, and then leaves the loggers just as the guarded callback:
      all that is proved about histories is then true of it. */
  lemma {:induction false} AsWrittenOverHistoriesIff(m: Loggers, h: History)
    requires forall s | s in h :: Ascending(s)
    ensures RunAsWritten(m, h) == if EveryChangeCompletes(h) then Found(Run(m, h)) else Thrown
  {
    if h != [] {
      var front := h[..|h| - 1];
      AsWrittenOverHistoriesIff(m, front);
      assert Current(h) in h && (front != [] ==> Current(front) in h);
      hide Reconcile, AsWritten, Completes, Ascending;
      if EveryChangeCompletes(front) {
        if Current(h) == Current(front) {
          NoChangeNoEffect(Run(m, front), Current(h));
        } else {
          AsWrittenOutcome(Run(m, front), Current(front), Current(h));
        }
      }
    }
  }
}
