/** `toYamlString` of appenders, loggers and the manager (chord/logger.cpp:366-386,
    413-430, 452-469, 887-898), and what loading the dump as configuration restores. */
module LoggerDump {
  import opened DefaultPattern
  import opened LogDefines
  import opened Options
  import opened Reconciliation
  import opened PatternLaws
  import opened Sequences
  import opened Yaml

  function OrNothing(pattern: Option<string>): string {
    if pattern.Some? then pattern.value else ""
  }

  function DumpAppender(a: AppenderState): Node {
    Object([Entry("type", Scalar(KindName(a.kind)))]
           + Field("file", a.file, a.kind == FILE)
           + Field("level", LevelToString(a.level), a.level != UNKNOWN)
           + Field("formatter", OrNothing(a.pattern), a.own && a.pattern.Some?))
  }

  function DumpAppenders(appenders: seq<AppenderState>): (r: seq<Node>)
    ensures |r| == |appenders|
  {
    seq(|appenders|, i requires 0 <= i < |appenders| => DumpAppender(appenders[i]))
  }

  function DumpLogger(name: string, l: LoggerState): Node {
    Mapping([Entry("name", Scalar(name))]
            + Field("level", LevelToString(l.level), l.level != UNKNOWN)
            + Field("formatter", OrNothing(l.pattern), l.pattern.Some?)
            + if l.appenders == [] then [] else [Entry("appenders", Sequence(DumpAppenders(l.appenders)))])
  }

  /** A `std::map` is iterated in ascending order of its keys. */
  ghost predicate InOrder(names: seq<string>) {
    forall i, j | 0 <= i < j < |names| :: Less(names[i], names[j])
  }

  ghost predicate ListsKeys<X>(names: seq<string>, m: map<string, X>) {
    InOrder(names) && forall n :: n in names <==> n in m
  }

  function DumpEach(m: Loggers, names: seq<string>): (r: seq<Node>)
    requires forall n | n in names :: n in m
    ensures |r| == |names|
  {
    if names == [] then []
    else
      var last := names[|names| - 1];
      DumpEach(m, names[..|names| - 1]) + [DumpLogger(last, m[last])]
  }

  /** The loggers of `m`, in the order of their names. */
  ghost predicate IsDump(node: Node, m: Loggers) {
    exists names :: ListsKeys(names, m) && node == Array(DumpEach(m, names))
  }

  lemma DumpInOrder(m: Loggers, names: seq<string>)
    requires ListsKeys(names, m)
    ensures IsDump(Array(DumpEach(m, names)), m)
  {}

  // ---------------------------------------------------------- reading it back

  predicate IsNamedLevel(level: Level) {
    UNKNOWN <= level <= FATAL
  }

  lemma LevelTextRoundTrip(level: Level)
    ensures LevelFromString(LevelToString(level)) == if IsNamedLevel(level) then level else UNKNOWN
  {}

  /** The definition a dumped appender reads as: its level is not read back, nor is a
      stdout appender's formatter. */
  function AppenderAsDefine(a: AppenderState): AppenderDefine {
    if a.kind == FILE then AppenderDefine(FILE, UNKNOWN, if a.own then OrNothing(a.pattern) else "", a.file)
    else AppenderDefine(STDOUT, UNKNOWN, "", "")
  }

  function AppendersAsDefines(appenders: seq<AppenderState>): (r: seq<AppenderDefine>)
    ensures |r| == |appenders|
  {
    seq(|appenders|, i requires 0 <= i < |appenders| => AppenderAsDefine(appenders[i]))
  }

  function LoggerAsDefine(name: string, l: LoggerState): LogDefine {
    LogDefine(name, if IsNamedLevel(l.level) then l.level else UNKNOWN,
              OrNothing(l.pattern), AppendersAsDefines(l.appenders))
  }

  function LoggersAsDefines(m: Loggers, names: seq<string>): (r: seq<LogDefine>)
    requires forall n | n in names :: n in m
    ensures |r| == |names|
  {
    if names == [] then []
    else
      var last := names[|names| - 1];
      LoggersAsDefines(m, names[..|names| - 1]) + [LoggerAsDefine(last, m[last])]
  }

  lemma AppenderReadsBack(a: AppenderState)
    ensures DecodeAppender(DumpAppender(a)) == Found(AppenderAsDefine(a))
  {
    var t, f := [Entry("type", Scalar(KindName(a.kind)))], Field("file", a.file, a.kind == FILE);
    var l, m := Field("level", LevelToString(a.level), a.level != UNKNOWN),
        Field("formatter", OrNothing(a.pattern), a.own && a.pattern.Some?);
    FindInDefine(t, f, l, m, "type");
    FindInDefine(t, f, l, m, "file");
    FindInDefine(t, f, l, m, "formatter");
  }

  lemma {:induction false} AppendersReadBack(appenders: seq<AppenderState>)
    ensures Collect(DecodeAppenders(DumpAppenders(appenders))) == Found(AppendersAsDefines(appenders))
  {
    if appenders != [] {
      var front, last := appenders[..|appenders| - 1], appenders[|appenders| - 1];
      AppendersReadBack(front);
      AppenderReadsBack(last);
      assert appenders == front + [last];
      AppendersSnoc(front, last);
      hide DecodeAppender, DumpAppender, AppenderAsDefine, DecodeAppenders, DumpAppenders, AppendersAsDefines;
      var rs := DecodeAppenders(DumpAppenders(front));
      assert (rs + [Reading.Found(AppenderAsDefine(last))])[..|rs|] == rs;
    }
  }

  lemma AppendersSnoc(front: seq<AppenderState>, last: AppenderState)
    ensures DecodeAppenders(DumpAppenders(front + [last])) ==
            DecodeAppenders(DumpAppenders(front)) + [DecodeAppender(DumpAppender(last))]
    ensures AppendersAsDefines(front + [last]) == AppendersAsDefines(front) + [AppenderAsDefine(last)]
  {
    hide DecodeAppender, DumpAppender, AppenderAsDefine;
  }

  lemma LoggerReadsBack(name: string, l: LoggerState)
    ensures DecodeDefine(DumpLogger(name, l)) == Found(LoggerAsDefine(name, l))
  {
    var n, v := [Entry("name", Scalar(name))], Field("level", LevelToString(l.level), l.level != UNKNOWN);
    var f := Field("formatter", OrNothing(l.pattern), l.pattern.Some?);
    var a := if l.appenders == [] then [] else [Entry("appenders", Sequence(DumpAppenders(l.appenders)))];
    hide DecodeAppenders, DumpAppenders, Collect, LevelToString, LevelFromString;
    FindInDefine(n, v, f, a, "name");
    FindInDefine(n, v, f, a, "level");
    FindInDefine(n, v, f, a, "formatter");
    FindInDefine(n, v, f, a, "appenders");
    AppendersReadBack(l.appenders);
    LevelTextRoundTrip(l.level);
    assert LevelFromString("") == UNKNOWN by { LevelOfNothing(); }
  }

  lemma LevelOfNothing()
    ensures LevelFromString("") == UNKNOWN
  {}

  lemma {:induction false} DefinesAt(m: Loggers, names: seq<string>)
    requires forall n | n in names :: n in m
    ensures forall i | 0 <= i < |names| :: LoggersAsDefines(m, names)[i] == LoggerAsDefine(names[i], m[names[i]])
  {
    if names != [] {
      DefinesAt(m, names[..|names| - 1]);
    }
  }

  lemma DefinesAscend(m: Loggers, names: seq<string>)
    requires InOrder(names) && forall n | n in names :: n in m
    ensures Ascending(LoggersAsDefines(m, names))
  {
    DefinesAt(m, names);
    hide LoggersAsDefines, Less;
  }

  lemma DefinesBelow(m: Loggers, names: seq<string>)
    requires names != [] && InOrder(names) && forall n | n in names :: n in m
    ensures forall d | d in LoggersAsDefines(m, names[..|names| - 1]) :: Less(d.name, names[|names| - 1])
  {
    DefinesAt(m, names[..|names| - 1]);
    hide LoggersAsDefines, Less;
  }

  lemma {:induction false} LoggersReadBack(m: Loggers, names: seq<string>)
    requires InOrder(names) && forall n | n in names :: n in m
    ensures DecodeItems(DumpEach(m, names)) == Found(LoggersAsDefines(m, names))
  {
    if names != [] {
      var front, last := names[..|names| - 1], names[|names| - 1];
      DumpUnfolds(m, names);
      DefinesBelow(m, names);
      hide DecodeDefine, DecodeItems, DumpLogger, Insert, DumpEach, LoggersAsDefines, Less;
      LoggersReadBack(m, front);
      LoggerReadsBack(last, m[last]);
      var defs, d := LoggersAsDefines(m, front), LoggerAsDefine(last, m[last]);
      DecodeSnoc(DumpEach(m, front), DumpLogger(last, m[last]), defs, d);
      InsertAtEnd(defs, d);
    }
  }

  lemma DumpUnfolds(m: Loggers, names: seq<string>)
    requires names != [] && forall n | n in names :: n in m
    ensures var last := names[|names| - 1];
            && DumpEach(m, names) == DumpEach(m, names[..|names| - 1]) + [DumpLogger(last, m[last])]
            && LoggersAsDefines(m, names) == LoggersAsDefines(m, names[..|names| - 1]) + [LoggerAsDefine(last, m[last])]
  {}

  // ------------------------------------------------------ dumping, then loading

  predicate HasValidPattern(pattern: Option<string>) {
    pattern.Some? && IsValidPattern(pattern.value)
  }

  /** Loggers as they come out of construction and configuration. */
  predicate IsRegular(l: LoggerState) {
    HasValidPattern(l.pattern) && forall a | a in l.appenders ::
      && (a.kind == FILE || a.kind == STDOUT)
      && (a.kind == STDOUT ==> a.file == "")
      && (if a.own then HasValidPattern(a.pattern) else a.pattern == l.pattern)
  }

  function RestoreAppender(a: AppenderState, pattern: Option<string>): AppenderState {
    var own := a.own && a.kind == FILE;
    AppenderState(a.kind, a.file, UNKNOWN, own, if own then a.pattern else pattern)
  }

  /** What survives of a logger. */
  function Restore(l: LoggerState): LoggerState {
    LoggerState(if IsNamedLevel(l.level) then l.level else UNKNOWN, l.pattern,
                seq(|l.appenders|, i requires 0 <= i < |l.appenders| => RestoreAppender(l.appenders[i], l.pattern)))
  }

  lemma RestoredByConfigure(name: string, l: LoggerState, into: LoggerState)
    requires IsRegular(l)
    ensures Configure(into, LoggerAsDefine(name, l)) == Restore(l)
  {
    var d := LoggerAsDefine(name, l);
    forall i | 0 <= i < |l.appenders|
      ensures BuildAppender(d.appenders[i], l.pattern) == RestoreAppender(l.appenders[i], l.pattern)
    {
      assert l.appenders[i] in l.appenders;
      hide Compile;
    }
    assert BuildAppenders(d.appenders, l.pattern) == Restore(l).appenders;
  }

  lemma FindDumped(m: Loggers, names: seq<string>, name: string)
    requires ListsKeys(names, m) && name in m
    ensures var defs := LoggersAsDefines(m, names);
            Ascending(defs) && FindDefine(defs, name) == Found(LoggerAsDefine(name, m[name]))
  {
    DefinesAt(m, names);
    DefinesAscend(m, names);
    var defs := LoggersAsDefines(m, names);
    var i :| 0 <= i < |names| && names[i] == name;
    assert defs[i] == LoggerAsDefine(name, m[name]) && defs[i] in defs;
    FindDefineIff(defs, name);
    hide FindDefine, LoggersAsDefines, Less;
  }

  lemma DumpReadsBack(m: Loggers, names: seq<string>)
    requires ListsKeys(names, m)
    ensures Decode(Array(DumpEach(m, names))) == Found(LoggersAsDefines(m, names))
  {
    LoggersReadBack(m, names);
    hide DecodeItems, LoggersAsDefines;
    if DumpEach(m, names) == [] { assert Items(Null) == Some([]); }
  }

  lemma DumpedAreBuildable(m: Loggers, names: seq<string>)
    requires forall n | n in names :: n in m
    ensures Completes([], LoggersAsDefines(m, names))
  {
    DefinesAt(m, names);
    hide LoggersAsDefines;
  }

  /** Loading the dump of any regular loggers into any process that has loaded nothing
      yet completes, and gives every one of them its level, formatter and appenders back,
      except that appender levels, formatters of stdout appenders and levels without a
      name are lost. */
  lemma DumpThenLoad(m: Loggers, dump: Node, into: Loggers, name: string)
    requires IsDump(dump, m) && name in m && IsRegular(m[name])
    ensures var defs := Decode(dump);
            && defs.Found? && Ascending(defs.value)
            && AsWritten(into, [], defs.value) == Found(Reconcile(into, [], defs.value))
            && Get(Reconcile(into, [], defs.value), name) == Found(Restore(m[name]))
  {
    var names :| ListsKeys(names, m) && dump == Array(DumpEach(m, names));
    DumpReadsBack(m, names);
    FindDumped(m, names, name);
    NothingFound(name);
    DumpedAreBuildable(m, names);
    AsWrittenCompletesIff(into, [], LoggersAsDefines(m, names));
    hide IsBuildable, AsWritten, IsRegular, Configure, Restore, LoggerAsDefine, Reconcile, Decode, DumpEach,
        LoggersAsDefines, FindDefine, Less;
    ReconcileByName(into, [], LoggersAsDefines(m, names), name);
    RestoredByConfigure(name, m[name], if name in into then into[name] else NEW_LOGGER);
  }

  lemma NothingFound(name: string)
    ensures FindDefine([], name) == Absent
  {}

  /** A logger comes back exactly as it was if and only if its level has a name and its
      appenders have no level, and no formatter unless they write to files. */
  lemma RestoresExactlyIff(l: LoggerState)
    requires IsRegular(l)
    ensures Restore(l) == l <==>
            IsNamedLevel(l.level) && forall a | a in l.appenders :: a.level == UNKNOWN && (a.own ==> a.kind == FILE)
  {
    hide Compile;
    forall i | 0 <= i < |l.appenders|
      ensures var a := l.appenders[i];
              Restore(l).appenders[i] == a <==> a.level == UNKNOWN && (a.own ==> a.kind == FILE)
    {
      assert l.appenders[i] in l.appenders;
    }
    if forall a | a in l.appenders :: a.level == UNKNOWN && (a.own ==> a.kind == FILE) {
      assert Restore(l).appenders == l.appenders;
    } else {
      var a :| a in l.appenders && !(a.level == UNKNOWN && (a.own ==> a.kind == FILE));
      var i :| 0 <= i < |l.appenders| && l.appenders[i] == a;
      assert Restore(l).appenders[i] != l.appenders[i];
    }
  }

  ghost predicate AllRegular(m: Loggers) {
    forall n | n in m :: IsRegular(m[n])
  }

  lemma ConfiguredIsRegular(l: LoggerState, d: LogDefine)
    requires HasValidPattern(l.pattern) && IsBuildable(d)
    ensures IsRegular(Configure(l, d))
  {
    hide Compile;
    var c := Configure(l, d);
    forall a | a in c.appenders
      ensures a.kind == FILE || a.kind == STDOUT
      ensures a.kind == STDOUT ==> a.file == ""
      ensures if a.own then HasValidPattern(a.pattern) else a.pattern == c.pattern
    {
      var i :| 0 <= i < |c.appenders| && c.appenders[i] == a;
      assert d.appenders[i] in d.appenders;
    }
  }

  lemma NewLoggerIsRegular()
    ensures IsRegular(NEW_LOGGER)
  {
    DefaultPatternIsValid();
    hide Compile;
  }

  lemma AfterIsRegular(m: Loggers, oldDefs: seq<LogDefine>, newDefs: seq<LogDefine>, name: string)
    requires AllRegular(m) && AllBuildable(newDefs)
    ensures var r := After(m, oldDefs, newDefs, name); r.Found? ==> IsRegular(r.value)
  {
    hide Compile;
    NewLoggerIsRegular();
    FindDefineIff(newDefs, name);
    var base := if name in m then m[name] else NEW_LOGGER;
    var found := FindDefine(newDefs, name);
    if found.Found? { ConfiguredIsRegular(base, found.value); }
    hide Configure, FindDefine, IsValidPattern, IsBuildable, Compile;
  }

  /** Every change keeps all loggers regular, so what is proved about dumps holds after
      every sequence of changes. */
  lemma {:induction false} EveryHistoryStaysRegular(m: Loggers, h: History)
    requires AllRegular(m) && IsHistory(h)
    ensures AllRegular(Run(m, h))
  {
    if h != [] {
      var front, last := h[..|h| - 1], h[|h| - 1];
      EveryHistoryStaysRegular(m, front);
      assert last in h && (front != [] ==> Current(front) in h);
      var before := Run(m, front);
      hide IsRegular, After, Reconcile, AllBuildable, Ascending;
      forall n | n in Run(m, h) ensures IsRegular(Run(m, h)[n]) {
        ReconcileByName(before, Current(front), last, n);
        AfterIsRegular(before, Current(front), last, n);
      }
    }
  }

  lemma InitialIsRegular()
    ensures AllRegular(INITIAL)
  {
    DefaultPatternIsValid();
    hide Compile;
  }

  /** A process configured by any sequence of changes, dumped and loaded into another:
      what each logger comes back as. */
  lemma AnyHistoryDumpsAndLoads(h: History, dump: Node, into: Loggers, name: string)
    requires IsHistory(h)
    requires IsDump(dump, Run(INITIAL, h)) && name in Run(INITIAL, h)
    ensures var l, defs := Run(INITIAL, h)[name], Decode(dump);
            && IsRegular(l)
            && defs.Found? && Ascending(defs.value)
            && AsWritten(into, [], defs.value) == Found(Reconcile(into, [], defs.value))
            && Get(Reconcile(into, [], defs.value), name) == Found(Restore(l))
  {
    InitialIsRegular();
    EveryHistoryStaysRegular(INITIAL, h);
    DumpThenLoad(Run(INITIAL, h), dump, into, name);
  }
}
