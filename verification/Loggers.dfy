/** Appenders, loggers and their manager as objects (chord/log.h:120-219,
    chord/logger.cpp:54-71, 249-343, 632-653, 815-884). */
module Loggers {
  import opened Options
  import opened DefaultPattern
  import opened LogDefines
  import opened LogFormatters
  import opened PatternLaws
  import opened Reconciliation
  import opened FormatterInheritance
  import opened LoggerDump
  import opened Yaml

  /** Any loggers and appenders whose formatters one wants to follow. */
  datatype Universe = Universe(loggers: set<Logger>, appenders: set<LogAppender>)

  function ToOption(x: LogFormatter?): Option<LogFormatter> {
    if x == null then None else
      var f: LogFormatter := x;
      Some(f)
  }

  ghost function View(u: Universe): World<Logger, LogAppender, LogFormatter>
    reads u.loggers, u.appenders
  {
    World(map l | l in u.loggers :: LoggerView(ToOption(l.m_formatter), l.m_appenders),
          map a | a in u.appenders :: AppenderView(ToOption(a.m_formatter), a.m_hasFormatter))
  }

  function PatternOf(f: LogFormatter?): Option<string> {
    if f == null then None else Some(f.m_pattern)
  }

  /** `m_kind` says which of the two subclasses the object belongs to. */
  class LogAppender {
    const m_kind: int
    const m_filename: string
    var m_formatter: LogFormatter?
    var m_level: Level
    var m_hasFormatter: bool

    constructor (kind: int, filename: string)
      ensures m_kind == kind && m_filename == filename && m_level == DEBUG
      ensures m_formatter == null && !m_hasFormatter
    {
      m_kind, m_filename, m_formatter, m_level, m_hasFormatter := kind, filename, null, DEBUG, false;
    }

    method SetFormatter(val: LogFormatter?, ghost u: Universe := Universe({}, {}))
      modifies this`m_formatter, this`m_hasFormatter
      ensures m_formatter == val && m_hasFormatter == (val != null)
      ensures this in u.appenders ==> View(u) == Step(old(View(u)), SetAppenderFormatter(this, ToOption(val)))
    {
      m_formatter := val;
      if m_formatter != null {
        m_hasFormatter := true;
      } else {
        m_hasFormatter := false;
      }
    }

    function GetFormatter(): LogFormatter? reads this { m_formatter }

    method SetLevel(level: Level)
      modifies this`m_level
      ensures m_level == level
    {
      m_level := level;
    }

    ghost function Value(): AppenderState
      reads this
    {
      AppenderState(m_kind, m_filename, m_level, m_hasFormatter, PatternOf(m_formatter))
    }

    /** Follows the formatter pointer when the level admits the event. */
    method Log(level: Level) returns (out: seq<Output>)
      requires level >= m_level ==> m_formatter != null
      ensures out == EmitEach([Value()], level)
    {
      out := if level >= m_level then [Output(m_kind, m_filename, Some(m_formatter.m_pattern))] else [];
      assert EmitEach([], level) == [];
    }

    method ToYaml() returns (node: Node)
      requires m_kind == FILE || m_kind == STDOUT
      ensures node == DumpAppender(Value())
    {
      var fields := [Entry("type", Scalar(KindName(m_kind)))];
      if m_kind == FILE {
        fields := fields + [Entry("file", Scalar(m_filename))];
      }
      if m_level != UNKNOWN {
        fields := fields + [Entry("level", Scalar(LevelToString(m_level)))];
      }
      if m_hasFormatter && m_formatter != null {
        fields := fields + [Entry("formatter", Scalar(m_formatter.GetPattern()))];
      }
      node := Mapping(fields);
    }
  }

  lemma {:induction false} RemoveFirstAt<A>(s: seq<A>, a: A, i: nat)
    requires i < |s| && s[i] == a && a !in s[..i]
    ensures RemoveFirst(s, a) == s[..i] + s[i + 1..]
  {
    if i > 0 {
      assert s[0] == s[..i][0];
      assert s[1..][..i - 1] == s[..i][1..];
      RemoveFirstAt(s[1..], a, i - 1);
    }
  }

  ghost function States(s: seq<LogAppender>): (r: seq<AppenderState>)
    reads s
    ensures |r| == |s|
  {
    if s == [] then [] else States(s[..|s| - 1]) + [s[|s| - 1].Value()]
  }

  lemma {:induction false} StatesAt(s: seq<LogAppender>, i: nat)
    requires i < |s|
    ensures States(s)[i] == s[i].Value()
  {
    if i < |s| - 1 { StatesAt(s[..|s| - 1], i); }
  }

  lemma BuildSnoc(appenders: seq<AppenderDefine>, i: nat, pattern: Option<string>)
    requires i < |appenders|
    ensures BuildAppenders(appenders[..i + 1], pattern) ==
            BuildAppenders(appenders[..i], pattern) + [BuildAppender(appenders[i], pattern)]
  {}

  class Logger {
    const m_name: string
    const m_root: Logger?
    var m_level: Level
    var m_formatter: LogFormatter?
    var m_appenders: seq<LogAppender>

    /** The source assigns `m_root` right after construction, in `getLogger`. */
    constructor (name: string, root: Logger?)
      ensures m_name == name && m_root == root && m_appenders == [] && m_level == DEBUG
      ensures m_formatter != null && fresh(m_formatter) && m_formatter.m_pattern == DEFAULT_PATTERN
    {
      m_name, m_root, m_level, m_appenders := name, root, DEBUG, [];
      m_formatter := new LogFormatter(DEFAULT_PATTERN);
    }

    ghost function Value(): LoggerState
      reads this, m_appenders
    {
      LoggerState(m_level, PatternOf(m_formatter), States(m_appenders))
    }

    /** The appenders that would write an event of this level hold a formatter. */
    ghost predicate CanWrite(level: Level)
      reads this, m_appenders
    {
      forall a | a in m_appenders && level >= a.m_level :: a.m_formatter != null
    }

    method SetLevel(level: Level)
      modifies this`m_level
      ensures m_level == level
    {
      m_level := level;
    }

    method SetFormatter(val: LogFormatter?, ghost u: Universe := Universe({}, {}))
      modifies this`m_formatter, m_appenders`m_formatter
      ensures m_formatter == val
      ensures forall a | a in m_appenders :: a.m_formatter == if a.m_hasFormatter then old(a.m_formatter) else val
      ensures this in u.loggers ==>
              View(u) == Step(old(View(u)), FormatterInheritance.SetFormatter(this, ToOption(val)))
    {
      m_formatter := val;
      for i := 0 to |m_appenders|
        invariant m_formatter == val
        invariant forall a | a in m_appenders ::
            a.m_formatter == if a in m_appenders[..i] && !a.m_hasFormatter then val else old(a.m_formatter)
      {
        assert m_appenders[..i + 1] == m_appenders[..i] + [m_appenders[i]];
        if !m_appenders[i].m_hasFormatter {
          m_appenders[i].m_formatter := m_formatter;
        }
      }
      assert m_appenders[..|m_appenders|] == m_appenders;
    }

    /** The overload that takes a pattern: an invalid one changes nothing. */
    method SetPattern(val: string)
      modifies this`m_formatter, m_appenders`m_formatter
      ensures if Compile(val).error then m_formatter == old(m_formatter)
              else m_formatter != null && fresh(m_formatter) && m_formatter.m_pattern == val
      ensures forall a | a in m_appenders ::
                a.m_formatter == if Compile(val).error || a.m_hasFormatter then old(a.m_formatter) else m_formatter
    {
      var formatter := new LogFormatter(val);
      if formatter.IsError() {
        return;
      }
      SetFormatter(formatter);
    }

    method AddAppender(appender: LogAppender, ghost u: Universe := Universe({}, {}))
      modifies this`m_appenders, appender`m_formatter
      ensures m_appenders == old(m_appenders) + [appender]
      ensures appender.m_formatter ==
              if old(appender.m_formatter) == null then m_formatter else old(appender.m_formatter)
      ensures this in u.loggers && appender in u.appenders ==>
                View(u) == Step(old(View(u)), FormatterInheritance.AddAppender(this, appender))
    {
      if appender.GetFormatter() == null {
        appender.m_formatter := m_formatter;
      }
      m_appenders := m_appenders + [appender];
    }

    method ClearAppenders(ghost u: Universe := Universe({}, {}))
      modifies this`m_appenders
      ensures m_appenders == []
      ensures this in u.loggers ==> View(u) == Step(old(View(u)), FormatterInheritance.ClearAppenders(this))
    {
      m_appenders := [];
    }

    method DelAppender(appender: LogAppender, ghost u: Universe := Universe({}, {}))
      modifies this`m_appenders
      ensures m_appenders == RemoveFirst(old(m_appenders), appender)
      ensures this in u.loggers && appender in u.appenders ==>
                View(u) == Step(old(View(u)), FormatterInheritance.DelAppender(this, appender))
    {
      for i := 0 to |m_appenders|
        invariant m_appenders == old(m_appenders) && appender !in m_appenders[..i]
      {
        if m_appenders[i] == appender {
          RemoveFirstAt(m_appenders, appender, i);
          m_appenders := m_appenders[..i] + m_appenders[i + 1..];
          break;
        }
      }
    }

    /** What `log` writes: to the appenders here, or to root's when there are none. */
    ghost function Emitted(level: Level): seq<Output>
      reads this, m_appenders
      reads if m_root == null then {} else {m_root}, if m_root == null then [] else m_root.m_appenders
    {
      if level < m_level then []
      else if m_appenders != [] then EmitEach(Value().appenders, level)
      else if m_root == null || level < m_root.m_level then []
      else EmitEach(m_root.Value().appenders, level)
    }

    method LogEach(level: Level) returns (out: seq<Output>)
      requires CanWrite(level)
      ensures out == EmitEach(States(m_appenders), level)
    {
      out := [];
      hide EmitEach, LogAppender.Value;
      assert EmitEach([], level) == [] by { EmitNothing(level); }
      for i := 0 to |m_appenders|
        invariant out == EmitEach(States(m_appenders[..i]), level)
      {
        var line := m_appenders[i].Log(level);
        assert m_appenders[..i + 1][..i] == m_appenders[..i];
        EmitSnoc(States(m_appenders[..i]), m_appenders[i].Value(), level);
        out := out + line;
      }
      assert m_appenders[..|m_appenders|] == m_appenders;
    }

    method Log(level: Level) returns (out: seq<Output>)
      requires CanWrite(level) && (m_root != null ==> m_root.m_root == null && m_root.CanWrite(level))
      ensures out == Emitted(level)
      decreases if m_root == null then 0 else 1
    {
      out := [];
      if level >= m_level {
        if m_appenders != [] {
          out := LogEach(level);
        } else if m_root != null {
          out := m_root.Log(level);
        }
      }
    }

    /** The body of the callback's inner loop up to the attachment. */
    method BuildOne(a: AppenderDefine) returns (ap: LogAppender?)
      ensures ap == null <==> a.kind != FILE && a.kind != STDOUT
      ensures ap != null ==>
        && fresh(ap) && ap.m_kind == a.kind && ap.m_filename == (if a.kind == FILE then a.file else "")
        && ap.m_level == a.level && ap.m_hasFormatter == IsValidPattern(a.formatter)
        && (if ap.m_hasFormatter then ap.m_formatter != null && ap.m_formatter.m_pattern == a.formatter
            else ap.m_formatter == null)
    {
      if a.kind == FILE {
        ap := new LogAppender(FILE, a.file);
      } else if a.kind == STDOUT {
        ap := new LogAppender(STDOUT, "");
      } else {
        return null;
      }
      ap.SetLevel(a.level);
      if a.formatter != "" {
        var fmt := new LogFormatter(a.formatter);
        if !fmt.IsError() {
          ap.SetFormatter(fmt);
        }
      }
    }

    method DumpItems() returns (items: seq<Node>)
      requires forall a | a in m_appenders :: a.m_kind == FILE || a.m_kind == STDOUT
      ensures items == DumpAppenders(States(m_appenders))
    {
      hide DumpAppender, LogAppender.Value;
      items := [];
      for i := 0 to |m_appenders|
        invariant items == DumpAppenders(States(m_appenders))[..i]
      {
        StatesAt(m_appenders, i);
        var item := m_appenders[i].ToYaml();
        items := items + [item];
      }
    }

    method ToYaml() returns (node: Node)
      requires forall a | a in m_appenders :: a.m_kind == FILE || a.m_kind == STDOUT
      ensures node == DumpLogger(m_name, Value())
    {
      var items := DumpItems();
      var fields := [Entry("name", Scalar(m_name))];
      if m_level != UNKNOWN {
        fields := fields + [Entry("level", Scalar(LevelToString(m_level)))];
      }
      if m_formatter != null {
        fields := fields + [Entry("formatter", Scalar(m_formatter.GetPattern()))];
      }
      if items != [] {
        fields := fields + [Entry("appenders", Sequence(items))];
      }
      node := Mapping(fields);
    }

    method BuildAndAdd(a: AppenderDefine) returns (ok: bool)
      modifies this`m_appenders
      ensures ok <==> a.kind == FILE || a.kind == STDOUT
      ensures ok ==>
                var v := old(Value());
                Value() == v.(appenders := v.appenders + [BuildAppender(a, PatternOf(m_formatter))])
      ensures ok ==> m_appenders != [] && m_appenders == old(m_appenders) + [m_appenders[|m_appenders| - 1]]
      ensures ok ==> fresh(m_appenders[|m_appenders| - 1])
      ensures !ok ==> m_appenders == old(m_appenders)
    {
      var ap := BuildOne(a);
      if ap == null { return false; }
      AddAppender(ap);
      assert ap.Value() == BuildAppender(a, PatternOf(m_formatter));
      assert m_appenders[..|m_appenders| - 1] == old(m_appenders);
      ok := true;
    }

    method AddEach(appenders: seq<AppenderDefine>) returns (ok: bool)
      requires m_appenders == []
      modifies this`m_appenders
      ensures ok <==> forall a | a in appenders :: a.kind == FILE || a.kind == STDOUT
      ensures ok ==>
                var pattern := PatternOf(m_formatter);
                Value() == LoggerState(m_level, pattern, BuildAppenders(appenders, pattern))
      ensures forall a | a in m_appenders :: fresh(a)
    {
      ghost var level, pattern := m_level, PatternOf(m_formatter);
      assert Value() == LoggerState(level, pattern, BuildAppenders(appenders[..0], pattern));
      hide Logger.Value, BuildAppender, BuildAppenders;
      for i := 0 to |appenders|
        invariant Value() == LoggerState(level, pattern, BuildAppenders(appenders[..i], pattern))
        invariant m_level == level && PatternOf(m_formatter) == pattern
        invariant forall a | a in m_appenders :: fresh(a)
        invariant forall k | 0 <= k < i :: appenders[k].kind == FILE || appenders[k].kind == STDOUT
      {
        ok := BuildAndAdd(appenders[i]);
        if !ok { return; }
        BuildSnoc(appenders, i, pattern);
      }
      assert appenders[..|appenders|] == appenders;
      ok := true;
    }

    /** The part of the callback that brings one logger to its definition. It fails where
        the source follows a null appender. What it replaced keeps its formatter, except
        that a valid pattern reaches the appenders without their own before they go. */
    method Reconfigure(d: LogDefine) returns (ok: bool)
      modifies this`m_level, this`m_formatter, this`m_appenders, m_appenders`m_formatter
      ensures ok == IsBuildable(d)
      ensures ok ==> Value() == Configure(old(Value()), d)
      ensures forall a | a in m_appenders :: fresh(a)
      ensures if IsValidPattern(d.formatter) then m_formatter != null && fresh(m_formatter)
              else m_formatter == old(m_formatter)
      ensures forall a | a in old(m_appenders) ::
                a.m_formatter ==
                if IsValidPattern(d.formatter) && !a.m_hasFormatter then m_formatter else old(a.m_formatter)
    {
      SetLevel(d.level);
      if d.formatter != "" {
        SetPattern(d.formatter);
      }
      ghost var replaced := m_appenders;
      assert replaced == old(m_appenders);
      ClearAppenders();
      ok := AddEach(d.appenders);
    }
  }

  lemma EmitNothing(level: Level)
    ensures EmitEach([], level) == []
  {}

  lemma EmitSnoc(states: seq<AppenderState>, a: AppenderState, level: Level)
    ensures EmitEach(states + [a], level) == EmitEach(states, level) + EmitEach([a], level)
  {
    assert (states + [a])[..|states|] == states && EmitEach([], level) == [];
  }

  lemma ValuesOfUpdate<V>(m: map<string, V>, k: string, v: V)
    requires k !in m
    ensures m[k := v].Values == m.Values + {v}
  {
    forall x | x in m.Values ensures x in m[k := v].Values {
      var n :| n in m && m[n] == x;
      assert m[k := v][n] == x;
    }
    assert m[k := v][k] == v;
  }

  lemma OneState(ap: LogAppender)
    ensures States([ap]) == [ap.Value()]
  {}

  twostate lemma Untouched(l: Logger)
    requires unchanged(l) && forall a | a in old(l.m_appenders) :: unchanged(a)
    ensures l.Value() == old(l.Value())
  {
    StatesUntouched(l.m_appenders);
  }

  twostate lemma {:induction false} StatesUntouched(s: seq<LogAppender>)
    requires forall a | a in s :: unchanged(a)
    ensures States(s) == old(States(s))
  {
    if s != [] {
      var front, last := s[..|s| - 1], s[|s| - 1];
      assert last in s && forall a | a in front :: a in s;
      assert last.Value() == old(last.Value());
      StatesUntouched(front);
    }
  }

  class LoggerManager {
    var m_logger: map<string, Logger>
    const m_root: Logger

    ghost function Attached(): set<LogAppender>
      reads this, m_logger.Values
    {
      set l, a | l in m_logger.Values && a in l.m_appenders :: a
    }

    /** Loggers are kept under their own names, and all but root fall back to root. */
    ghost predicate Valid()
      reads this
    {
      && ROOT in m_logger && m_logger[ROOT] == m_root
      && forall n | n in m_logger :: m_logger[n].m_name == n && m_logger[n].m_root == if n == ROOT then null else m_root
    }

    /** No appender is attached to two loggers. Reconfiguration keeps it so, but
        `addAppender` does not ask for it. */
    ghost predicate Unshared()
      reads this, m_logger.Values
    {
      forall n, k | n in m_logger && k in m_logger && n != k ::
        forall a | a in m_logger[n].m_appenders :: a !in m_logger[k].m_appenders
    }

    /** The appenders attached to each logger. */
    ghost function Holders(): map<string, seq<LogAppender>>
      reads this, m_logger.Values
    {
      map n | n in m_logger :: m_logger[n].m_appenders
    }

    ghost function StateOf(n: string): LoggerState
      requires n in m_logger
      reads this, m_logger.Values, Attached()
    {
      assert m_logger[n] in m_logger.Values && forall a | a in m_logger[n].m_appenders :: a in Attached();
      m_logger[n].Value()
    }

    ghost function View(): Loggers
      reads this, m_logger.Values, Attached()
    {
      map n | n in m_logger :: StateOf(n)
    }

    constructor ()
      ensures Valid() && Unshared() && fresh(m_logger.Values) && fresh(Attached())
      ensures View() == INITIAL
    {
      hide LoggerManager.View, Unshared, LoggerManager.Attached;
      var root := new Logger(ROOT, null);
      var ap := new LogAppender(STDOUT, "");
      root.AddAppender(ap);
      m_root := root;
      m_logger := map[ROOT := root];
      new;
      RootAlone(root, ap);
    }

    lemma RootAlone(root: Logger, ap: LogAppender)
      requires m_logger == map[ROOT := root] && root.m_appenders == [ap] && root.m_level == DEBUG
      requires root.m_formatter != null && root.m_formatter.m_pattern == DEFAULT_PATTERN
      requires ap.m_formatter == root.m_formatter
      requires ap.m_kind == STDOUT && ap.m_filename == "" && ap.m_level == DEBUG && !ap.m_hasFormatter
      ensures Unshared() && m_logger.Values == {root} && Attached() == {ap} && View() == INITIAL
    {
      OneState(ap);
      assert m_logger[ROOT] == root && root in m_logger.Values && ap in root.m_appenders;
      assert ap in Attached() && forall a | a in Attached() :: a == ap;
      hide States;
      assert StateOf(ROOT) == INITIAL[ROOT];
    }

    /** A logger's state; what one that is not there yet will start from. */
    ghost function ValueOf(n: string): LoggerState
      reads this, m_logger.Values, Attached()
    {
      if n in m_logger then StateOf(n) else NEW_LOGGER
    }

    /** Two loggers share no appender. */
    ghost predicate IsClearOf(n: string, k: string)
      reads this, m_logger.Values
    {
      n in m_logger && k in m_logger ==>
        assert m_logger[n] in m_logger.Values && m_logger[k] in m_logger.Values;
        forall a | a in m_logger[n].m_appenders :: a !in m_logger[k].m_appenders
    }

    twostate predicate ValuesKept()
      reads *
    {
      forall n :: ValueOf(n) == old(ValueOf(n))
    }

    method GetLogger(name: string) returns (logger: Logger)
      requires Valid()
      modifies this`m_logger
      ensures Valid() && name in m_logger && logger == m_logger[name] && m_logger == old(m_logger)[name := logger]
      ensures View() == Ensure(old(View()), name)
      ensures if name in old(m_logger) then logger == old(m_logger[name])
              else fresh(logger) && logger.m_appenders == []
      ensures ValuesKept() && (forall n | n != name && old(IsClearOf(n, name)) :: IsClearOf(n, name))
      ensures Attached() == old(Attached()) && (old(Unshared()) ==> Unshared())
    {
      if name in m_logger {
        return m_logger[name];
      }
      logger := new Logger(name, m_root);
      m_logger := m_logger[name := logger];
      assert logger.Value() == NEW_LOGGER;
      OneChanged(name, logger);
      EmptyOneAdded(name, logger);
      ViewedKept(name);
      hide LoggerManager.View, Unshared, LoggerManager.Attached, ValuesKept, IsClearOf;
    }

    /** A new logger without appenders shares none. */
    twostate lemma EmptyOneAdded(new name: string, new logger: Logger)
      requires name !in old(m_logger) && m_logger == old(m_logger)[name := logger] && logger.m_appenders == []
      requires forall n | n in old(m_logger) :: unchanged(m_logger[n])
      ensures Attached() == old(Attached()) && (old(Unshared()) ==> Unshared())
      ensures forall n | n != name && old(IsClearOf(n, name)) :: IsClearOf(n, name)
    {
      ValuesOfUpdate(old(m_logger), name, logger);
      assert forall n | n in old(m_logger) :: m_logger[n] == old(m_logger[n]) && m_logger[n] in old(m_logger.Values);
      forall l | l in old(m_logger.Values) ensures l.m_appenders == old(l.m_appenders) {
        var n :| n in old(m_logger) && old(m_logger[n]) == l;
        assert unchanged(m_logger[n]);
      }
    }

    twostate lemma ViewedKept(new name: string)
      requires View() == Ensure(old(View()), name)
      ensures ValuesKept()
    {
      forall n ensures ValueOf(n) == old(ValueOf(n)) {
        assert n in View() ==> View()[n] == ValueOf(n);
        assert n in old(View()) ==> old(View())[n] == old(ValueOf(n));
      }
    }

    /** The loggers but one, and what is attached to them, are as before. */
    twostate predicate OthersSame(new name: string)
      requires m_logger.Keys >= old(m_logger.Keys)
      reads *
    {
      forall n | n in old(m_logger) && n != name ::
        && m_logger[n] == old(m_logger[n]) && unchanged(m_logger[n])
        && forall a | a in old(m_logger[n].m_appenders) :: unchanged(a)
    }

    /** Then only the state of that one differs. */
    twostate lemma OneChanged(new name: string, new logger: Logger)
      requires m_logger == old(m_logger)[name := logger] && OthersSame(name)
      ensures View() == old(View())[name := logger.Value()]
    {
      hide Logger.Value;
      forall n | n in m_logger && n != name ensures StateOf(n) == old(StateOf(n)) {
        assert m_logger[n] == old(m_logger[n]) && unchanged(m_logger[n]);
        Untouched(m_logger[n]);
      }
    }

    /** Loggers and appenders are the old ones or new ones. */
    twostate predicate Grown()
      reads this, m_logger.Values
    {
      && (forall n | n in old(m_logger) :: n in m_logger && m_logger[n] == old(m_logger[n]))
      && (forall n | n in m_logger && n !in old(m_logger) :: fresh(m_logger[n]))
      && (forall a | a in Attached() :: a in old(Attached()) || fresh(a))
    }

    /** The logger itself, its appenders aside, is as before. */
    twostate predicate SameLogger(new n: string)
      reads *
    {
      && n in old(m_logger) && n in m_logger && m_logger[n] == old(m_logger[n])
      && m_logger[n].m_level == old(m_logger[n].m_level)
      && m_logger[n].m_formatter == old(m_logger[n].m_formatter)
      && m_logger[n].m_appenders == old(m_logger[n].m_appenders)
    }

    /** An appender holds what it held, or has been given a formatter made since. */
    twostate predicate AppenderAfter(a: LogAppender, new given: bool)
      reads *
    {
      && a.m_hasFormatter == old(a.m_hasFormatter)
      && if given then a.m_formatter != null && fresh(a.m_formatter) else a.m_formatter == old(a.m_formatter)
    }

    method ConfigureKnown(d: LogDefine) returns (ok: bool)
      requires Valid() && d.name in m_logger
      modifies m_logger[d.name], m_logger[d.name].m_appenders
      ensures ok == IsBuildable(d)
      ensures ok ==> ValueOf(d.name) == Configure(old(ValueOf(d.name)), d)
      ensures forall n | n != d.name && old(IsClearOf(n, d.name)) :: ValueOf(n) == old(ValueOf(n))
      ensures forall a | a in m_logger[d.name].m_appenders :: fresh(a)
      ensures forall a | a in old(m_logger[d.name].m_appenders) ::
                AppenderAfter(a, !old(a.m_hasFormatter) && IsValidPattern(d.formatter))
      ensures ok && old(Unshared()) ==> Unshared() && View() == old(View())[d.name := Configure(old(View())[d.name], d)]
    {
      hide Logger.Value, Configure, IsBuildable, Silence, IsValidPattern;
      var logger := m_logger[d.name];
      ok := logger.Reconfigure(d);
      forall n | n != d.name && old(IsClearOf(n, d.name)) ensures ValueOf(n) == old(ValueOf(n)) {
        if n in m_logger { Untouched(m_logger[n]); }
      }
      if ok && old(Unshared()) {
        assert OthersSame(d.name);
        OneChanged(d.name, logger);
      }
    }

    method Define(d: LogDefine) returns (ok: bool)
      requires Valid()
      modifies this`m_logger, m_logger.Values, Attached()
      ensures ok == IsBuildable(d)
      ensures Valid() && Grown() && d.name in m_logger && m_logger.Keys == old(m_logger.Keys) + {d.name}
      ensures forall a | a in m_logger[d.name].m_appenders :: fresh(a)
      ensures forall n | n in old(m_logger) && n != d.name :: SameLogger(n)
      ensures forall a | a in old(Attached()) :: AppenderAfter(a, Reaches(d, old(Holders()), a, old(a.m_hasFormatter)))
      ensures ok ==> ValueOf(d.name) == Configure(old(ValueOf(d.name)), d)
      ensures forall n | n != d.name && old(IsClearOf(n, d.name)) :: ValueOf(n) == old(ValueOf(n))
      ensures ok && old(Unshared()) ==>
                && Unshared()
                && var known := Ensure(old(View()), d.name);
                   View() == known[d.name := Configure(known[d.name], d)]
    {
      hide Logger.Value, Configure, IsBuildable, Silence, IsValidPattern, Unshared, LoggerManager.View;
      var logger := GetLogger(d.name);
      assert logger in m_logger.Values && forall a | a in logger.m_appenders :: a in Attached();
      hide IsClearOf;
      ok := ConfigureKnown(d);
    }

    twostate lemma StillSame(new n: string)
      requires SameLogger(n) && forall a | a in old(Attached()) :: unchanged(a)
      ensures ValueOf(n) == old(ValueOf(n))
    {
      var l := m_logger[n];
      assert l in old(m_logger.Values) && forall a | a in old(l.m_appenders) :: a in old(Attached());
      StatesUntouched(l.m_appenders);
    }

    method SilenceKnown(name: string)
      requires Valid() && name in m_logger
      modifies m_logger[name]
      ensures m_logger[name].m_appenders == [] && ValueOf(name) == Silence(old(ValueOf(name)))
      ensures old(Unshared()) ==> Unshared() && View() == old(View())[name := Silence(old(View())[name])]
    {
      hide States;
      var logger := m_logger[name];
      logger.SetLevel(TOO_HIGH);
      logger.ClearAppenders();
      NoStates();
      if old(Unshared()) {
        assert OthersSame(name);
        OneChanged(name, logger);
      }
    }

    method Undefine(name: string)
      requires Valid()
      modifies this`m_logger, m_logger.Values
      ensures Valid() && Grown() && name in m_logger && m_logger.Keys == old(m_logger.Keys) + {name}
      ensures forall n | n in old(m_logger) && n != name :: SameLogger(n)
      ensures ValueOf(name) == Silence(old(ValueOf(name))) && forall n | n != name :: ValueOf(n) == old(ValueOf(n))
      ensures old(Unshared()) ==>
                Unshared() && var known := Ensure(old(View()), name); View() == known[name := Silence(known[name])]
    {
      hide Logger.Value, Silence, Unshared, LoggerManager.View;
      var logger := GetLogger(name);
      assert logger in m_logger.Values;
      ghost var v := ValueOf(name);
      assert v == old(ValueOf(name));
      SilenceKnown(name);
      forall n | n != name ensures ValueOf(n) == old(ValueOf(n)) {
        if n in old(m_logger) { StillSame(n); }
      }
    }

    ghost function Shot(): Snapshot
      reads this, m_logger.Values, Attached()
    {
      Snapshot(m_logger, Holders(), map n | n in m_logger :: (m_logger[n].m_level, m_logger[n].m_formatter),
               map a | a in Attached() :: a.m_formatter, set a | a in Attached() && a.m_hasFormatter)
    }

    /** Logger `n` is as it was. */
    ghost predicate IsAsIn(shot: Snapshot, n: string)
      reads this, m_logger.Values
    {
      && n in shot.loggers && n in m_logger && m_logger[n] == shot.loggers[n]
      && n in shot.holders && m_logger[n].m_appenders == shot.holders[n]
      && n in shot.held && (m_logger[n].m_level, m_logger[n].m_formatter) == shot.held[n]
    }

    /** Where things stand once `defs` have been applied: loggers they do not name are as
        they were, others hold new appenders only, and an appender that was there has
        another formatter exactly when a definition has reached it. */
    ghost predicate Stands(shot: Snapshot, defs: seq<LogDefine>)
      reads this, m_logger.Values, shot.formatters.Keys
    {
      && (forall n | n in shot.loggers && !Names(defs, n) :: IsAsIn(shot, n))
      && (forall n | n in m_logger && (n !in shot.loggers || Names(defs, n)) ::
            forall a | a in m_logger[n].m_appenders :: a !in shot.formatters)
      && (forall a | a in shot.formatters :: StandsFor(shot, defs, a))
    }

    ghost predicate StandsFor(shot: Snapshot, defs: seq<LogDefine>, a: LogAppender)
      requires a in shot.formatters
      reads a
    {
      && (a.m_hasFormatter <==> a in shot.owns)
      && (a.m_formatter == shot.formatters[a] <==> !IsReached(defs, shot.holders, a, a in shot.owns))
    }

    lemma ShotIsSquare()
      ensures Shot().holders.Keys == Shot().held.Keys == Shot().loggers.Keys
    {}

    lemma StandsAtFirst()
      ensures Stands(Shot(), [])
    {
      assert forall l | l in m_logger.Values :: forall a | a in l.m_appenders :: a in Attached();
      assert forall n | n in m_logger :: m_logger[n] in m_logger.Values;
    }

    /** One more definition. */
    twostate lemma StandsAfter(shot: Snapshot, new defs: seq<LogDefine>, new d: LogDefine)
      requires shot.holders.Keys == shot.loggers.Keys && old(Stands(shot, defs)) && !Names(defs, d.name)
      requires m_logger.Keys == old(m_logger.Keys) + {d.name}
      requires forall a | a in m_logger[d.name].m_appenders :: a !in shot.formatters
      requires forall n | n in old(m_logger) && n != d.name :: SameLogger(n)
      requires d.name in old(m_logger) ==> m_logger[d.name] == old(m_logger[d.name])
      requires forall a | a in shot.formatters ::
                 && a.m_hasFormatter == old(a.m_hasFormatter)
                 && if Reaches(d, old(Holders()), a, a in shot.owns) then a.m_formatter != shot.formatters[a]
                    else a.m_formatter == old(a.m_formatter)
      ensures Stands(shot, defs + [d])
    {
      hide IsReached;
      forall a | a in shot.formatters ensures StandsFor(shot, defs + [d], a) {
        IsReachedSnoc(defs, d, shot.holders, a, a in shot.owns);
        assert old(StandsFor(shot, defs, a));
        assert Reaches(d, shot.holders, a, a in shot.owns) <==> Reaches(d, old(Holders()), a, a in shot.owns);
      }
      NamesSnoc(defs, d);
    }

    lemma OwnAsIn(shot: Snapshot, defs: seq<LogDefine>)
      requires Stands(shot, defs)
      ensures forall a | a in shot.formatters :: a.m_hasFormatter <==> a in shot.owns
    {
      assert forall a | a in shot.formatters :: StandsFor(shot, defs, a);
    }

    lemma ReachedAreAttached(d: LogDefine)
      ensures forall a, own | Reaches(d, Holders(), a, own) :: a in Attached()
    {
      assert d.name in m_logger ==> m_logger[d.name] in m_logger.Values;
    }

    /** What the definitions say of their own loggers: each is as configured, whatever it
        shared before, and shares nothing now. */
    ghost predicate Carried(shot: Snapshot, defs: seq<LogDefine>)
      reads this, m_logger.Values, Attached()
    {
      && (forall n | n in m_logger && n !in shot.loggers :: Names(defs, n))
      && forall d | d in defs :: IsCarried(shot, d)
    }

    ghost predicate IsCarried(shot: Snapshot, d: LogDefine)
      reads this, m_logger.Values, Attached()
    {
      && d.name in m_logger && ValueOf(d.name) == Configure(Base(shot, d.name), d)
      && forall k | k != d.name :: IsClearOf(d.name, k)
    }

    lemma CarriedAtFirst()
      ensures Carried(Shot(), [])
    {}

    twostate lemma CarriedAfter(shot: Snapshot, new defs: seq<LogDefine>, new d: LogDefine)
      requires old(Stands(shot, defs)) && old(Carried(shot, defs)) && !Names(defs, d.name)
      requires shot.held.Keys == shot.loggers.Keys
      requires d.name in m_logger && m_logger.Keys == old(m_logger.Keys) + {d.name}
      requires forall n | n in old(m_logger) && n != d.name :: SameLogger(n)
      requires ValueOf(d.name) == Configure(old(ValueOf(d.name)), d)
      requires forall n | n != d.name && old(IsClearOf(n, d.name)) :: ValueOf(n) == old(ValueOf(n))
      requires forall a | a in m_logger[d.name].m_appenders :: fresh(a)
      ensures Carried(shot, defs + [d])
    {
      hide Configure, Stands, Logger.Value;
      NamesSnoc(defs, d);
      forall k | k != d.name ensures IsClearOf(d.name, k) && IsClearOf(k, d.name) {
        if k in m_logger { assert SameLogger(k); }
      }
      BaseIsOld(shot, defs, d);
      forall e | e in defs ensures IsCarried(shot, e) {
        assert old(IsCarried(shot, e)) && Names(defs, e.name) && SameLogger(e.name);
        forall k | k != e.name && k != d.name ensures IsClearOf(e.name, k) {
          assert old(IsClearOf(e.name, k));
          if k in m_logger { assert SameLogger(k); }
        }
      }
    }

    /** The logger to be configured still has the formatter it had at first. */
    twostate lemma BaseIsOld(shot: Snapshot, new defs: seq<LogDefine>, new d: LogDefine)
      requires old(Stands(shot, defs)) && old(Carried(shot, defs)) && !Names(defs, d.name)
      requires shot.held.Keys == shot.loggers.Keys
      ensures Configure(old(ValueOf(d.name)), d) == Configure(Base(shot, d.name), d)
    {
      if d.name in shot.loggers { assert old(IsAsIn(shot, d.name)); }
    }

    method DefineNext(d: LogDefine, ghost shot: Snapshot, ghost defs: seq<LogDefine>) returns (ok: bool)
      requires Valid() && shot.holders.Keys == shot.held.Keys == shot.loggers.Keys && !Names(defs, d.name)
      requires Stands(shot, defs) && Carried(shot, defs)
      modifies this`m_logger, m_logger.Values, Attached()
      ensures ok == IsBuildable(d)
      ensures Valid() && Grown() && Stands(shot, defs + [d]) && (ok ==> Carried(shot, defs + [d]))
      ensures ok && old(Unshared()) ==>
                && Unshared()
                && var known := Ensure(old(View()), d.name);
                   View() == known[d.name := Configure(known[d.name], d)]
    {
      hide Configure, IsBuildable, Unshared, LoggerManager.View, Stands, Carried, ValueOf, IsClearOf, Ensure;
      OwnAsIn(shot, defs);
      ReachedAreAttached(d);
      ok := Define(d);
      forall a | a in shot.formatters
        ensures a.m_hasFormatter == old(a.m_hasFormatter)
        ensures if Reaches(d, old(Holders()), a, a in shot.owns) then a.m_formatter != shot.formatters[a]
                else a.m_formatter == old(a.m_formatter)
      {
        if a in old(Attached()) {
          assert AppenderAfter(a, Reaches(d, old(Holders()), a, old(a.m_hasFormatter)));
        }
      }
      StandsAfter(shot, defs, d);
      if ok { CarriedAfter(shot, defs, d); }
    }

    /** The callback's first loop, over any loggers, sharing appenders or not. */
    method ApplyAll(oldDefs: seq<LogDefine>, newDefs: seq<LogDefine>) returns (ok: bool)
      requires Valid() && Ascending(newDefs)
      modifies this`m_logger, m_logger.Values, Attached()
      ensures ok == CanApply(oldDefs, newDefs)
      ensures ok ==> Valid() && Grown() && Stands(old(Shot()), newDefs) && Carried(old(Shot()), newDefs)
      ensures ok && old(Unshared()) ==> Unshared() && ApplyAsWritten(old(View()), oldDefs, newDefs) == Found(View())
    {
      hide Configure, Ensure, IsBuildable, LoggerManager.View, Unshared, Shot, Stands, Carried, Ascending, Names,
          CanApply, ApplyAsWritten, FindDefine;
      ghost var before, shot := View(), Shot();
      ShotIsSquare();
      StandsAtFirst();
      CarriedAtFirst();
      NothingApplied(before, oldDefs);
      for i := 0 to |newDefs|
        invariant Valid() && Grown() && CanApply(oldDefs, newDefs[..i])
        invariant Stands(shot, newDefs[..i]) && Carried(shot, newDefs[..i])
        invariant old(Unshared()) ==> Unshared() && ApplyAsWritten(before, oldDefs, newDefs[..i]) == Found(View())
      {
        ApplyOneMore(before, oldDefs, newDefs, i);
        if FindDefine(oldDefs, newDefs[i].name) == Found(newDefs[i]) {
          return false;
        }
        NewName(newDefs, i);
        ok := DefineNext(newDefs[i], shot, newDefs[..i]);
        if !ok {
          return;
        }
      }
      assert newDefs[..|newDefs|] == newDefs;
      ok := true;
    }

    twostate lemma CarriedSinceThen(new defs: seq<LogDefine>)
      requires Stands(old(Shot()), defs) && Carried(old(Shot()), defs)
      ensures forall d | d in defs :: d.name in m_logger && ValueOf(d.name) == Configure(old(ValueOf(d.name)), d)
      ensures forall n | !Names(defs, n) :: Silence(ValueOf(n)) == Silence(old(ValueOf(n)))
    {
      var shot := old(Shot());
      assert forall n :: Base(shot, n).pattern == old(ValueOf(n)).pattern;
      forall d | d in defs ensures d.name in m_logger && ValueOf(d.name) == Configure(old(ValueOf(d.name)), d) {
        assert IsCarried(shot, d);
      }
      forall n | !Names(defs, n) ensures Silence(ValueOf(n)) == Silence(old(ValueOf(n))) {
        if n in shot.loggers { assert IsAsIn(shot, n); }
      }
    }

    twostate lemma StandsSinceThen(new defs: seq<LogDefine>)
      requires Stands(old(Shot()), defs)
      ensures forall n | n in old(m_logger) && !Names(defs, n) :: SameLogger(n)
      ensures forall a | a in old(Attached()) ::
                && a.m_hasFormatter == old(a.m_hasFormatter)
                && (a.m_formatter == old(a.m_formatter) <==> !IsReached(defs, old(Holders()), a, old(a.m_hasFormatter)))
    {
      var shot := old(Shot());
      hide IsReached, Names;
      forall n | n in old(m_logger) && !Names(defs, n) ensures SameLogger(n) { assert IsAsIn(shot, n); }
      forall a | a in old(Attached())
        ensures a.m_hasFormatter == old(a.m_hasFormatter)
        ensures a.m_formatter == old(a.m_formatter) <==> !IsReached(defs, old(Holders()), a, old(a.m_hasFormatter))
      {
        assert StandsFor(shot, defs, a);
      }
    }

    /** The callback's second loop: levels and lists change, formatters do not. */
    method SilenceAll(oldDefs: seq<LogDefine>, newDefs: seq<LogDefine>)
      requires Valid()
      modifies this`m_logger, m_logger.Values
      ensures Valid() && Grown()
      ensures forall n | n in old(m_logger) && !IsGone(oldDefs, newDefs, n) :: SameLogger(n)
      ensures forall n ::
                ValueOf(n) == if IsGone(oldDefs, newDefs, n) then Silence(old(ValueOf(n))) else old(ValueOf(n))
      ensures old(Unshared()) ==> Unshared() && SilenceRemoved(old(View()), oldDefs, newDefs) == View()
    {
      hide Silence, Ensure, LoggerManager.View, Unshared, ValueOf, Names, FindDefine;
      ghost var applied := View();
      NoneGone(oldDefs, newDefs);
      for i := 0 to |oldDefs|
        invariant Valid() && Grown()
        invariant forall n | n in old(m_logger) && !IsGone(oldDefs, newDefs, n) :: SameLogger(n)
        invariant forall n ::
            ValueOf(n) == if IsGone(oldDefs[..i], newDefs, n) then Silence(old(ValueOf(n))) else old(ValueOf(n))
        invariant old(Unshared()) ==> Unshared() && SilenceRemoved(applied, oldDefs[..i], newDefs) == View()
      {
        GoneOneMore(oldDefs, newDefs, i);
        if !FindDefine(newDefs, oldDefs[i].name).Found? {
          Undefine(oldDefs[i].name);
          SilentTwice(old(ValueOf(oldDefs[i].name)));
        }
      }
      assert oldDefs[..|oldDefs|] == oldDefs;
    }

    /** The listener of the `logs` variable, as written. `ok` is false where the source
        follows a null pointer: at a definition that did not change (chord/logger.cpp:836)
        and at an appender of a type it cannot build (853). A logger that is not named keeps
        its level, formatter object and list, and of the appenders there were, those keep
        their formatter that have their own or that no definition reaches: the rest, shared
        or not, are given a new one. A logger that is named is configured from what it was,
        and one that is gone silenced, shared or not. */
    method OnChange(oldDefs: seq<LogDefine>, newDefs: seq<LogDefine>) returns (ok: bool)
      requires Valid() && Ascending(oldDefs) && Ascending(newDefs)
      modifies this`m_logger, m_logger.Values, Attached()
      ensures ok <==> Completes(oldDefs, newDefs)
      ensures ok ==> Valid()
      ensures ok ==> forall n | n in old(m_logger) && !Names(oldDefs, n) && !Names(newDefs, n) :: SameLogger(n)
      ensures ok ==> forall a | a in old(Attached()) ::
                && a.m_hasFormatter == old(a.m_hasFormatter)
                && (a.m_formatter == old(a.m_formatter) <==>
                    !IsReached(newDefs, old(Holders()), a, old(a.m_hasFormatter)))
      ensures ok ==> forall d | d in newDefs ::
                d.name in m_logger && ValueOf(d.name) == Configure(old(ValueOf(d.name)), d)
      ensures ok ==> forall n | IsGone(oldDefs, newDefs, n) :: ValueOf(n) == Silence(old(ValueOf(n)))
      ensures old(Unshared()) ==>
                && AsWritten(old(View()), oldDefs, newDefs) == (if ok then Found(View()) else Thrown)
                && (ok ==> Unshared())
    {
      hide LoggerManager.View, Unshared, SilenceRemoved, ApplyAsWritten, CanApply, Completes, IsReached, Stands,
          Carried, Shot, Names, ValueOf, Configure, Silence;
      CanApplyIff(View(), oldDefs, newDefs);
      ok := ApplyAll(oldDefs, newDefs);
      if ok {
        StandsSinceThen(newDefs);
        CarriedSinceThen(newDefs);
        NamedAreNotGone(oldDefs, newDefs);
        SilenceAll(oldDefs, newDefs);
      }
    }

    /** What a named logger writes is the emission of the manager's state. */
    lemma EmittedAsViewed(name: string, level: Level)
      requires Valid() && name in m_logger
      ensures m_logger[name].m_root != null ==> m_logger[name].m_root.m_root == null
      ensures m_logger[name].Emitted(level) == Emit(View(), name, level)
    {
      hide EmitEach;
    }

    /** Every appender is of one of the two classes. */
    ghost predicate AllKnown()
      reads this, m_logger.Values, Attached()
    {
      forall a | a in Attached() :: a.m_kind == FILE || a.m_kind == STDOUT
    }

    method DumpOne(name: string) returns (node: Node)
      requires Valid() && AllKnown() && name in View()
      ensures Valid() && AllKnown() && View() == old(View()) && m_logger == old(m_logger)
      ensures node == DumpLogger(name, View()[name])
    {
      assert m_logger[name] in m_logger.Values;
      assert forall a | a in m_logger[name].m_appenders :: a in Attached();
      node := m_logger[name].ToYaml();
    }

    method NamesInOrder() returns (order: seq<string>)
      requires Valid() && AllKnown()
      ensures Valid() && AllKnown() && View() == old(View())
      ensures InOrder(order) && forall n :: n in order <==> n in View()
    {
      hide InOrder;
      order := Ascend(m_logger.Keys);
    }

    /** The listing the manager writes: its loggers in the order of their names. */
    method ToYaml() returns (node: Node)
      requires Valid() && AllKnown()
      ensures IsDump(node, View())
    {
      hide *;
      ghost var view := View();
      var order := NamesInOrder();
      DumpStarts(view, order);
      var items := [];
      for i := 0 to |order|
        invariant Valid() && AllKnown() && View() == view && DumpedTo(view, order, i, items)
      {
        DumpGoesOn(view, order, i, items);
        var item := DumpOne(order[i]);
        items := items + [item];
      }
      DumpEnds(view, order, items);
      node := Array(items);
    }
  }

  /** The first `i` loggers in order have been dumped. */
  ghost predicate DumpedTo(view: Loggers, order: seq<string>, i: nat, items: seq<Node>) {
    && i <= |order| && InOrder(order) && (forall n :: n in order <==> n in view)
    && (forall n | n in order[..i] :: n in view) && items == DumpEach(view, order[..i])
  }

  lemma DumpStarts(view: Loggers, order: seq<string>)
    requires InOrder(order) && forall n :: n in order <==> n in view
    ensures DumpedTo(view, order, 0, [])
  {}

  lemma DumpGoesOn(view: Loggers, order: seq<string>, i: nat, items: seq<Node>)
    requires i < |order| && DumpedTo(view, order, i, items)
    ensures order[i] in view && DumpedTo(view, order, i + 1, items + [DumpLogger(order[i], view[order[i]])])
  {
    assert order[i] in order && order[..i + 1] == order[..i] + [order[i]];
    hide DumpLogger, DumpEach, InOrder;
    DumpSnoc(view, order[..i], order[i]);
  }

  lemma DumpSnoc(view: Loggers, front: seq<string>, last: string)
    requires last in view && forall n | n in front :: n in view
    ensures forall n | n in front + [last] :: n in view
    ensures DumpEach(view, front + [last]) == DumpEach(view, front) + [DumpLogger(last, view[last])]
  {
    assert (front + [last])[..|front|] == front;
    hide DumpLogger;
  }

  lemma DumpEnds(view: Loggers, order: seq<string>, items: seq<Node>)
    requires DumpedTo(view, order, |order|, items)
    ensures IsDump(Array(items), view)
  {
    assert order[..|order|] == order;
    DumpInOrder(view, order);
    hide InOrder;
  }

  /** Defined before, but no more. */
  ghost predicate IsGone(oldDefs: seq<LogDefine>, newDefs: seq<LogDefine>, n: string) {
    Names(oldDefs, n) && !Names(newDefs, n)
  }

  lemma GoneOneMore(oldDefs: seq<LogDefine>, newDefs: seq<LogDefine>, i: nat)
    requires i < |oldDefs|
    ensures oldDefs[..i + 1][..i] == oldDefs[..i]
    ensures FindDefine(newDefs, oldDefs[i].name).Found? <==> Names(newDefs, oldDefs[i].name)
    ensures Names(oldDefs, oldDefs[i].name)
    ensures forall n :: IsGone(oldDefs[..i + 1], newDefs, n) <==>
                        IsGone(oldDefs[..i], newDefs, n) || (n == oldDefs[i].name && !Names(newDefs, n))
  {
    assert oldDefs[..i + 1] == oldDefs[..i] + [oldDefs[i]];
    NamesSnoc(oldDefs[..i], oldDefs[i]);
    FindDefineIff(newDefs, oldDefs[i].name);
    assert oldDefs[i] in oldDefs;
  }

  lemma NamedAreNotGone(oldDefs: seq<LogDefine>, newDefs: seq<LogDefine>)
    ensures forall d | d in newDefs :: !IsGone(oldDefs, newDefs, d.name)
    ensures forall n | IsGone(oldDefs, newDefs, n) :: !Names(newDefs, n)
  {}

  lemma NoneGone(oldDefs: seq<LogDefine>, newDefs: seq<LogDefine>)
    ensures forall n :: !IsGone(oldDefs[..0], newDefs, n)
  {}

  lemma SilentTwice(l: LoggerState)
    ensures Silence(Silence(l)) == Silence(l)
  {}

  lemma NothingApplied(m: Loggers, oldDefs: seq<LogDefine>)
    ensures CanApply(oldDefs, []) && ApplyAsWritten(m, oldDefs, []) == Found(m)
  {}

  lemma ApplyOneMore(m: Loggers, oldDefs: seq<LogDefine>, defs: seq<LogDefine>, i: nat)
    requires i < |defs|
    ensures defs[..i + 1] == defs[..i] + [defs[i]]
    ensures CanApply(oldDefs, defs[..i + 1]) <==>
            CanApply(oldDefs, defs[..i]) && FindDefine(oldDefs, defs[i].name) != Found(defs[i]) && IsBuildable(defs[i])
    ensures CanApply(oldDefs, defs) ==> CanApply(oldDefs, defs[..i + 1])
    ensures ApplyAsWritten(m, oldDefs, defs[..i]).Found? && CanApply(oldDefs, defs[..i + 1]) ==>
              var known := Ensure(ApplyAsWritten(m, oldDefs, defs[..i]).value, defs[i].name);
              ApplyAsWritten(m, oldDefs, defs[..i + 1]) ==
                  Found(known[defs[i].name := Configure(known[defs[i].name], defs[i])])
  {
    var front := defs[..i];
    assert defs[..i + 1][..i] == front && defs[..i + 1] == front + [defs[i]];
    assert forall d | d in defs[..i + 1] :: d in defs;
    assert defs[i] in defs[..i + 1] && forall d | d in front :: d in defs[..i + 1];
    hide Configure, IsBuildable, FindDefine;
  }

  lemma CanApplyIff(m: Loggers, oldDefs: seq<LogDefine>, newDefs: seq<LogDefine>)
    requires Ascending(oldDefs)
    ensures CanApply(oldDefs, newDefs) <==> Completes(oldDefs, newDefs)
    ensures !Completes(oldDefs, newDefs) ==> ApplyAsWritten(m, oldDefs, newDefs) == Thrown
  {
    forall d | d in newDefs ensures FindDefine(oldDefs, d.name) == Found(d) <==> d in oldDefs {
      UnchangedIffMember(oldDefs, d);
    }
    ApplyAsWrittenIff(m, oldDefs, newDefs);
  }

  lemma NewName(defs: seq<LogDefine>, i: nat)
    requires Ascending(defs) && i < |defs|
    ensures !Names(defs[..i], defs[i].name)
  {
    forall d | d in defs[..i] ensures d.name != defs[i].name { LessIsTotal(d.name, defs[i].name); }
  }

  lemma IsReachedSnoc(defs: seq<LogDefine>, d: LogDefine, holders: map<string, seq<LogAppender>>, a: LogAppender,
      own: bool)
    ensures IsReached(defs + [d], holders, a, own) <==> IsReached(defs, holders, a, own) || Reaches(d, holders, a, own)
  {
    if Reaches(d, holders, a, own) { assert d in defs + [d]; }
    if x :| x in defs && Reaches(x, holders, a, own) { assert x in defs + [d]; }
  }

  lemma NamesSnoc(defs: seq<LogDefine>, d: LogDefine)
    ensures forall n :: Names(defs + [d], n) <==> Names(defs, n) || d.name == n
  {
    forall n ensures Names(defs + [d], n) <==> Names(defs, n) || d.name == n {
      if d.name == n { assert d in defs + [d]; }
      if x :| x in defs && x.name == n { assert x in defs + [d]; }
    }
  }

  /** What a definition starts from: only the pattern matters. */
  ghost function Base(shot: Snapshot, name: string): LoggerState {
    if name in shot.held then LoggerState(shot.held[name].0, PatternOf(shot.held[name].1), []) else NEW_LOGGER
  }

  /** What there was at some moment: loggers, what was attached to them, their levels and
      formatters, and the appenders' formatters, own or not. */
  datatype Snapshot = Snapshot(loggers: map<string, Logger>, holders: map<string, seq<LogAppender>>,
                               held: map<string, (Level, LogFormatter?)>,
                               formatters: map<LogAppender, LogFormatter?>, owns: set<LogAppender>)

  lemma NoStates()
    ensures States([]) == []
  {}

  /** No definition is unchanged, and every appender can be built. */
  ghost predicate CanApply(oldDefs: seq<LogDefine>, defs: seq<LogDefine>) {
    forall d | d in defs :: FindDefine(oldDefs, d.name) != Found(d) && IsBuildable(d)
  }

  /** A definition gives a new formatter to the appenders without their own that are
      attached to its logger. */
  ghost predicate Reaches(d: LogDefine, holders: map<string, seq<LogAppender>>, a: LogAppender, own: bool) {
    !own && IsValidPattern(d.formatter) && d.name in holders && a in holders[d.name]
  }

  ghost predicate IsReached(defs: seq<LogDefine>, holders: map<string, seq<LogAppender>>, a: LogAppender, own: bool) {
    exists d | d in defs :: Reaches(d, holders, a, own)
  }

  /** The order in which a `std::map` is iterated. */
  method Ascend(keys: set<string>) returns (names: seq<string>)
    ensures InOrder(names) && forall n :: n in names <==> n in keys
  {
    var rest := keys;
    names := [];
    while rest != {}
      invariant rest <= keys && InOrder(names)
      invariant forall n :: n in names <==> n in keys && n !in rest
      invariant forall n, k | n in names && k in rest :: Less(n, k)
      decreases |rest|
    {
      LeastExists(rest);
      var n :| n in rest && IsLeast(rest, n);
      names, rest := names + [n], rest - {n};
    }
  }

  predicate IsLeast(names: set<string>, n: string) {
    forall k | k in names :: k == n || Less(n, k)
  }

  lemma {:induction false} LeastExists(names: set<string>)
    requires names != {}
    ensures exists n :: n in names && IsLeast(names, n)
  {
    var x :| x in names;
    var rest := names - {x};
    if rest == {} {
      assert names == {x};
      assert IsLeast(names, x);
    } else {
      LeastExists(rest);
      var n :| n in rest && IsLeast(rest, n);
      LessIsTotal(n, x);
      if Less(x, n) {
        forall k | k in rest ensures k == x || Less(x, k) { if k != n { LessIsTransitive(x, n, k); } }
        assert IsLeast(names, x);
      } else {
        assert IsLeast(names, n);
      }
    }
  }
}
