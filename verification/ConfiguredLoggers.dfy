/** What a change of the `logs` variable leaves of each logger, field by field, and what an
    event then comes out as, root's part included (chord/logger.cpp:324-343, 815-884). Every
    formatter is judged by its declarative reading. */
module ConfiguredLoggers {
  import opened DefaultPattern
  import opened LogDefines
  import opened LoggerDump
  import opened Options
  import opened Pattern
  import opened PatternLaws
  import opened Reconciliation

  /** A reading without an open brace and without a name outside the eleven of the table. */
  ghost predicate IsClear(ps: seq<Piece>) {
    forall p | p in ps ::
      && !p.Unterminated?
      && (p.Directive? ==> p.name in {"m", "p", "r", "c", "t", "n", "d", "f", "l", "F", "T"})
  }

  /** A pattern may be installed exactly when it is not empty and its reading is clear. */
  lemma ValidPatternIff(pattern: string, ps: seq<Piece>)
    requires IsLexing(pattern, ps)
    ensures IsValidPattern(pattern) <==> pattern != "" && IsClear(ps)
  {
    ErrorExactly(pattern, ps);
    assert forall p | p in ps ::
        IsFaultyPiece(p) <==> !(!p.Unterminated? && (p.Directive? ==>
            p.name in {"m", "p", "r", "c", "t", "n", "d", "f", "l", "F", "T"}));
  }

  /** An appender as its definition says, in a logger that then holds `pattern`. */
  ghost predicate IsAppenderOf(r: AppenderState, a: AppenderDefine, pattern: Option<string>) {
    && r.kind == a.kind && r.level == a.level && r.file == (if a.kind == FILE then a.file else "")
    && forall ps | IsLexing(a.formatter, ps) ::
         && (r.own <==> a.formatter != "" && IsClear(ps))
         && r.pattern == if r.own then Some(a.formatter) else pattern
  }

  /** A logger as its definition says, if it held `before` until then. */
  ghost predicate IsLoggerOf(l: LoggerState, d: LogDefine, before: Option<string>) {
    && l.level == d.level
    && (forall ps | IsLexing(d.formatter, ps) ::
          l.pattern == if d.formatter != "" && IsClear(ps) then Some(d.formatter) else before)
    && |l.appenders| == |d.appenders|
    && forall i | 0 <= i < |d.appenders| :: IsAppenderOf(l.appenders[i], d.appenders[i], l.pattern)
  }

  lemma AppenderIsAsDefined(a: AppenderDefine, pattern: Option<string>)
    ensures IsAppenderOf(BuildAppender(a, pattern), a, pattern)
  {
    hide IsLexing, IsClear, IsValidPattern;
    forall ps | IsLexing(a.formatter, ps) ensures IsValidPattern(a.formatter) <==> a.formatter != "" && IsClear(ps) {
      ValidPatternIff(a.formatter, ps);
    }
  }

  lemma ConfiguredIsAsDefined(l: LoggerState, d: LogDefine)
    ensures IsLoggerOf(Configure(l, d), d, l.pattern)
  {
    hide IsLexing, IsClear, IsValidPattern, IsAppenderOf, BuildAppender;
    forall ps | IsLexing(d.formatter, ps) ensures IsValidPattern(d.formatter) <==> d.formatter != "" && IsClear(ps) {
      ValidPatternIff(d.formatter, ps);
    }
    var c := Configure(l, d);
    forall i | 0 <= i < |d.appenders| ensures IsAppenderOf(c.appenders[i], d.appenders[i], c.pattern) {
      AppenderIsAsDefined(d.appenders[i], c.pattern);
    }
  }

  /** The pattern a logger held, or would be created with. */
  function PatternIn(m: Loggers, name: string): Option<string> {
    if name in m then m[name].pattern else Some(DEFAULT_PATTERN)
  }

  lemma {:induction false} LastValidIsHeld(m: Loggers, h: History, name: string)
    requires IsHistory(h)
    ensures LastValidPattern(m, h, name) == PatternIn(Run(m, h), name)
  {
    EveryHistoryEndsAsDefined(m, h, name);
    FindDefineIff(Current(h), name);
    hide LastValidPattern, FindDefine, EverDefined, AsDefined, Run, IsHistory;
  }

  lemma OneMoreChange(m: Loggers, front: History, last: seq<LogDefine>, name: string)
    requires IsHistory(front + [last])
    ensures IsHistory(front) && Ascending(last)
    ensures Current(front + [last]) == last
    ensures Get(Run(m, front + [last]), name) ==
            Outcome(m, front + [last], name, EverDefined(front + [last], name))
    ensures LastValidPattern(m, front + [last], name) ==
            match FindDefine(last, name)
            case Found(d) => if IsValidPattern(d.formatter) then Some(d.formatter) else PatternIn(Run(m, front), name)
            case _ => PatternIn(Run(m, front), name)
  {
    assert forall s | s in front :: s in front + [last];
    assert last in front + [last];
    LastValidIsHeld(m, front, name);
    EveryHistoryEndsAsDefined(m, front + [last], name);
    assert (front + [last])[..|front|] == front;
    hide IsValidPattern, FindDefine, EverDefined, Run, Outcome, PatternIn;
  }

  /** A change applied on top of any others: every logger it defines has the level it says
      and exactly the appenders it lists, each with its type, file and level; the formatter
      is the one named if that is not empty and its reading is clear, and otherwise the one
      held before; an appender has its own formatter under the same condition, and otherwise
      the logger's. */
  lemma AChangeLeavesLoggersAsDefined(m: Loggers, front: History, last: seq<LogDefine>, d: LogDefine)
    requires IsHistory(front + [last]) && d in last
    ensures d.name in Run(m, front + [last])
    ensures IsLoggerOf(Run(m, front + [last])[d.name], d,
                       if d.name in Run(m, front) then Run(m, front)[d.name].pattern else Some(DEFAULT_PATTERN))
  {
    OneMoreChange(m, front, last, d.name);
    FindDefineIff(last, d.name);
    var before := PatternIn(Run(m, front), d.name);
    ConfiguredIsAsDefined(LoggerState(0, before, []), d);
    hide IsValidPattern, FindDefine, EverDefined, Run, IsLoggerOf, IsHistory, BuildAppenders;
  }

  /** A logger whose definition is gone is silenced: level 100, no appenders, its formatter
      kept; and it stays so until it is defined again. A logger no change has ever named is
      what it was. */
  lemma AChangeSilencesOrLeaves(m: Loggers, front: History, last: seq<LogDefine>, name: string)
    requires IsHistory(front + [last]) && !Names(last, name)
    ensures Get(Run(m, front + [last]), name) ==
            if exists s :: s in front && Names(s, name)
            then Found(LoggerState(100, PatternIn(Run(m, front), name), []))
            else Get(m, name)
  {
    OneMoreChange(m, front, last, name);
    FindDefineIff(last, name);
    EverDefinedSnoc(front, last, name);
    hide IsValidPattern, FindDefine, Run, IsHistory, LastValidPattern, Names, PatternIn;
  }

  /** From the start on, whatever is configured, every formatter a logger or an appender
      holds compiled without error: none is ever missing, and none prints an error text. */
  lemma EveryFormatterCompiles(h: History, name: string)
    requires IsHistory(h) && name in Run(INITIAL, h)
    ensures var l := Run(INITIAL, h)[name];
            && l.pattern.Some? && !Compile(l.pattern.value).error
            && forall a | a in l.appenders :: a.pattern.Some? && !Compile(a.pattern.value).error
  {
    InitialIsRegular();
    EveryHistoryStaysRegular(INITIAL, h);
    hide Compile, Run;
  }

  // ------------------------------------------------------------------ events

  /** An appender writes the event exactly when the event's level is not below its own. */
  lemma OneAppenderWritesIff(a: AppenderState, level: Level)
    ensures EmitEach([a], level) == if a.level <= level then [Output(a.kind, a.file, a.pattern)] else []
  {
    assert [a][..0] == [] && EmitEach([], level) == [];
  }

  /** Appenders write in turn. */
  lemma {:induction false} AppendersWriteInTurn(a: seq<AppenderState>, b: seq<AppenderState>, level: Level)
    ensures EmitEach(a + b, level) == EmitEach(a, level) + EmitEach(b, level)
  {
    if b == [] {
      assert a + b == a;
    } else {
      var front, last := b[..|b| - 1], b[|b| - 1];
      AppendersWriteInTurn(a, front, level);
      assert (a + b)[..|a + b| - 1] == a + front;
    }
  }

  /** A logger that refuses the event writes nothing; one with appenders leaves it to them;
      one without does exactly what root does with an event of this level, root's own level
      test included. */
  lemma WithoutAppendersAsRoot(m: Loggers, name: string, level: Level)
    requires name in m && ROOT in m
    ensures level < m[name].level ==> Emit(m, name, level) == []
    ensures level >= m[name].level && m[name].appenders != [] ==>
              Emit(m, name, level) == EmitEach(m[name].appenders, level)
    ensures level >= m[name].level && m[name].appenders == [] && name != ROOT ==>
              Emit(m, name, level) == Emit(m, ROOT, level)
    ensures m[ROOT].appenders == [] && (name == ROOT || m[name].appenders == []) ==> Emit(m, name, level) == []
  {}

  /** One line of output of an appender as its definition says. */
  ghost predicate IsLineOf(o: Output, a: AppenderDefine, pattern: Option<string>) {
    && o.kind == a.kind && o.file == (if a.kind == FILE then a.file else "")
    && forall ps | IsLexing(a.formatter, ps) ::
         o.pattern == if a.formatter != "" && IsClear(ps) then Some(a.formatter) else pattern
  }

  /** What defined appenders write, appender by appender. */
  lemma {:induction false} DefinedAppendersWrite(appenders: seq<AppenderDefine>, a: AppenderDefine,
                                                 pattern: Option<string>, level: Level)
    ensures DefinedOutputs([], pattern, level) == []
    ensures var front, all := DefinedOutputs(appenders, pattern, level),
                              DefinedOutputs(appenders + [a], pattern, level);
            if level < a.level then all == front
            else |all| == |front| + 1 && all[..|front|] == front && IsLineOf(all[|front|], a, pattern)
  {
    assert (appenders + [a])[..|appenders|] == appenders;
    hide IsValidPattern, IsLexing, IsClear;
    forall ps | IsLexing(a.formatter, ps) ensures IsValidPattern(a.formatter) <==> a.formatter != "" && IsClear(ps) {
      ValidPatternIff(a.formatter, ps);
    }
  }

  /** A defined logger without appenders writes what root's definition says, to root's
      appenders, if both its own level and root's admit the event, and otherwise nothing. */
  lemma DefinedLoggersFallBackToRoot(m: Loggers, h: History, d: LogDefine, r: LogDefine, level: Level)
    requires IsHistory(h) && d in Current(h) && r in Current(h)
    requires r.name == ROOT && d.appenders == []
    ensures d.name in Run(m, h) && ROOT in Run(m, h)
    ensures Emit(Run(m, h), d.name, level) ==
            if level < d.level || level < r.level then []
            else DefinedOutputs(r.appenders, LastValidPattern(m, h, ROOT), level)
  {
    EveryHistoryEndsAsDefined(m, h, d.name);
    EveryHistoryEndsAsDefined(m, h, ROOT);
    FindDefineIff(Current(h), d.name);
    FindDefineIff(Current(h), ROOT);
    BuiltAppendersEmit(r.appenders, LastValidPattern(m, h, ROOT), level);
    BuiltAppendersEmit([], LastValidPattern(m, h, d.name), level);
    hide EmitEach, DefinedOutputs, LastValidPattern, FindDefine, IsHistory, Names, EverDefined, Run;
    if d.name == ROOT { assert d == r; }
  }

  /** Before anything is configured, root and every logger just created write one line to
      the console, in the default pattern, for an event that is DEBUG or above. */
  lemma NewLoggersWriteToTheConsole(name: string, level: Level)
    ensures name in Ensure(INITIAL, name) && ROOT in Ensure(INITIAL, name)
    ensures Emit(Ensure(INITIAL, name), name, level) ==
            if level < DEBUG then [] else [Output(STDOUT, "", Some(DEFAULT_PATTERN))]
  {
    OneAppenderWritesIff(INITIAL[ROOT].appenders[0], level);
  }
}
