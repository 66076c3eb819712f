/** `bin/conf/log.yml` from the document to the lines it makes the loggers write: every part
    of the model put together on one input. */
module ShippedLogConfig {
  import opened DefaultPattern
  import opened LogDefines
  import opened LogDocuments
  import opened Options
  import opened Pattern
  import opened PatternLaws
  import opened Reconciliation
  import opened Yaml

  const PLAIN := "%d%T%m%n"
  const LEVELLED := "%d%T[%p]%T%m%n"

  const ROOT_FILE := Mapping([Entry("type", Scalar("FileLogAppender")), Entry("file", Scalar("root.txt"))])
  const CONSOLE := Mapping([Entry("type", Scalar("StdoutLogAppender"))])
  const SYSTEM_FILE := Mapping([Entry("type", Scalar("FileLogAppender")), Entry("file", Scalar("system.txt")),
                                Entry("formatter", Scalar("%d%T[%p]%T%m%n"))])

  const ROOT_NODE := Mapping([Entry("name", Scalar("root")), Entry("level", Scalar("info")),
                              Entry("formatter", Scalar("%d%T%m%n")),
                              Entry("appenders", Sequence([ROOT_FILE, CONSOLE]))])
  const SYSTEM_NODE := Mapping([Entry("name", Scalar("system")), Entry("level", Scalar("debug")),
                                Entry("formatter", Scalar("%d%T%m%n")),
                                Entry("appenders", Sequence([SYSTEM_FILE, CONSOLE]))])

  const TO_CONSOLE := AppenderDefine(STDOUT, UNKNOWN, "", "")
  const ROOT_DEFINE := LogDefine("root", INFO, PLAIN, [AppenderDefine(FILE, UNKNOWN, "", "root.txt"), TO_CONSOLE])
  const SYSTEM_DEFINE :=
    LogDefine("system", DEBUG, PLAIN, [AppenderDefine(FILE, UNKNOWN, LEVELLED, "system.txt"), TO_CONSOLE])

  lemma AppendersOfTheFile()
    ensures DecodeAppender(ROOT_FILE) == Found(AppenderDefine(FILE, UNKNOWN, "", "root.txt"))
    ensures DecodeAppender(SYSTEM_FILE) == Found(AppenderDefine(FILE, UNKNOWN, LEVELLED, "system.txt"))
    ensures DecodeAppender(CONSOLE) == Found(TO_CONSOLE)
  {
    assert Has(CONSOLE, "type", "StdoutLogAppender");
    AppenderMeansIff(CONSOLE, TO_CONSOLE);
    assert Has(ROOT_FILE, "type", "FileLogAppender") && Has(ROOT_FILE, "file", "root.txt");
    assert Lacks(ROOT_FILE, "formatter");
    AppenderMeansIff(ROOT_FILE, AppenderDefine(FILE, UNKNOWN, "", "root.txt"));
    assert Has(SYSTEM_FILE, "type", "FileLogAppender") && Has(SYSTEM_FILE, "file", "system.txt");
    assert Has(SYSTEM_FILE, "formatter", LEVELLED);
    AppenderMeansIff(SYSTEM_FILE, AppenderDefine(FILE, UNKNOWN, LEVELLED, "system.txt"));
  }

  lemma TwoCollected(a: Node, b: Node, x: AppenderDefine, y: AppenderDefine)
    requires DecodeAppender(a) == Found(x) && DecodeAppender(b) == Found(y)
    ensures Collect(DecodeAppenders([a, b])) == Found([x, y])
  {
    hide DecodeAppender;
    CollectOneMore([], Reading.Found(x));
    CollectOneMore([Reading.Found(x)], Reading.Found(y));
    assert [] + [Reading.Found(x)] == [Reading.Found(x)];
    assert DecodeAppenders([a, b]) == [Reading.Found(x)] + [Reading.Found(y)];
    assert [] + [x] == [x] && [x] + [y] == [x, y];
  }

  lemma DefinitionsOfTheFile()
    ensures DecodeDefine(ROOT_NODE) == Found(ROOT_DEFINE)
    ensures DecodeDefine(SYSTEM_NODE) == Found(SYSTEM_DEFINE)
  {
    AppendersOfTheFile();
    TwoCollected(ROOT_FILE, CONSOLE, ROOT_DEFINE.appenders[0], TO_CONSOLE);
    TwoCollected(SYSTEM_FILE, CONSOLE, SYSTEM_DEFINE.appenders[0], TO_CONSOLE);
    hide DecodeAppenders, Collect, DecodeDefine;
    LevelNames("info");
    LevelNames("debug");
    FourEntries(ROOT_NODE.entries, "root", "info", Sequence([ROOT_FILE, CONSOLE]));
    DefinitionMeansIff(ROOT_NODE, ROOT_DEFINE);
    FourEntries(SYSTEM_NODE.entries, "system", "debug", Sequence([SYSTEM_FILE, CONSOLE]));
    DefinitionMeansIff(SYSTEM_NODE, SYSTEM_DEFINE);
    hide Find, LevelFromString;
    assert Has(ROOT_NODE, "level", "info") && Has(SYSTEM_NODE, "level", "debug");
  }

  lemma FourEntries(entries: seq<Entry>, name: string, level: string, list: Node)
    requires entries == [Entry("name", Scalar(name)), Entry("level", Scalar(level)),
                         Entry("formatter", Scalar("%d%T%m%n")), Entry("appenders", list)]
    ensures Find(entries, "name") == Found(Scalar(name)) && Find(entries, "level") == Found(Scalar(level))
    ensures Find(entries, "formatter") == Found(Scalar(PLAIN)) && Find(entries, "appenders") == Found(list)
  {
    var two := entries[1..][1..];
    assert two == [entries[2], entries[3]] && two[1..] == [entries[3]];
    assert Find(two, "formatter") == Found(Scalar(PLAIN)) && Find(two, "appenders") == Found(list);
  }

  /** The value the variable `logs` gets from the file. */
  lemma TheFileAsDefinitions()
    ensures Decode(Sequence([ROOT_NODE, SYSTEM_NODE])) == Found([ROOT_DEFINE, SYSTEM_DEFINE])
    ensures Ascending([ROOT_DEFINE, SYSTEM_DEFINE])
  {
    DefinitionsOfTheFile();
    hide DecodeDefine, ROOT_NODE, SYSTEM_NODE;
    assert DecodeItems([]) == Found([]);
    DecodeSnoc([], ROOT_NODE, [], ROOT_DEFINE);
    assert Insert([], ROOT_DEFINE) == [ROOT_DEFINE];
    assert [] + [ROOT_NODE] == [ROOT_NODE];
    DecodeSnoc([ROOT_NODE], SYSTEM_NODE, [ROOT_DEFINE], SYSTEM_DEFINE);
    assert Less("root", "system");
    LessIsTotal("root", "system");
    InsertAtEnd([ROOT_DEFINE], SYSTEM_DEFINE);
    assert [ROOT_NODE] + [SYSTEM_NODE] == [ROOT_NODE, SYSTEM_NODE];
    assert [ROOT_DEFINE] + [SYSTEM_DEFINE] == [ROOT_DEFINE, SYSTEM_DEFINE];
  }

  lemma PatternsOfTheFile()
    ensures IsValidPattern(PLAIN) && IsValidPattern(LEVELLED)
  {
    hide IsClean, Compile;
    Nothing();
    CleanDirective('n', "");
    assert "%n" == ['%', 'n'] + "";
    CleanDirective('m', "%n");
    assert "%m%n" == ['%', 'm'] + "%n";
    CleanDirective('T', "%m%n");
    assert "%T%m%n" == ['%', 'T'] + "%m%n";
    CleanDirective('d', "%T%m%n");
    assert PLAIN == ['%', 'd'] + "%T%m%n";
    CleanMeansValid(PLAIN);
    CleanChar(']', "%T%m%n");
    assert "]%T%m%n" == [']'] + "%T%m%n";
    CleanDirective('p', "]%T%m%n");
    assert "%p]%T%m%n" == ['%', 'p'] + "]%T%m%n";
    CleanChar('[', "%p]%T%m%n");
    assert "[%p]%T%m%n" == ['['] + "%p]%T%m%n";
    CleanDirective('T', "[%p]%T%m%n");
    assert "%T[%p]%T%m%n" == ['%', 'T'] + "[%p]%T%m%n";
    CleanDirective('d', "%T[%p]%T%m%n");
    assert LEVELLED == ['%', 'd'] + "%T[%p]%T%m%n";
    CleanMeansValid(LEVELLED);
  }

  lemma TwoOutputs(a: AppenderDefine, b: AppenderDefine, pattern: Option<string>, level: Level)
    requires level >= a.level && level >= b.level
    ensures DefinedOutputs([a, b], pattern, level) ==
            [Output(a.kind, if a.kind == FILE then a.file else "",
                    if IsValidPattern(a.formatter) then Some(a.formatter) else pattern),
             Output(b.kind, if b.kind == FILE then b.file else "",
                    if IsValidPattern(b.formatter) then Some(b.formatter) else pattern)]
  {
    hide IsValidPattern;
    assert [a, b][..1] == [a] && [a][..0] == [];
    assert DefinedOutputs([], pattern, level) == [];
  }

  /** What the program writes once it has loaded the file: an event of logger `system` goes to
      `system.txt` with its level and to the console without; one of `root` goes to `root.txt`
      and to the console, unless it is below INFO. */
  lemma WhatTheFileMakesTheLoggersWrite(level: Level)
    requires DEBUG <= level <= FATAL
    ensures var m := Run(INITIAL, [[ROOT_DEFINE, SYSTEM_DEFINE]]);
            && "system" in m && ROOT in m
            && Emit(m, "system", level) ==
               [Output(FILE, "system.txt", Some(LEVELLED)), Output(STDOUT, "", Some(PLAIN))]
            && Emit(m, ROOT, level) ==
               if level < INFO then []
               else [Output(FILE, "root.txt", Some(PLAIN)), Output(STDOUT, "", Some(PLAIN))]
  {
    var defs := [ROOT_DEFINE, SYSTEM_DEFINE];
    var h: History := [defs];
    TheFileAsDefinitions();
    PatternsOfTheFile();
    assert h[0] == defs && defs[0] == ROOT_DEFINE && defs[1] == SYSTEM_DEFINE;
    assert IsHistory(h) by { assert IsBuildable(ROOT_DEFINE) && IsBuildable(SYSTEM_DEFINE); }
    HeldPattern(h, ROOT_DEFINE);
    HeldPattern(h, SYSTEM_DEFINE);
    hide Ascending, IsValidPattern, Run, Emit, DefinedOutputs, LastValidPattern, IsHistory;
    DefinedLoggersEmitAsDefined(INITIAL, h, ROOT_DEFINE, level);
    DefinedLoggersEmitAsDefined(INITIAL, h, SYSTEM_DEFINE, level);
    TwoOutputs(ROOT_DEFINE.appenders[0], TO_CONSOLE, Some(PLAIN), level);
    TwoOutputs(SYSTEM_DEFINE.appenders[0], TO_CONSOLE, Some(PLAIN), level);
    assert !IsValidPattern("") by { NoEmptyPattern(); }
  }

  lemma NoEmptyPattern()
    ensures !IsValidPattern("")
  {}

  lemma HeldPattern(h: History, d: LogDefine)
    requires IsHistory(h) && d in Current(h) && IsValidPattern(d.formatter) && h != []
    ensures LastValidPattern(INITIAL, h, d.name) == Some(d.formatter)
  {
    FindDefineIff(Current(h), d.name);
    hide IsValidPattern, FindDefine;
  }
}
