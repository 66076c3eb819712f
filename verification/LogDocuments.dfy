/** What log definitions look like in a document, key by key, and what dumps show of loggers
    and appenders (chord/logger.cpp:14-53, 366-386, 413-469, 655-811). */
module LogDocuments {
  import opened LogDefines
  import opened LoggerDump
  import opened Options
  import opened Reconciliation
  import opened Sequences
  import opened Yaml

  // ----------------------------------------------------------------- levels

  /** Levels are named in upper or in lower case, nothing in between; any other text is
      UNKNOWN. */
  lemma LevelNames(s: string)
    ensures LevelFromString(s) == DEBUG <==> s in {"debug", "DEBUG"}
    ensures LevelFromString(s) == INFO <==> s in {"info", "INFO"}
    ensures LevelFromString(s) == WARN <==> s in {"warn", "WARN"}
    ensures LevelFromString(s) == ERROR <==> s in {"error", "ERROR"}
    ensures LevelFromString(s) == FATAL <==> s in {"fatal", "FATAL"}
    ensures UNKNOWN <= LevelFromString(s) <= FATAL
    ensures UNKNOWN < DEBUG < INFO < WARN < ERROR < FATAL < TOO_HIGH
  {}

  // ------------------------------------------------------------ order of names

  /** `b` has a larger character at the first difference, or goes on where `a` ends. */
  ghost predicate IsBelow(a: string, b: string, k: nat) {
    k <= |a| && k < |b| && a[..k] == b[..k] && (k == |a| || a[k] < b[k])
  }

  /** Names are in lexicographic order. */
  lemma {:induction false} LessIsLexicographic(a: string, b: string)
    ensures Less(a, b) <==> exists k: nat :: IsBelow(a, b, k)
  {
    if a == "" && b != "" {
      assert IsBelow(a, b, 0);
    } else if b != "" && a[0] < b[0] {
      assert IsBelow(a, b, 0);
    } else if b != "" {
      LessIsLexicographic(a[1..], b[1..]);
      if k: nat :| IsBelow(a[1..], b[1..], k) {
        if a[0] == b[0] {
          assert a[..k + 1] == [a[0]] + a[1..][..k] && b[..k + 1] == [b[0]] + b[1..][..k];
          assert IsBelow(a, b, k + 1);
        }
      }
      if k: nat :| IsBelow(a, b, k) {
        if k > 0 {
          assert a[0] == a[..k][0] == b[..k][0] == b[0];
          assert a[1..][..k - 1] == a[..k][1..] && b[1..][..k - 1] == b[..k][1..];
          assert IsBelow(a[1..], b[1..], k - 1);
        }
      }
    }
  }

  // ------------------------------------------------------------ looking up keys

  /** A key is looked up at its first entry. */
  lemma {:induction false} FindIsTheFirst(entries: seq<Entry>, key: string)
    ensures Find(entries, key).Absent? <==> forall i | 0 <= i < |entries| :: entries[i].key != key
    ensures Find(entries, key).Found? ==>
              exists i :: 0 <= i < |entries| && entries[i] == Entry(key, Find(entries, key).value)
                && forall j | 0 <= j < i :: entries[j].key != key
  {
    if entries != [] && entries[0].key != key {
      FindIsTheFirst(entries[1..], key);
      if Find(entries, key).Found? {
        var rest := entries[1..];
        var i :| 0 <= i < |rest| && rest[i] == Entry(key, Find(entries, key).value)
          && forall j | 0 <= j < i :: rest[j].key != key;
        assert entries[i + 1] == rest[i];
        forall j | 0 <= j < i + 1 ensures entries[j].key != key { assert j > 0 ==> entries[j] == rest[j - 1]; }
      }
      forall i | 0 < i < |entries| ensures entries[i] == entries[1..][i - 1] {}
    }
  }

  /** Nothing in a document is found in Null, under a missing key, or in a list; looking into
      a scalar throws, and so does reading as text what is not a scalar. */
  lemma TextOfANode(node: Node, key: string)
    ensures Text(node, key).Thrown? <==>
            node.Scalar? || (node.Mapping? && Find(node.entries, key).Found? && !Find(node.entries, key).value.Scalar?)
    ensures Text(node, key).Found? <==>
            node.Mapping? && Find(node.entries, key).Found? && Find(node.entries, key).value.Scalar?
    ensures Text(node, key).Found? ==> Find(node.entries, key).value == Scalar(Text(node, key).value)
  {}

  // ------------------------------------------------------------------ encoding

  function EntriesOf(node: Node): seq<Entry> {
    if node.Mapping? then node.entries else []
  }

  /** Under this key the text, or nothing at all. */
  ghost predicate Shows(node: Node, key: string, text: string, present: bool) {
    Find(EntriesOf(node), key) == if present then Found(Scalar(text)) else Absent
  }

  ghost predicate HasOnlyKeys(node: Node, keys: set<string>) {
    forall e | e in EntriesOf(node) :: e.key in keys
  }

  lemma FieldIsFound(key: string, text: string, present: bool, other: string)
    ensures Find(Field(key, text, present), other) ==
            if present && key == other then Found(Scalar(text)) else Absent
    ensures forall e | e in Field(key, text, present) :: e.key == key
  {}

  /** Three texts, each under its own key or left out, and whatever follows. */
  lemma ThreeTexts(k1: string, t1: string, p1: bool, k2: string, t2: string, p2: bool, k3: string, t3: string, p3: bool,
                   rest: seq<Entry>, key: string)
    ensures Find(Field(k1, t1, p1) + Field(k2, t2, p2) + Field(k3, t3, p3) + rest, key) ==
            if p1 && k1 == key then Found(Scalar(t1))
            else if p2 && k2 == key then Found(Scalar(t2))
            else if p3 && k3 == key then Found(Scalar(t3))
            else Find(rest, key)
    ensures forall e | e in Field(k1, t1, p1) + Field(k2, t2, p2) + Field(k3, t3, p3) + rest ::
              e.key in {k1, k2, k3} || e in rest
  {
    FindInDefine(Field(k1, t1, p1), Field(k2, t2, p2), Field(k3, t3, p3), rest, key);
    FieldIsFound(k1, t1, p1, key);
    FieldIsFound(k2, t2, p2, key);
    FieldIsFound(k3, t3, p3, key);
    hide Find;
  }

  lemma ObjectEntries(fields: seq<Entry>)
    ensures EntriesOf(Object(fields)) == fields
  {}

  /** An appender as written for a file or for the console. */
  ghost predicate ShowsAppender(n: Node, kind: int, file: string, level: Level, pattern: string, hasPattern: bool) {
    && HasOnlyKeys(n, {"type", "file", "level", "formatter"})
    && (kind == FILE ==> Shows(n, "type", "FileLogAppender", true) && Shows(n, "file", file, true))
    && (kind == STDOUT ==> Shows(n, "type", "StdoutLogAppender", true) && Shows(n, "file", file, false))
    && (level in {1, 2, 3, 4, 5} ==>
          Shows(n, "level", ["DEBUG", "INFO", "WARN", "ERROR", "FATAL"][level - 1], true))
    && (level == UNKNOWN ==> Shows(n, "level", "", false))
    && Shows(n, "formatter", pattern, hasPattern)
  }

  lemma FieldsOfAppender(n: Node, kind: int, file: string, level: Level, pattern: string, hasPattern: bool, typed: bool)
    requires kind == FILE || kind == STDOUT ==> typed
    requires n == Object(Field("type", KindName(kind), typed) + Field("file", file, kind == FILE)
                         + Field("level", LevelToString(level), level != UNKNOWN)
                         + Field("formatter", pattern, hasPattern))
    ensures ShowsAppender(n, kind, file, level, pattern, hasPattern)
  {
    var rest := Field("formatter", pattern, hasPattern);
    var fields := Field("type", KindName(kind), typed) + Field("file", file, kind == FILE)
      + Field("level", LevelToString(level), level != UNKNOWN) + rest;
    ObjectEntries(fields);
    forall key: string
      ensures Find(fields, key) ==
              if typed && "type" == key then Found(Scalar(KindName(kind)))
              else if kind == FILE && "file" == key then Found(Scalar(file))
              else if level != UNKNOWN && "level" == key then Found(Scalar(LevelToString(level)))
              else if hasPattern && "formatter" == key then Found(Scalar(pattern))
              else Absent
      ensures forall e | e in fields :: e.key in {"type", "file", "level", "formatter"}
    {
      ThreeTexts("type", KindName(kind), typed, "file", file, kind == FILE, "level", LevelToString(level),
          level != UNKNOWN, rest, key);
      FieldIsFound("formatter", pattern, hasPattern, key);
      hide Find, Field;
    }
    hide Find, Field, Object;
  }

  /** What is written of an appender's definition. */
  lemma EncodedAppenderShows(a: AppenderDefine)
    ensures ShowsAppender(EncodeAppender(a), a.kind, a.file, a.level, a.formatter, a.formatter != "")
  {
    FieldsOfAppender(EncodeAppender(a), a.kind, a.file, a.level, a.formatter, a.formatter != "",
        a.kind == FILE || a.kind == STDOUT);
  }

  /** What a dump shows of an appender: its own formatter's pattern, and no lent one. */
  lemma DumpedAppenderShows(a: AppenderState)
    requires a.kind == FILE || a.kind == STDOUT
    ensures ShowsAppender(DumpAppender(a), a.kind, a.file, a.level,
                          if a.pattern.Some? then a.pattern.value else "", a.own && a.pattern.Some?)
  {
    FieldsOfAppender(DumpAppender(a), a.kind, a.file, a.level, OrNothing(a.pattern), a.own && a.pattern.Some?, true);
  }

  /** A definition or a logger, without its level. */
  ghost predicate ShowsLogger(n: Node, name: string, pattern: string, hasPattern: bool, appenders: seq<Node>) {
    && n.Mapping? && HasOnlyKeys(n, {"name", "level", "formatter", "appenders"})
    && Shows(n, "name", name, true) && Shows(n, "formatter", pattern, hasPattern)
    && Find(n.entries, "appenders") == if appenders == [] then Absent else Found(Sequence(appenders))
  }

  lemma FieldsOfLogger(name: string, level: string, hasLevel: bool, pattern: string, hasPattern: bool,
                       appenders: seq<Node>)
    ensures var n := Mapping(Field("name", name, true) + Field("level", level, hasLevel)
                             + Field("formatter", pattern, hasPattern)
                             + if appenders == [] then [] else [Entry("appenders", Sequence(appenders))]);
            ShowsLogger(n, name, pattern, hasPattern, appenders) && Shows(n, "level", level, hasLevel)
  {
    var rest := if appenders == [] then [] else [Entry("appenders", Sequence(appenders))];
    forall key: string
      ensures Find(rest, key) ==
              if appenders != [] && key == "appenders" then Found(Sequence(appenders)) else Absent
    {}
    var fields := Field("name", name, true) + Field("level", level, hasLevel) + Field("formatter", pattern, hasPattern)
      + rest;
    forall key: string
      ensures Find(fields, key) ==
              if "name" == key then Found(Scalar(name))
              else if hasLevel && "level" == key then Found(Scalar(level))
              else if hasPattern && "formatter" == key then Found(Scalar(pattern))
              else Find(rest, key)
      ensures forall e | e in fields :: e.key in {"name", "level", "formatter", "appenders"}
    {
      ThreeTexts("name", name, true, "level", level, hasLevel, "formatter", pattern, hasPattern, rest, key);
      hide Find, Field;
    }
    hide Find, Field;
  }

  /** What is written of a definition: its level only when it is UNKNOWN, as "unknown". */
  lemma EncodedDefineShows(d: LogDefine)
    ensures var n := EncodeDefine(d);
            && (exists items :: |items| == |d.appenders|
                  && ShowsLogger(n, d.name, d.formatter, d.formatter != "", items)
                  && forall i | 0 <= i < |items| :: items[i] == EncodeAppender(d.appenders[i]))
            && Shows(n, "level", "unknown", d.level == UNKNOWN)
  {
    var items := EncodeAppenders(d.appenders);
    FieldsOfLogger(d.name, LevelToString(d.level), d.level == UNKNOWN, d.formatter, d.formatter != "", items);
    hide EncodeAppender;
  }

  /** A set is written definition by definition, in order; the empty one as Null. */
  lemma EncodedSetShows(s: seq<LogDefine>)
    ensures s == [] ==> Encode(s) == Null
    ensures s != [] ==> Encode(s).Sequence? && |Encode(s).items| == |s|
    ensures forall i | 0 <= i < |s| :: Encode(s).Sequence? && Encode(s).items[i] == EncodeDefine(s[i])
  {
    hide EncodeDefine;
  }

  /** What a dump shows of a logger: its level, unless that is UNKNOWN, and its pattern. */
  lemma DumpedLoggerShows(name: string, l: LoggerState)
    ensures var n := DumpLogger(name, l);
            && (exists items :: |items| == |l.appenders|
                  && ShowsLogger(n, name, if l.pattern.Some? then l.pattern.value else "", l.pattern.Some?, items)
                  && forall i | 0 <= i < |items| :: items[i] == DumpAppender(l.appenders[i]))
            && (l.level == UNKNOWN ==> Shows(n, "level", "", false))
            && (l.level in {1, 2, 3, 4, 5} ==>
                  Shows(n, "level", ["DEBUG", "INFO", "WARN", "ERROR", "FATAL"][l.level - 1], true))
  {
    var items := DumpAppenders(l.appenders);
    FieldsOfLogger(name, LevelToString(l.level), l.level != UNKNOWN, OrNothing(l.pattern), l.pattern.Some?, items);
    hide DumpAppender;
  }

  // ------------------------------------------------------------------ decoding

  ghost predicate Has(n: Node, key: string, text: string) {
    n.Mapping? && Find(n.entries, key) == Found(Scalar(text))
  }

  /** There is nothing under this key, and looking for it does not throw. */
  ghost predicate Lacks(n: Node, key: string) {
    !n.Scalar? && Find(EntriesOf(n), key).Absent?
  }

  lemma TextIs(n: Node, key: string, text: string)
    ensures Text(n, key) == Found(text) <==> Has(n, key, text)
    ensures Text(n, key).Absent? <==> Lacks(n, key)
  {}

  /** What an appender's node means: a file appender needs its file, and only it may have a
      formatter of its own; any other type but stdout comes out as type 0. */
  lemma AppenderMeansIff(n: Node, a: AppenderDefine)
    ensures DecodeAppender(n) == Found(a) <==>
            || (&& Has(n, "type", "FileLogAppender") && Has(n, "file", a.file) && a.kind == FILE && a.level == UNKNOWN
                && (Has(n, "formatter", a.formatter) || (Lacks(n, "formatter") && a.formatter == "")))
            || (Has(n, "type", "StdoutLogAppender") && a == AppenderDefine(STDOUT, UNKNOWN, "", ""))
            || (&& (exists t :: t !in {"FileLogAppender", "StdoutLogAppender"} && Has(n, "type", t))
                && a == AppenderDefine(0, UNKNOWN, "", ""))
    ensures DecodeAppender(n).Absent? <==>
            Lacks(n, "type") || (Has(n, "type", "FileLogAppender") && Lacks(n, "file"))
  {
    forall key, text ensures Text(n, key) == Found(text) <==> Has(n, key, text) { TextIs(n, key, text); }
    forall key ensures Text(n, key).Absent? <==> Lacks(n, key) { TextIs(n, key, ""); }
    hide Text, Has, Lacks;
  }

  /** What a definition's node means: it needs a name; the level, the formatter and the
      appenders may be left out. */
  lemma DefinitionMeansIff(n: Node, d: LogDefine)
    ensures DecodeDefine(n) == Found(d) <==>
            && Has(n, "name", d.name)
            && (if Lacks(n, "level") then d.level == UNKNOWN
                else exists t :: Has(n, "level", t) && d.level == LevelFromString(t))
            && (if Lacks(n, "formatter") then d.formatter == "" else Has(n, "formatter", d.formatter))
            && (if Lacks(n, "appenders") then d.appenders == []
                else
                  && n.Mapping? && Find(n.entries, "appenders").Found?
                  && var list := Find(n.entries, "appenders").value;
                     Items(list).Some? && Collect(DecodeAppenders(Items(list).value)) == Found(d.appenders))
    ensures DecodeDefine(n).Absent? <==> Lacks(n, "name")
  {
    LevelOfNothing();
    forall key, text ensures Text(n, key) == Found(text) <==> Has(n, key, text) { TextIs(n, key, text); }
    forall key ensures Text(n, key).Absent? <==> Lacks(n, key) { TextIs(n, key, ""); }
    hide Text, Has, LevelFromString, Collect, DecodeAppenders;
  }

  /** Of a list, what is found is kept, in order, and what is absent is skipped; one that
      throws makes the whole throw. */
  lemma CollectOneMore<T(!new)>(rs: seq<Reading<T>>, r: Reading<T>)
    ensures Collect<T>([]) == Found([])
    ensures Collect(rs + [r]) ==
            if Collect(rs).Thrown? || r.Thrown? then Thrown
            else if r.Absent? then Collect(rs)
            else Found(Collect(rs).value + [r.value])
  {
    assert (rs + [r])[..|rs|] == rs;
  }

  /** What indexing and iterating over a node yield: a list its items, a map its entries,
      Null and a scalar nothing; a non-empty map is no list, and a non-empty list no map. */
  lemma WhatNodesYield(items: seq<Node>, entries: seq<Entry>, text: string)
    ensures Items(Null) == Items(Scalar(text)) == Some([]) && Items(Sequence(items)) == Some(items)
    ensures Entries(Null) == Entries(Scalar(text)) == Some([]) && Entries(Mapping(entries)) == Some(entries)
    ensures Items(Mapping(entries)).None? <==> entries != []
    ensures Entries(Sequence(items)).None? <==> items != []
  {}
}
