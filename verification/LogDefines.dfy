/** Log definitions and their conversion to and from YAML
    (chord/logger.cpp:14-53, 655-811). */
module LogDefines {
  import opened Options
  import opened Sequences
  import opened Yaml

  /** `LogLevel::Level`: 0 is UNKNOWN, 1 to 5 are DEBUG to FATAL. Other numbers only
      arise by a cast. */
  type Level = int
  const UNKNOWN: Level := 0
  const DEBUG: Level := 1
  const INFO: Level := 2
  const WARN: Level := 3
  const ERROR: Level := 4
  const FATAL: Level := 5

  function LevelToString(level: Level): string {
    if level == DEBUG then "DEBUG" else if level == INFO then "INFO" else if level == WARN then "WARN"
    else if level == ERROR then "ERROR" else if level == FATAL then "FATAL" else "unknown"
  }

  function LevelFromString(s: string): Level {
    if s == "debug" || s == "DEBUG" then DEBUG
    else if s == "info" || s == "INFO" then INFO
    else if s == "warn" || s == "WARN" then WARN
    else if s == "error" || s == "ERROR" then ERROR
    else if s == "fatal" || s == "FATAL" then FATAL
    else UNKNOWN
  }

  /** The source's type codes. */
  const FILE := 1
  const STDOUT := 2

  datatype AppenderDefine = AppenderDefine(kind: int, level: Level, formatter: string, file: string)
  datatype LogDefine = LogDefine(name: string, level: Level, formatter: string, appenders: seq<AppenderDefine>)

  // ------------------------------------------- sets of definitions, ordered by name

  /** `operator<` of strings. */
  predicate Less(a: string, b: string) {
    b != "" && (a == "" || a[0] < b[0] || (a[0] == b[0] && Less(a[1..], b[1..])))
  }

  lemma {:induction false} LessIsTotal(a: string, b: string)
    ensures Less(a, b) || Less(b, a) || a == b
    ensures !(Less(a, b) && Less(b, a))
  {
    if a != "" && b != "" {
      LessIsTotal(a[1..], b[1..]);
      assert a == [a[0]] + a[1..] && b == [b[0]] + b[1..];
    }
  }

  lemma {:induction false} LessIsTransitive(a: string, b: string, c: string)
    requires Less(a, b) && Less(b, c)
    ensures Less(a, c)
  {
    if a != "" && a[0] == b[0] && b[0] == c[0] {
      LessIsTransitive(a[1..], b[1..], c[1..]);
    }
  }

  /** A `std::set` holds its elements in ascending order. */
  ghost predicate Ascending(s: seq<LogDefine>) {
    forall i, j | 0 <= i < j < |s| :: Less(s[i].name, s[j].name)
  }

  /** `set::insert`: an element whose name is already there is not inserted. */
  function Insert(s: seq<LogDefine>, d: LogDefine): seq<LogDefine> {
    if s == [] || Less(d.name, s[0].name) then [d] + s
    else if Less(s[0].name, d.name) then [s[0]] + Insert(s[1..], d)
    else s
  }

  ghost predicate Names(s: seq<LogDefine>, name: string) {
    exists d | d in s :: d.name == name
  }

  lemma {:induction false} InsertKeepsTheFirst(s: seq<LogDefine>, d: LogDefine)
    requires Ascending(s)
    ensures Ascending(Insert(s, d))
    ensures forall x :: x in Insert(s, d) <==> x in s || (x == d && !Names(s, d.name))
  {
    if s != [] {
      var head, tail := s[0], s[1..];
      assert s == [head] + tail;
      LessIsTotal(d.name, head.name);
      if Less(d.name, head.name) {
        forall x | x in s ensures Less(d.name, x.name) {
          if x != head { LessIsTransitive(d.name, head.name, x.name); }
        }
        NamesAbove(s, d.name);
      } else if Less(head.name, d.name) {
        InsertKeepsTheFirst(tail, d);
        assert forall x | x in Insert(tail, d) :: Less(head.name, x.name);
      }
    }
  }

  lemma NamesAbove(s: seq<LogDefine>, name: string)
    requires forall x | x in s :: Less(name, x.name)
    ensures !Names(s, name)
  {
    LessIsTotal(name, name);
  }

  lemma {:induction false} InsertAtEnd(s: seq<LogDefine>, d: LogDefine)
    requires forall x | x in s :: Less(x.name, d.name)
    ensures Insert(s, d) == s + [d]
  {
    if s != [] {
      LessIsTotal(s[0].name, d.name);
      InsertAtEnd(s[1..], d);
    }
  }

  // -------------------------------------------------------------- encoding

  function Field(key: string, text: string, present: bool): seq<Entry> {
    if present then [Entry(key, Scalar(text))] else []
  }

  /** A node that never gets a key stays Null. */
  function Object(fields: seq<Entry>): Node {
    if fields == [] then Null else Mapping(fields)
  }

  function Array(items: seq<Node>): Node {
    if items == [] then Null else Sequence(items)
  }

  function KindName(kind: int): string {
    if kind == FILE then "FileLogAppender" else "StdoutLogAppender"
  }

  function EncodeAppender(a: AppenderDefine): Node {
    Object(Field("type", KindName(a.kind), a.kind == FILE || a.kind == STDOUT)
           + Field("file", a.file, a.kind == FILE)
           + Field("level", LevelToString(a.level), a.level != UNKNOWN)
           + Field("formatter", a.formatter, a.formatter != ""))
  }

  function EncodeAppenders(appenders: seq<AppenderDefine>): (r: seq<Node>)
    ensures |r| == |appenders|
  {
    seq(|appenders|, i requires 0 <= i < |appenders| => EncodeAppender(appenders[i]))
  }

  /** The level is written only when it is UNKNOWN: chord/logger.cpp:767 tests `==`
      where the appenders at 788 test `!=`. */
  function EncodeDefine(d: LogDefine): Node {
    Mapping([Entry("name", Scalar(d.name))]
            + Field("level", LevelToString(d.level), d.level == UNKNOWN)
            + Field("formatter", d.formatter, d.formatter != "")
            + if d.appenders == [] then [] else [Entry("appenders", Sequence(EncodeAppenders(d.appenders)))])
  }

  function EncodeDefines(s: seq<LogDefine>): (r: seq<Node>)
    ensures |r| == |s|
  {
    seq(|s|, i requires 0 <= i < |s| => EncodeDefine(s[i]))
  }

  function Encode(s: seq<LogDefine>): Node {
    Array(EncodeDefines(s))
  }

  // -------------------------------------------------------------- decoding

  /** Reading a part of a node: it may be absent, or reading it may throw. */
  datatype Reading<T> = Absent | Found(value: T) | Thrown

  function Find(entries: seq<Entry>, key: string): (r: Reading<Node>)
    ensures !r.Thrown?
  {
    if entries == [] then Absent
    else if entries[0].key == key then Found(entries[0].value)
    else Find(entries[1..], key)
  }

  /** `node[key]`: indexing a scalar throws, and so does nothing else. */
  function Child(node: Node, key: string): (r: Reading<Node>)
    ensures r.Thrown? <==> node.Scalar?
  {
    match node
    case Scalar(_) => Thrown
    case Mapping(entries) => Find(entries, key)
    case _ => Absent
  }

  function Text(node: Node, key: string): Reading<string> {
    match Child(node, key)
    case Found(Scalar(text)) => Found(text)
    case Absent => Absent
    case _ => Thrown
  }

  function OrEmpty(r: Reading<string>): string {
    if r.Found? then r.value else ""
  }

  function DecodeAppender(a: Node): Reading<AppenderDefine> {
    match Text(a, "type")
    case Absent => Absent
    case Thrown => Thrown
    case Found(kind) =>
      if kind == "FileLogAppender" then
        var file := Text(a, "file");
        if !file.Found? then (if file.Absent? then Absent else Thrown)
        else
          var formatter := Text(a, "formatter");
          if formatter.Thrown? then Thrown
          else Found(AppenderDefine(FILE, UNKNOWN, OrEmpty(formatter), file.value))
      else if kind == "StdoutLogAppender" then Found(AppenderDefine(STDOUT, UNKNOWN, "", ""))
      else Found(AppenderDefine(0, UNKNOWN, "", ""))
  }

  /** The elements that are found, in order, unless some element throws. */
  function Collect<T>(rs: seq<Reading<T>>): (r: Reading<seq<T>>)
    ensures !r.Absent?
  {
    if rs == [] then Found([])
    else
      var front, last := Collect(rs[..|rs| - 1]), rs[|rs| - 1];
      if front.Thrown? || last.Thrown? then Thrown
      else if last.Absent? then front
      else Found(front.value + [last.value])
  }

  function DecodeAppenders(items: seq<Node>): (r: seq<Reading<AppenderDefine>>)
    ensures |r| == |items|
  {
    seq(|items|, i requires 0 <= i < |items| => DecodeAppender(items[i]))
  }

  function DecodeAppenderList(n: Node): Reading<seq<AppenderDefine>> {
    match Child(n, "appenders")
    case Absent => Found([])
    case Thrown => Thrown
    case Found(list) => if Items(list).None? then Thrown else Collect(DecodeAppenders(Items(list).value))
  }

  function DecodeDefine(n: Node): Reading<LogDefine> {
    match Text(n, "name")
    case Absent => Absent
    case Thrown => Thrown
    case Found(name) =>
      var level, formatter, appenders := Text(n, "level"), Text(n, "formatter"), DecodeAppenderList(n);
      if level.Thrown? || formatter.Thrown? || !appenders.Found? then Thrown
      else Found(LogDefine(name, LevelFromString(OrEmpty(level)), OrEmpty(formatter), appenders.value))
  }

  function DecodeItems(items: seq<Node>): (r: Reading<seq<LogDefine>>)
    ensures !r.Absent?
  {
    if items == [] then Found([])
    else
      var front, last := DecodeItems(items[..|items| - 1]), DecodeDefine(items[|items| - 1]);
      if front.Thrown? || last.Thrown? then Thrown
      else if last.Absent? then front
      else Found(Insert(front.value, last.value))
  }

  function Decode(node: Node): Reading<seq<LogDefine>> {
    if Items(node).None? then Thrown else DecodeItems(Items(node).value)
  }

  // ------------------------------------------------- what a round trip preserves

  predicate Survives(a: AppenderDefine) {
    a.kind == FILE || a.kind == STDOUT
  }

  function NormalAppender(a: AppenderDefine): AppenderDefine {
    if a.kind == FILE then a.(level := UNKNOWN) else AppenderDefine(a.kind, UNKNOWN, "", "")
  }

  function NormalAppenders(appenders: seq<AppenderDefine>): seq<AppenderDefine> {
    if appenders == [] then []
    else
      var front, last := NormalAppenders(appenders[..|appenders| - 1]), appenders[|appenders| - 1];
      if Survives(last) then front + [NormalAppender(last)] else front
  }

  /** Names, formatters, files and file formatters survive; levels, stdout formatters
      and appenders of other types do not. */
  function Normal(d: LogDefine): LogDefine {
    LogDefine(d.name, UNKNOWN, d.formatter, NormalAppenders(d.appenders))
  }

  function NormalSet(s: seq<LogDefine>): (r: seq<LogDefine>)
    ensures |r| == |s|
  {
    seq(|s|, i requires 0 <= i < |s| => Normal(s[i]))
  }

  lemma AppenderRoundTrip(a: AppenderDefine)
    ensures DecodeAppender(EncodeAppender(a)) == if Survives(a) then Found(NormalAppender(a)) else Absent
  {
    var t, f := Field("type", KindName(a.kind), Survives(a)), Field("file", a.file, a.kind == FILE);
    var l, m := Field("level", LevelToString(a.level), a.level != UNKNOWN),
        Field("formatter", a.formatter, a.formatter != "");
    FindInDefine(t, f, l, m, "type");
    FindInDefine(t, f, l, m, "file");
    FindInDefine(t, f, l, m, "formatter");
  }

  /** A field is found in front of a list or looked for behind it. */
  lemma FindInFields(field: seq<Entry>, rest: seq<Entry>, key: string)
    requires |field| <= 1
    ensures Find(field + rest, key) == if Find(field, key).Found? then Find(field, key) else Find(rest, key)
  {
    if field == [] { assert field + rest == rest; } else { assert (field + rest)[1..] == rest; }
  }

  lemma {:induction false} AppendersRoundTrip(appenders: seq<AppenderDefine>)
    ensures Collect(DecodeAppenders(EncodeAppenders(appenders))) == Found(NormalAppenders(appenders))
  {
    if appenders != [] {
      var front, last := appenders[..|appenders| - 1], appenders[|appenders| - 1];
      var rs := DecodeAppenders(EncodeAppenders(appenders));
      AppendersRoundTrip(front);
      AppenderRoundTrip(last);
      assert rs[..|rs| - 1] == DecodeAppenders(EncodeAppenders(front));
    }
  }

  lemma DefineRoundTrip(d: LogDefine)
    ensures DecodeDefine(EncodeDefine(d)) == Found(Normal(d))
  {
    var n, l := [Entry("name", Scalar(d.name))], Field("level", LevelToString(d.level), d.level == UNKNOWN);
    var f := Field("formatter", d.formatter, d.formatter != "");
    var a := if d.appenders == [] then [] else [Entry("appenders", Sequence(EncodeAppenders(d.appenders)))];
    hide DecodeAppenders, EncodeAppenders, Collect;
    FindInDefine(n, l, f, a, "name");
    FindInDefine(n, l, f, a, "level");
    FindInDefine(n, l, f, a, "formatter");
    FindInDefine(n, l, f, a, "appenders");
    AppendersRoundTrip(d.appenders);
  }

  lemma FindInDefine(n: seq<Entry>, l: seq<Entry>, f: seq<Entry>, a: seq<Entry>, key: string)
    requires |n| <= 1 && |l| <= 1 && |f| <= 1
    ensures var r := Find(n + l + f + a, key);
            r == if Find(n, key).Found? then Find(n, key)
                 else if Find(l, key).Found? then Find(l, key)
                 else if Find(f, key).Found? then Find(f, key)
                 else Find(a, key)
  {
    hide Find;
    Associative(n + l, f, a);
    Associative(n, l, f + a);
    FindInFields(n, l + (f + a), key);
    FindInFields(l, f + a, key);
    FindInFields(f, a, key);
  }

  lemma {:induction false} ItemsRoundTrip(s: seq<LogDefine>)
    requires Ascending(s)
    ensures DecodeItems(EncodeDefines(s)) == Found(NormalSet(s))
  {
    if s != [] {
      var front, last := s[..|s| - 1], s[|s| - 1];
      assert s == front + [last];
      DefinesSnoc(front, last);
      NormalBelow(front, last);
      hide DecodeItems, DecodeDefine, EncodeDefine, EncodeDefines, Normal, NormalSet, Insert, Ascending, Less;
      ItemsRoundTrip(front);
      DefineRoundTrip(last);
      InsertAtEnd(NormalSet(front), Normal(last));
      DecodeSnoc(EncodeDefines(front), EncodeDefine(last), NormalSet(front), Normal(last));
    }
  }

  lemma NormalBelow(front: seq<LogDefine>, last: LogDefine)
    requires Ascending(front + [last])
    ensures Ascending(front) && forall x | x in NormalSet(front) :: Less(x.name, Normal(last).name)
  {
    hide NormalAppenders, Less;
    var s := front + [last];
    assert forall i | 0 <= i < |front| :: s[i] == front[i];
    forall i | 0 <= i < |front| ensures Less(NormalSet(front)[i].name, Normal(last).name) {
      assert Less(s[i].name, s[|front|].name);
    }
  }

  lemma DefinesSnoc(front: seq<LogDefine>, last: LogDefine)
    ensures EncodeDefines(front + [last]) == EncodeDefines(front) + [EncodeDefine(last)]
    ensures NormalSet(front + [last]) == NormalSet(front) + [Normal(last)]
  {
    hide EncodeDefine, Normal;
  }

  lemma DecodeSnoc(items: seq<Node>, n: Node, defs: seq<LogDefine>, d: LogDefine)
    requires DecodeItems(items) == Found(defs) && DecodeDefine(n) == Found(d)
    ensures DecodeItems(items + [n]) == Found(Insert(defs, d))
  {
    hide DecodeDefine, Insert;
    assert (items + [n])[..|items|] == items;
  }

  /** Decoding what was encoded gives the normal form, for every set. */
  lemma EncodeThenDecode(s: seq<LogDefine>)
    requires Ascending(s)
    ensures Decode(Encode(s)) == Found(NormalSet(s)) && Ascending(NormalSet(s))
  {
    ItemsRoundTrip(s);
    if s != [] { assert EncodeDefines(s) != []; } else { assert EncodeDefines(s) == []; }
  }

  /** The definitions a round trip returns unchanged. */
  predicate IsPlain(d: LogDefine) {
    d.level == UNKNOWN && forall a | a in d.appenders ::
      a.level == UNKNOWN && (a.kind == FILE || (a.kind == STDOUT && a.formatter == "" && a.file == ""))
  }

  lemma {:induction false} NormalAppendersIsIdentityIff(appenders: seq<AppenderDefine>)
    ensures |NormalAppenders(appenders)| <= |appenders|
    ensures NormalAppenders(appenders) == appenders <==>
            forall a | a in appenders :: Survives(a) && NormalAppender(a) == a
    ensures forall a | a in NormalAppenders(appenders) :: Survives(a) && NormalAppender(a) == a
  {
    if appenders != [] {
      var front, last := appenders[..|appenders| - 1], appenders[|appenders| - 1];
      NormalAppendersIsIdentityIff(front);
      assert appenders == front + [last];
    }
  }

  lemma NormalIsIdentityIff(d: LogDefine)
    ensures Normal(d) == d <==> IsPlain(d)
    ensures IsPlain(Normal(d))
  {
    NormalAppendersIsIdentityIff(d.appenders);
  }

  /** The value survives dumping and loading exactly when every definition is plain:
      no level, no other appender type, nothing extra on a stdout appender. */
  lemma RoundTripIsExactIff(s: seq<LogDefine>)
    requires Ascending(s)
    ensures Decode(Encode(s)) == Found(s) <==> forall d | d in s :: IsPlain(d)
  {
    EncodeThenDecode(s);
    forall i | 0 <= i < |s| ensures NormalSet(s)[i] == s[i] <==> IsPlain(s[i]) {
      NormalIsIdentityIff(s[i]);
    }
    hide IsPlain, Normal;
    if forall d | d in s :: IsPlain(d) {
      assert NormalSet(s) == s;
    } else {
      var d :| d in s && !IsPlain(d);
      var i :| 0 <= i < |s| && s[i] == d;
      assert NormalSet(s)[i] != s[i];
    }
  }

  /** A second round trip changes nothing more. */
  lemma RoundTripIsIdempotent(s: seq<LogDefine>)
    requires Ascending(s)
    ensures var once := Decode(Encode(s)); once.Found? && Ascending(once.value) && Decode(Encode(once.value)) == once
  {
    EncodeThenDecode(s);
    forall d | d in NormalSet(s) ensures IsPlain(d) {
      var i :| 0 <= i < |s| && NormalSet(s)[i] == d;
      NormalIsIdentityIff(s[i]);
    }
    RoundTripIsExactIff(NormalSet(s));
  }

  /** A configured level is lost, so the written form does not describe the value. */
  lemma ALevelIsLost()
    ensures var s := [LogDefine("root", ERROR, "", [])];
            Ascending(s) && Decode(Encode(s)) == Found([LogDefine("root", UNKNOWN, "", [])])
  {
    var s := [LogDefine("root", ERROR, "", [])];
    EncodeThenDecode(s);
    assert NormalSet(s) == [Normal(s[0])];
  }

  // --------------------------------------------- what any document decodes to

  /** `d` is the definition at index `k`, and no earlier one has its name. */
  ghost predicate IsFirstOfItsName(items: seq<Node>, k: nat, d: LogDefine) {
    && k < |items| && DecodeDefine(items[k]) == Found(d)
    && forall j | 0 <= j < k && DecodeDefine(items[j]).Found? :: DecodeDefine(items[j]).value.name != d.name
  }

  ghost predicate IsListed(items: seq<Node>, d: LogDefine) {
    exists k: nat :: IsFirstOfItsName(items, k, d)
  }

  lemma {:induction false} SomeNameIsListed(items: seq<Node>, k: nat)
    requires k < |items| && DecodeDefine(items[k]).Found?
    ensures exists d :: IsListed(items, d) && d.name == DecodeDefine(items[k]).value.name
  {
    var d := DecodeDefine(items[k]).value;
    if j: nat :| j < k && DecodeDefine(items[j]).Found? && DecodeDefine(items[j]).value.name == d.name {
      SomeNameIsListed(items, j);
    } else {
      assert IsFirstOfItsName(items, k, d);
    }
  }

  lemma ListedInSnoc(front: seq<Node>, last: Node, d: LogDefine)
    ensures IsListed(front + [last], d) <==>
            IsListed(front, d) || (DecodeDefine(last) == Found(d) && forall e | IsListed(front, e) :: e.name != d.name)
  {
    var items := front + [last];
    if k: nat :| IsFirstOfItsName(front, k, d) {
      assert IsFirstOfItsName(items, k, d);
    }
    if k: nat :| IsFirstOfItsName(items, k, d) {
      if k < |front| {
        assert forall j | 0 <= j <= k :: items[j] == front[j];
        assert IsFirstOfItsName(front, k, d);
      } else {
        forall e | IsListed(front, e) ensures e.name != d.name {
          var j: nat :| IsFirstOfItsName(front, j, e);
          assert items[j] == front[j];
        }
      }
    }
    if DecodeDefine(last) == Found(d) && forall e | IsListed(front, e) :: e.name != d.name {
      forall j | 0 <= j < |front| && DecodeDefine(items[j]).Found? ensures DecodeDefine(items[j]).value.name != d.name {
        SomeNameIsListed(front, j);
      }
      assert IsFirstOfItsName(items, |front|, d);
    }
  }

  /** Of several definitions with one name the first wins; decoding fails exactly when
      reading some element does. */
  lemma {:induction false} DecodeKeepsTheFirst(items: seq<Node>)
    ensures DecodeItems(items).Thrown? <==> exists n | n in items :: DecodeDefine(n).Thrown?
    ensures var r := DecodeItems(items);
            r.Found? ==> Ascending(r.value) && forall d :: d in r.value <==> IsListed(items, d)
  {
    if items != [] {
      var front, last := items[..|items| - 1], items[|items| - 1];
      DecodeKeepsTheFirst(front);
      assert items == front + [last];
      hide DecodeDefine, IsListed, Insert;
      var before, d := DecodeItems(front), DecodeDefine(last);
      if before.Found? {
        forall e { ListedInSnoc(front, last, e); }
        if d.Found? { InsertKeepsTheFirst(before.value, d.value); }
      }
    }
  }

  /** Whatever the document, a decoded appender has no level of its own, and only a
      file appender has a formatter or a file. */
  predicate IsDecodedAppender(a: AppenderDefine) {
    && a.level == UNKNOWN && 0 <= a.kind <= 2
    && (a.kind != FILE ==> a.formatter == "" && a.file == "")
  }

  lemma {:induction false} CollectedAppenders(items: seq<Node>)
    ensures var r := Collect(DecodeAppenders(items)); r.Found? ==> forall a | a in r.value :: IsDecodedAppender(a)
  {
    if items != [] {
      var front := items[..|items| - 1];
      CollectedAppenders(front);
      assert DecodeAppenders(items)[..|items| - 1] == DecodeAppenders(front);
    }
  }

  lemma DecodedDefine(n: Node)
    requires DecodeDefine(n).Found?
    ensures var d := DecodeDefine(n).value;
            UNKNOWN <= d.level <= FATAL && forall a | a in d.appenders :: IsDecodedAppender(a)
  {
    var list := Child(n, "appenders");
    if list.Found? && Items(list.value).Some? { CollectedAppenders(Items(list.value).value); }
  }

  /** A document can only produce these values, and dumping what was loaded gives a
      document that loads as the same value exactly when nothing had a level and every
      appender type was known. */
  lemma LoadedValuesRoundTripIff(node: Node)
    requires Decode(node).Found?
    ensures var s := Decode(node).value;
            && Ascending(s)
            && (forall d | d in s :: forall a | a in d.appenders :: IsDecodedAppender(a))
            && (Decode(Encode(s)) == Decode(node) <==>
                forall d | d in s :: d.level == UNKNOWN && forall a | a in d.appenders :: a.kind != 0)
  {
    var items, s := Items(node).value, Decode(node).value;
    DecodeKeepsTheFirst(items);
    forall d | d in s ensures forall a | a in d.appenders :: IsDecodedAppender(a) {
      var k: nat :| IsFirstOfItsName(items, k, d);
      DecodedDefine(items[k]);
    }
    RoundTripIsExactIff(s);
    hide Decode, Encode, Ascending, IsListed;
    forall d | d in s ensures IsPlain(d) <==> d.level == UNKNOWN && forall a | a in d.appenders :: a.kind != 0 {}
  }

  // ------------------------------------------- the converters as the loops they are

  method EncodeAll(v: seq<LogDefine>) returns (node: Node)
    ensures node == Encode(v)
  {
    var items := [];
    for i := 0 to |v|
      invariant items == EncodeDefines(v)[..i]
    {
      var fields := [Entry("name", Scalar(v[i].name))];
      if v[i].level == UNKNOWN {
        fields := fields + [Entry("level", Scalar(LevelToString(v[i].level)))];
      }
      if v[i].formatter != "" {
        fields := fields + [Entry("formatter", Scalar(v[i].formatter))];
      }
      var appenders := EncodeEachAppender(v[i].appenders);
      if appenders != [] {
        fields := fields + [Entry("appenders", Sequence(appenders))];
      }
      assert Mapping(fields) == EncodeDefine(v[i]);
      items := items + [Mapping(fields)];
    }
    node := if items == [] then Null else Sequence(items);
  }

  method EncodeEachAppender(appenders: seq<AppenderDefine>) returns (items: seq<Node>)
    ensures items == EncodeAppenders(appenders)
  {
    hide EncodeAppender;
    items := [];
    for x := 0 to |appenders|
      invariant items == EncodeAppenders(appenders)[..x]
    {
      var na := EncodeOneAppender(appenders[x]);
      items := items + [na];
    }
  }

  method EncodeOneAppender(a: AppenderDefine) returns (na: Node)
    ensures na == EncodeAppender(a)
  {
    var fields := [];
    if a.kind == FILE {
      fields := [Entry("type", Scalar("FileLogAppender"))] + [Entry("file", Scalar(a.file))];
    } else if a.kind == STDOUT {
      fields := [Entry("type", Scalar("StdoutLogAppender"))];
    }
    if a.level != UNKNOWN {
      fields := fields + [Entry("level", Scalar(LevelToString(a.level)))];
    }
    if a.formatter != "" {
      fields := fields + [Entry("formatter", Scalar(a.formatter))];
    }
    na := Object(fields);
  }

  lemma {:induction false} ThrownStays(items: seq<Node>, k: nat)
    requires k < |items| && DecodeDefine(items[k]).Thrown?
    ensures DecodeItems(items).Thrown?
  {
    if k < |items| - 1 { ThrownStays(items[..|items| - 1], k); }
  }

  lemma FoundUnlessThrown(n: Node)
    requires Text(n, "name").Found? && !Text(n, "level").Thrown? && !Text(n, "formatter").Thrown?
    requires DecodeAppenderList(n).Found?
    ensures DecodeDefine(n) ==
            Found(LogDefine(Text(n, "name").value, LevelFromString(OrEmpty(Text(n, "level"))),
                            OrEmpty(Text(n, "formatter")), DecodeAppenderList(n).value))
  {}

  lemma {:induction false} CollectThrows<T>(rs: seq<Reading<T>>, k: nat)
    requires k < |rs| && rs[k].Thrown?
    ensures Collect(rs).Thrown?
  {
    if k < |rs| - 1 { CollectThrows(rs[..|rs| - 1], k); }
  }

  method DecodeAll(node: Node) returns (r: Reading<seq<LogDefine>>)
    ensures r == Decode(node)
  {
    if Items(node).None? { return Thrown; }
    var items, vec := Items(node).value, [];
    for i := 0 to |items|
      invariant DecodeItems(items[..i]) == Found(vec)
    {
      assert items[..i + 1][..i] == items[..i];
      var n := items[i];
      var name := Text(n, "name");
      if name.Absent? {
        assert DecodeDefine(n).Absent?;
        continue;
      }
      var level, formatter := Text(n, "level"), Text(n, "formatter");
      var appenders := Reading.Found([]);
      var list := Child(n, "appenders");
      if list.Found? {
        appenders := DecodeEachAppender(list.value);
      }
      assert !list.Thrown? ==> DecodeAppenderList(n) == appenders;
      if list.Thrown? { assert name.Thrown?; }
      if name.Thrown? || level.Thrown? || formatter.Thrown? || appenders.Thrown? {
        ThrownStays(items, i);
        return Thrown;
      }
      FoundUnlessThrown(n);
      vec := Insert(vec, LogDefine(name.value, LevelFromString(OrEmpty(level)), OrEmpty(formatter), appenders.value));
    }
    assert items[..|items|] == items;
    r := Found(vec);
  }

  method DecodeEachAppender(list: Node) returns (r: Reading<seq<AppenderDefine>>)
    ensures r == if Items(list).None? then Thrown else Collect(DecodeAppenders(Items(list).value))
    ensures !r.Absent?
  {
    if Items(list).None? { return Thrown; }
    var items, appenders := Items(list).value, [];
    ghost var rs := DecodeAppenders(items);
    for x := 0 to |items|
      invariant Collect(rs[..x]) == Found(appenders)
    {
      assert rs[..x + 1][..x] == rs[..x];
      var a := items[x];
      var kind := Text(a, "type");
      if kind.Absent? { continue; }
      if kind.Thrown? { CollectThrows(rs, x); return Thrown; }
      var lad := AppenderDefine(0, UNKNOWN, "", "");
      if kind.value == "FileLogAppender" {
        lad := lad.(kind := FILE);
        var file := Text(a, "file");
        if file.Absent? { continue; }
        var formatter := Text(a, "formatter");
        if file.Thrown? || formatter.Thrown? { CollectThrows(rs, x); return Thrown; }
        lad := lad.(file := file.value, formatter := OrEmpty(formatter));
      } else if kind.value == "StdoutLogAppender" {
        lad := lad.(kind := STDOUT);
      }
      appenders := appenders + [lad];
    }
    assert rs[..|items|] == rs;
    r := Found(appenders);
  }
}
