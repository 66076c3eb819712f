/** `LogFormatter` (chord/log.h:92-117, chord/logger.cpp:471-629): the scanner
    written as the source writes it, proved to compute `PatternLaws.Compile`. */
module LogFormatters {
  import opened Pattern
  import opened PatternLaws
  import opened Sequences

  /** The source's (str, format, type) triples. */
  type Triple = (string, string, int)

  function ToTriple(t: Token): Triple {
    match t
    case Literal(text) => (text, "", 0)
    case Item(name, arg, _) => (name, arg, 1)
    case Marker => ("<<pattern_error>>", "", 0)
  }

  function ToTriples(ts: seq<Token>): (r: seq<Triple>)
    ensures |r| == |ts|
  {
    seq(|ts|, k requires 0 <= k < |ts| => ToTriple(ts[k]))
  }

  /** The pending literal is pushed only when it is not empty. */
  function Pushed(vec: seq<Triple>, nstr: string): seq<Triple> {
    if nstr != "" then vec + [(nstr, "", 0)] else vec
  }

  lemma PushThenItem(vec: seq<Triple>, nstr: string, t: Triple, todo: seq<Triple>)
    ensures vec + (Pushed([], nstr) + [t] + todo) == Pushed(vec, nstr) + [t] + todo
  {
    var flushed := Pushed([], nstr);
    Associative(vec, flushed + [t], todo);
    Associative(vec, flushed, [t]);
    assert vec + flushed == Pushed(vec, nstr);
  }

  /** The piece at index `i`, where it ends, and the inner iterations it takes. */
  function PieceAt(p: string, i: nat): Piece
    requires i < |p|
  {
    FirstPiece(p[i..])
  }

  function NextIndex(p: string, i: nat): (n: nat)
    requires i < |p|
    ensures i < n <= |p|
  {
    i + |Source(PieceAt(p, i))|
  }

  function CostAt(p: string, i: nat): nat
    requires i < |p|
  {
    DirectiveCost(p[i..])
  }

  /** The source reads a directive here: a percent sign not followed by another. */
  predicate AtDirective(p: string, i: nat) {
    i < |p| && p[i] == '%' && (i + 1 < |p| ==> p[i + 1] != '%')
  }

  lemma UnbracedAt(p: string, i: nat, n: nat)
    requires i < n <= |p| && AtDirective(p, i)
    requires forall k | i < k < n :: IsNameChar(p[k])
    requires n < |p| ==> !IsNameChar(p[n]) && p[n] != '{'
    ensures PieceAt(p, i) == Directive(p[i + 1..n], "", false) && NextIndex(p, i) == n
    ensures CostAt(p, i) == if n == |p| then n - i - 1 else n - i
  {
    var s, e := p[i..], n - i;
    assert s[1..e] == p[i + 1..n];
    ReadsUnbraced(s, e);
    NameLengthIs(s[1..], e - 1);
    SourceLayout(p[i + 1..n], "", false);
  }

  lemma CostOfBraced(s: string, e: nat, c: nat)
    requires 0 < e < c < |s| && s[e] == '{' && s[c] == '}'
    requires forall k | 0 < k < e :: IsNameChar(s[k])
    requires forall k | e < k < c :: s[k] != '}'
    ensures DirectiveCost(s) == c
  {
    NameLengthIs(s[1..], e - 1);
    CloseIndexIs(s[e + 1..], c - e - 1);
  }

  lemma BracedAt(p: string, i: nat, b: nat, n: nat)
    requires i < b < n < |p| && AtDirective(p, i) && p[b] == '{' && p[n] == '}'
    requires forall k | i < k < b :: IsNameChar(p[k])
    requires forall k | b < k < n :: p[k] != '}'
    ensures PieceAt(p, i) == Directive(p[i + 1..b], p[b + 1..n], true) && NextIndex(p, i) == n + 1
    ensures CostAt(p, i) == n - i
  {
    var s, e, c := p[i..], b - i, n - i;
    assert s[1..e] == p[i + 1..b] && s[e + 1..c] == p[b + 1..n];
    ReadsBraced(s, e, c);
    SourceLayout(p[i + 1..b], p[b + 1..n], true);
    CostOfBraced(s, e, c);
    hide FirstPiece, Source, DirectiveCost;
  }

  lemma UnterminatedAt(p: string, i: nat, b: nat)
    requires i < b < |p| && AtDirective(p, i) && p[b] == '{'
    requires forall k | i < k < b :: IsNameChar(p[k])
    requires forall k | b < k < |p| :: p[k] != '}'
    ensures PieceAt(p, i) == Unterminated && NextIndex(p, i) == i + 1
    ensures CostAt(p, i) == |p| - i - 1
  {
    var s, e := p[i..], b - i;
    ReadsUnterminated(s, e);
    NameLengthIs(s[1..], e - 1);
    CloseIndexIs(s[e + 1..], |s| - e - 1);
  }

  /** What the inner loop leaves behind describes the piece at `i`. */
  ghost predicate HasRead(p: string, i: nat, n: nat, str: string, fmt: string, fmtStatus: int, steps: nat)
    requires i < |p|
  {
    && steps == CostAt(p, i)
    && var d := PieceAt(p, i);
    && (fmtStatus == 0 ==> d.Directive? && d.name == str && d.arg == fmt && n == NextIndex(p, i))
    && (fmtStatus != 0 ==> d.Unterminated? && fmtStatus == 1 && fmt == "")
  }

  /** The inner loop: reads the directive whose percent sign is at `i`. */
  method ScanDirective(p: string, i: nat)
    returns (n: nat, str: string, fmt: string, fmtStatus: int, ghost steps: nat)
    requires AtDirective(p, i)
    ensures i < n <= |p|
    ensures HasRead(p, i, n, str, fmt, fmtStatus, steps)
  {
    hide PieceAt, NextIndex, CostAt;
    n, fmtStatus, str, fmt, steps := i + 1, 0, "", "", 0;
    var fmtBegin := 0;
    ghost var stopped := false;
    while n < |p|
      invariant i < n <= |p|
      invariant !stopped && fmt == "" && steps == n - i - 1
      invariant fmtStatus == 0 || fmtStatus == 1
      invariant fmtStatus == 0 ==> forall k | i < k < n :: IsNameChar(p[k])
      invariant fmtStatus == 0 ==> str == if n == |p| then p[i + 1..] else ""
      invariant fmtStatus == 1 ==>
        && i < fmtBegin < n && p[fmtBegin] == '{'
        && (forall k | i < k < fmtBegin :: IsNameChar(p[k]))
        && (forall k | fmtBegin < k < n :: p[k] != '}')
        && (n < |p| ==> str == p[i + 1..fmtBegin])
    {
      steps := steps + 1;
      if fmtStatus == 0 && !IsAlpha(p[n]) && p[n] != '{' && p[n] != '}' {
        str := p[i + 1..n];
        UnbracedAt(p, i, n);
        stopped := true;
        break;
      }
      if fmtStatus == 0 {
        if p[n] == '{' {
          str := p[i + 1..n];
          fmtStatus, fmtBegin := 1, n;
          n := n + 1;
          continue;
        }
      } else if fmtStatus == 1 {
        if p[n] == '}' {
          fmt := p[fmtBegin + 1..n];
          BracedAt(p, i, fmtBegin, n);
          fmtStatus := 0;
          n := n + 1;
          stopped := true;
          break;
        }
      }
      n := n + 1;
      if n == |p| {
        if str == "" {
          str := p[i + 1..];
        }
      }
    }
    if !stopped {
      if fmtStatus == 0 {
        UnbracedAt(p, i, n);
      } else {
        UnterminatedAt(p, i, fmtBegin);
      }
    }
  }

  lemma TriplesAppend(ts: seq<Token>, us: seq<Token>)
    ensures ToTriples(ts + us) == ToTriples(ts) + ToTriples(us)
  {}

  /** What the scan still has to emit from index `i` with `nstr` pending. */
  function Todo(p: string, i: nat, nstr: string): seq<Triple>
    requires i <= |p|
  {
    ToTriples(Group(Lex(p[i..]), nstr))
  }

  /** Whether an unterminated brace lies at or after index `i`. */
  ghost predicate Broken(p: string, i: nat)
    requires i <= |p|
  {
    Unterminated in Lex(p[i..])
  }

  /** Inner iterations still to come from index `i`. */
  function CostFrom(p: string, i: nat): nat
    requires i <= |p|
  {
    ScanCost(p[i..])
  }

  lemma SuffixAt(p: string, i: nat)
    requires i < |p|
    ensures p[i..][|Source(FirstPiece(p[i..]))|..] == p[NextIndex(p, i)..]
    ensures StartsDirective(p[i..]) <==> AtDirective(p, i)
  {
    hide FirstPiece, Source;
  }

  lemma LexAt(p: string, i: nat)
    requires i < |p|
    ensures Lex(p[i..]) == [PieceAt(p, i)] + Lex(p[NextIndex(p, i)..])
    ensures Broken(p, i) <==> PieceAt(p, i).Unterminated? || Broken(p, NextIndex(p, i))
    ensures CostFrom(p, i) == (if AtDirective(p, i) then CostAt(p, i) else 0) + CostFrom(p, NextIndex(p, i))
  {
    LexUnfolds(p[i..]);
    CostUnfolds(p[i..]);
    SuffixAt(p, i);
    hide FirstPiece, Source, DirectiveCost, Lex, ScanCost, StartsDirective, AtDirective;
  }

  lemma TriplesOfFlush(nstr: string, t: Token)
    ensures ToTriples(Flush(nstr) + [t]) == Pushed([], nstr) + [ToTriple(t)]
  {}

  lemma TriplesOfMarker()
    ensures ToTriples([Marker]) == [("<<pattern_error>>", "", 0)]
  {}

  lemma TodoStep(p: string, i: nat, nstr: string)
    requires i < |p|
    ensures var next := NextIndex(p, i);
            Todo(p, i, nstr) ==
            match PieceAt(p, i)
            case Char(c) => Todo(p, next, nstr + [c])
            case Directive(name, arg, _) => Pushed([], nstr) + [(name, arg, 1)] + Todo(p, next, "")
            case Unterminated => [("<<pattern_error>>", "", 0)] + Todo(p, next, nstr)
  {
    LexAt(p, i);
    var piece, rest := PieceAt(p, i), Lex(p[NextIndex(p, i)..]);
    hide PieceAt, NextIndex, Lex, ToTriples, Flush, Pushed;
    assert ([piece] + rest)[1..] == rest;
    match piece
    case Char(c) =>
    case Directive(name, arg, braced) =>
      var t := Item(name, arg, braced);
      TriplesAppend(Flush(nstr) + [t], Group(rest, ""));
      TriplesOfFlush(nstr, t);
    case Unterminated =>
      TriplesAppend([Marker], Group(rest, nstr));
      TriplesOfMarker();
  }

  lemma CharAt(p: string, i: nat)
    requires i < |p| && !AtDirective(p, i)
    ensures PieceAt(p, i) == Char(p[i]) && NextIndex(p, i) == i + 1
  {
    assert i + 1 < |p| ==> p[i..][1] == p[i + 1];
  }

  /** What holds whenever the outer loop is about to look at index `i`. */
  ghost predicate Scanning(p: string, i: nat, nstr: string, vec: seq<Triple>, error: bool, steps: nat) {
    && i <= |p|
    && vec + Todo(p, i, nstr) == ToTriples(Tokens(p))
    && ((error || Broken(p, i)) <==> Unterminated in Lex(p))
    && steps + CostFrom(p, i) == ScanCost(p)
  }

  lemma ScanStarts(p: string)
    ensures Scanning(p, 0, "", [], false, 0)
  {
    assert p[0..] == p;
  }

  lemma ScanChar(p: string, i: nat, nstr: string, vec: seq<Triple>, error: bool, steps: nat)
    requires Scanning(p, i, nstr, vec, error, steps)
    requires i < |p| && !AtDirective(p, i)
    ensures Scanning(p, i + 1, nstr + [p[i]], vec, error, steps)
  {
    CharAt(p, i);
    LexAt(p, i);
    TodoStep(p, i, nstr);
    hide Todo, Broken, CostFrom, PieceAt, NextIndex, ToTriples, Tokens, Lex;
  }

  lemma ScanItem(p: string, i: nat, nstr: string, vec: seq<Triple>, error: bool, steps: nat,
                 n: nat, str: string, fmt: string, cost: nat)
    requires Scanning(p, i, nstr, vec, error, steps)
    requires AtDirective(p, i) && HasRead(p, i, n, str, fmt, 0, cost)
    ensures Scanning(p, n, "", Pushed(vec, nstr) + [(str, fmt, 1)], error, steps + cost)
  {
    LexAt(p, i);
    TodoStep(p, i, nstr);
    PushThenItem(vec, nstr, (str, fmt, 1), Todo(p, n, ""));
    hide Todo, Broken, CostFrom, PieceAt, NextIndex, ToTriples, Tokens, Lex, Pushed, CostAt;
  }

  lemma ScanMarker(p: string, i: nat, nstr: string, vec: seq<Triple>, error: bool, steps: nat,
                   n: nat, str: string, fmt: string, fmtStatus: int, cost: nat)
    requires Scanning(p, i, nstr, vec, error, steps)
    requires AtDirective(p, i) && HasRead(p, i, n, str, fmt, fmtStatus, cost) && fmtStatus != 0
    ensures Scanning(p, i + 1, nstr, vec + [("<<pattern_error>>", fmt, 0)], true, steps + cost)
  {
    LexAt(p, i);
    TodoStep(p, i, nstr);
    Associative(vec, [("<<pattern_error>>", "", 0)], Todo(p, i + 1, nstr));
    hide Todo, Broken, CostFrom, PieceAt, ToTriples, Tokens, Lex, CostAt;
  }

  lemma AtEnd(p: string, nstr: string)
    ensures Todo(p, |p|, nstr) == if nstr != "" then [(nstr, "", 0)] else []
    ensures !Broken(p, |p|) && CostFrom(p, |p|) == 0
  {
    assert p[|p|..] == "";
  }

  lemma ScanEnds(p: string, nstr: string, vec: seq<Triple>, error: bool, steps: nat)
    requires Scanning(p, |p|, nstr, vec, error, steps)
    ensures Pushed(vec, nstr) == ToTriples(Tokens(p))
    ensures error <==> Unterminated in Lex(p)
    ensures steps == ScanCost(p)
  {
    AtEnd(p, nstr);
    hide Todo, Broken, CostFrom, Lex, Tokens, ToTriples, ScanCost;
    if nstr == "" { assert vec + [] == vec; }
  }

  /** The outer loop. The source's `i` is advanced by the `for` header after each
      body, so `i = n - 1` there is `i := n` here. */
  method Scan(p: string) returns (vec: seq<Triple>, error: bool, ghost steps: nat)
    ensures vec == ToTriples(Tokens(p))
    ensures error <==> Unterminated in Lex(p)
    ensures steps == ScanCost(p)
  {
    vec, error, steps := [], false, 0;
    var nstr, i := "", 0;
    ScanStarts(p);
    hide HasRead, Scanning, Pushed, Lex, Tokens, ToTriples, ScanCost;
    while i < |p|
      invariant i <= |p|
      invariant Scanning(p, i, nstr, vec, error, steps)
    {
      if p[i] != '%' {
        ScanChar(p, i, nstr, vec, error, steps);
        nstr := nstr + [p[i]];
        i := i + 1;
      } else if i + 1 < |p| && p[i + 1] == '%' {
        ScanChar(p, i, nstr, vec, error, steps);
        nstr := nstr + ['%'];
        i := i + 1;
      } else {
        var n, str, fmt, fmtStatus;
        ghost var cost;
        n, str, fmt, fmtStatus, cost := ScanDirective(p, i);
        if fmtStatus == 0 {
          ScanItem(p, i, nstr, vec, error, steps, n, str, fmt, cost);
          vec := Pushed(vec, nstr) + [(str, fmt, 1)];
          nstr := "";
          i := n;
        } else {
          ScanMarker(p, i, nstr, vec, error, steps, n, str, fmt, fmtStatus, cost);
          error := true;
          vec := vec + [("<<pattern_error>>", fmt, 0)];
          i := i + 1;
        }
        steps := steps + cost;
      }
    }
    ScanEnds(p, nstr, vec, error, steps);
    vec := Pushed(vec, nstr);
  }

  lemma {:induction false} MarkersOfGroup(ps: seq<Piece>, pending: string)
    ensures Marker in Group(ps, pending) <==> Unterminated in ps
  {
    if ps != [] {
      var (first, next) := GroupStep(ps, pending);
      MarkersOfGroup(ps[1..], next);
      assert ps == [ps[0]] + ps[1..];
      assert Marker in first <==> ps[0].Unterminated?;
    }
  }

  /** The items built from the first `k` tokens. */
  ghost predicate Building(ts: seq<Token>, k: nat, items: seq<FormatItem>, error: bool) {
    && k <= |ts|
    && items == ToItems(ts)[..k]
    && (error <==> Marker in ts || exists j | 0 <= j < k :: IsFault(ts[j]))
  }

  lemma BuildStep(ts: seq<Token>, k: nat, items: seq<FormatItem>, error: bool)
    requires k < |ts| && Building(ts, k, items, error)
    ensures k < |ToTriples(ts)| && ToTriples(ts)[k] == ToTriple(ts[k])
    ensures var (str, fmt, kind) := ToTriple(ts[k]);
            var ok := kind == 0 || str in TABLE;
            var item := if kind == 0 then StringItem(str)
                        else if ok then TableItem(str, fmt)
                        else StringItem("<<error_format %" + str + ">>");
            Building(ts, k + 1, items + [item], error || !ok)
  {
    assert ToItems(ts)[..k + 1] == ToItems(ts)[..k] + [ToItem(ts[k])];
  }

  lemma ScanFacts(p: string)
    ensures 4 * ScanCost(p) <= |p| * |p|
    ensures Marker !in Tokens(p) ==> ScanCost(p) <= |p|
    ensures Building(Tokens(p), 0, [], Unterminated in Lex(p))
    ensures forall items, error :: Building(Tokens(p), |Tokens(p)|, items, error) ==>
            Compiled(items, error) == Compile(p)
  {
    MarkersOfGroup(Lex(p), "");
    QuadraticAtWorst(p);
    if Marker !in Tokens(p) { LinearWithoutUnterminated(p); }
    var ts := Tokens(p);
    hide Tokens, Lex;
    assert ToItems(ts)[..|ts|] == ToItems(ts);
    if Marker in ts { assert IsFault(Marker); }
  }

  class LogFormatter {
    const m_pattern: string
    var m_items: seq<FormatItem>
    var m_error: bool

    constructor (pattern: string)
      ensures m_pattern == pattern
      ensures Compiled(m_items, m_error) == Compile(pattern)
    {
      m_pattern, m_items, m_error := pattern, [], false;
      new;
      var _ := Init();
    }

    /** Builds `m_items` and `m_error`. The ghost result counts the iterations of
        the inner loop over the whole scan. */
    method Init() returns (ghost steps: nat)
      requires m_items == [] && !m_error
      modifies this`m_items, this`m_error
      ensures Compiled(m_items, m_error) == Compile(m_pattern)
      ensures 4 * steps <= |m_pattern| * |m_pattern|
      ensures Marker !in Tokens(m_pattern) ==> steps <= |m_pattern|
    {
      var vec;
      vec, m_error, steps := Scan(m_pattern);
      ghost var ts := Tokens(m_pattern);
      ScanFacts(m_pattern);
      hide Tokens, Lex, Compile, ScanCost, ToItem, ToItems, ToTriple, ToTriples, IsFault;
      for k := 0 to |vec|
        invariant Building(ts, k, m_items, m_error)
      {
        BuildStep(ts, k, m_items, m_error);
        var (str, fmt, kind) := vec[k];
        if kind == 0 {
          m_items := m_items + [StringItem(str)];
        } else {
          if str !in TABLE {
            m_items := m_items + [StringItem("<<error_format %" + str + ">>")];
            m_error := true;
          } else {
            m_items := m_items + [TableItem(str, fmt)];
          }
        }
      }
    }

    function IsError(): bool reads this { m_error }

    function GetPattern(): string { m_pattern }

    /** `format`: what each item writes, in order. */
    method Format(render: FormatItem -> string) returns (text: string)
      ensures text == Render(m_items, render)
    {
      text := "";
      hide Render;
      assert m_items[..0] == [];
      RenderInTurn([], StringItem(""), render);
      for i := 0 to |m_items|
        invariant text == Render(m_items[..i], render)
      {
        RenderInTurn(m_items[..i], m_items[i], render);
        assert m_items[..i + 1] == m_items[..i] + [m_items[i]];
        text := text + render(m_items[i]);
      }
      assert m_items[..|m_items|] == m_items;
    }
  }

}
