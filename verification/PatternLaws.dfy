/** Laws of pattern compilation: printing and compiling are inverse, compilation
    is a homomorphism, and the scanner's work is bounded. */
module PatternLaws {
  import opened Pattern
  import opened Sequences

  /** The eleven directive names of chord/logger.cpp:593-603. */
  const TABLE: set<string> := {"m", "p", "r", "c", "t", "n", "d", "f", "l", "F", "T"}

  datatype FormatItem = StringItem(text: string) | TableItem(name: string, arg: string)
  datatype Compiled = Compiled(items: seq<FormatItem>, error: bool)

  function ToItem(t: Token): FormatItem {
    match t
    case Literal(text) => StringItem(text)
    case Item(name, arg, _) =>
      if name in TABLE then TableItem(name, arg) else StringItem("<<error_format %" + name + ">>")
    case Marker => StringItem("<<pattern_error>>")
  }

  predicate IsFault(t: Token) {
    t.Marker? || (t.Item? && t.name !in TABLE)
  }

  function ToItems(ts: seq<Token>): (r: seq<FormatItem>)
    ensures |r| == |ts|
  {
    seq(|ts|, k requires 0 <= k < |ts| => ToItem(ts[k]))
  }

  function Compile(pattern: string): Compiled {
    var ts := Tokens(pattern);
    Compiled(ToItems(ts), exists t | t in ts :: IsFault(t))
  }

  /** `format`: each item renders itself, in order. */
  function Render(items: seq<FormatItem>, render: FormatItem -> string): string {
    if items == [] then "" else render(items[0]) + Render(items[1..], render)
  }

  /** What each token is rendered by: a literal by itself, a directive of the table by its
      item, any other and an open brace by a text that reports it. */
  lemma ItemOfToken(pattern: string, k: nat)
    requires k < |Tokens(pattern)|
    ensures |Compile(pattern).items| == |Tokens(pattern)|
    ensures Compile(pattern).items[k] ==
            match Tokens(pattern)[k]
            case Literal(text) => StringItem(text)
            case Item(name, arg, _) =>
              if name in {"m", "p", "r", "c", "t", "n", "d", "f", "l", "F", "T"} then TableItem(name, arg)
              else StringItem("<<error_format %" + name + ">>")
            case Marker => StringItem("<<pattern_error>>")
  {}

  /** Items are rendered one after the other. */
  lemma {:induction false} RenderInTurn(items: seq<FormatItem>, item: FormatItem, render: FormatItem -> string)
    ensures Render([], render) == ""
    ensures Render(items + [item], render) == Render(items, render) + render(item)
  {
    if items == [] {
      assert [] + [item] == [item] && [item][1..] == [];
      assert Render([item], render) == render(item) + "";
    } else {
      assert (items + [item])[0] == items[0] && (items + [item])[1..] == items[1..] + [item];
      RenderInTurn(items[1..], item, render);
    }
  }

  /** A closing brace belongs to the name in front of it, so this is no directive `m`. */
  lemma AClosingBraceIsInTheName()
    ensures Tokens("%m}") == [Item("m}", "", false)] && Compile("%m}").error
  {
    var p := "%m}";
    ReadsUnbraced(p, 3);
    assert p[1..3] == "m}";
    assert Source(Directive("m}", "", false)) == "%m}";
    assert p[3..] == "" && Lex("") == [];
    assert Lex(p) == [Directive("m}", "", false)];
    assert [Directive("m}", "", false)][1..] == [];
    var t := Item("m}", "", false);
    assert Tokens(p) == [t] && "m}" !in TABLE;
    assert t in Tokens(p) && IsFault(t);
  }

  /** The error text of an open brace comes out before the text that stands in front of the
      brace, from the last directive on. */
  lemma AMarkerComesBeforeItsText()
    ensures Tokens("a%{b") == [Marker, Literal("a{b")]
  {
    var p := "a%{b";
    ReadsUnterminated("%{b", 1);
    assert p[1..] == "%{b" && "%{b"[1..] == "{b" && "{b"[1..] == "b" && "b"[1..] == "";
    assert Lex("b") == [Char('b')] + Lex("") && Lex("{b") == [Char('{')] + Lex("b");
    assert Lex("%{b") == [Unterminated] + Lex("{b") && Lex(p) == [Char('a')] + Lex("%{b");
    assert Lex(p) == [Char('a'), Unterminated, Char('{'), Char('b')];
    var ps := Lex(p);
    assert ps[1..] == [Unterminated, Char('{'), Char('b')] && ps[1..][1..] == [Char('{'), Char('b')];
    assert ps[1..][1..][1..] == [Char('b')] && [Char('b')][1..] == [];
    assert Group([], "a{b") == [Literal("a{b")] && "a{" + ['b'] == "a{b" && "a" + ['{'] == "a{" && "" + ['a'] == "a";
    assert Group([Char('b')], "a{") == [Literal("a{b")];
    assert Group([Char('{'), Char('b')], "a") == [Literal("a{b")];
    assert Group([Unterminated, Char('{'), Char('b')], "a") == [Marker] + [Literal("a{b")];
  }

  // ------------------------------------------------------- when it fails

  predicate IsFaultyPiece(p: Piece) {
    p.Unterminated? || (p.Directive? && p.name !in TABLE)
  }

  lemma {:induction false} FaultsOfGroup(ps: seq<Piece>, pending: string)
    ensures (exists t | t in Group(ps, pending) :: IsFault(t)) <==> (exists p | p in ps :: IsFaultyPiece(p))
  {
    if ps != [] {
      var (first, next) := GroupStep(ps, pending);
      FaultsOfGroup(ps[1..], next);
      assert ps == [ps[0]] + ps[1..];
      assert (exists t | t in first :: IsFault(t)) <==> IsFaultyPiece(ps[0]) by {
        if IsFaultyPiece(ps[0]) { assert IsFault(first[|first| - 1]); }
      }
    }
  }

  /** `m_error` is set exactly when the reading of the pattern holds an
      unterminated brace or a name outside the table. */
  lemma {:induction false} ErrorExactly(pattern: string, ps: seq<Piece>)
    requires IsLexing(pattern, ps)
    ensures Compile(pattern).error <==> exists p | p in ps :: IsFaultyPiece(p)
  {
    LexIsTheLexing(pattern, ps);
    FaultsOfGroup(ps, "");
  }

  // ---------------------------------------------------------- round trip

  function PrintToken(t: Token): string
    requires !t.Marker?
  {
    match t
    case Literal(text) => text
    case Item(name, arg, _) => "%" + name + ("{" + arg + "}")
  }

  function Print(ts: seq<Token>): string
    requires Marker !in ts
  {
    if ts == [] then "" else PrintToken(ts[0]) + Print(ts[1..])
  }

  ghost predicate IsPrintable(t: Token) {
    match t
    case Literal(text) => '%' !in text
    case Item(name, arg, braced) => name in TABLE && '}' !in arg && braced
    case Marker => false
  }

  ghost predicate Printable(ts: seq<Token>) {
    && Separated(ts)
    && forall k | 0 <= k < |ts| :: IsPrintable(ts[k])
  }

  lemma LexCons(p: Piece, rest: string)
    requires Justified(p, rest)
    ensures Lex(Source(p) + rest) == [p] + Lex(rest)
  {
    JustifiedIsFirst(p, rest);
    assert (Source(p) + rest)[|Source(p)|..] == rest;
  }

  function Chars(text: string): seq<Piece> {
    if text == "" then [] else [Char(text[0])] + Chars(text[1..])
  }

  lemma LexChar(c: char, rest: string)
    requires c != '%'
    ensures Lex([c] + rest) == [Char(c)] + Lex(rest)
  {
    LexCons(Char(c), rest);
  }

  lemma {:induction false} LexLiteral(text: string, rest: string)
    requires '%' !in text
    ensures Lex(text + rest) == Chars(text) + Lex(rest)
  {
    if text == "" {
      assert text + rest == rest && Chars(text) + Lex(rest) == Lex(rest);
    } else {
      hide Lex;
      var c, tail := text[0], text[1..];
      assert text == [c] + tail;
      LexLiteral(tail, rest);
      LexChar(c, tail + rest);
      Associative([c], tail, rest);
      Associative([Char(c)], Chars(tail), Lex(rest));
    }
  }

  lemma {:induction false} GroupLiteral(text: string, ps: seq<Piece>, pending: string)
    ensures Group(Chars(text) + ps, pending) == Group(ps, pending + text)
  {
    if text == "" {
      assert Chars(text) + ps == ps && pending + text == pending;
    } else {
      assert (Chars(text) + ps)[1..] == Chars(text[1..]) + ps;
      GroupLiteral(text[1..], ps, pending + [text[0]]);
      assert pending + [text[0]] + text[1..] == pending + text;
    }
  }

  lemma SeparatedTail(ts: seq<Token>)
    requires ts != [] && Printable(ts)
    ensures Printable(ts[1..])
  {
    forall k | 0 <= k < |ts[1..]| - 1 ensures !(ts[1..][k].Literal? && ts[1..][k + 1].Literal?) {
      assert !(ts[k + 1].Literal? && ts[k + 2].Literal?);
    }
    forall k | 0 <= k < |ts[1..]| ensures IsPrintable(ts[1..][k]) {
      assert IsPrintable(ts[k + 1]);
    }
  }

  lemma {:induction false} GroupItem(t: Token, rest: string, pending: string)
    requires t.Item? && IsPrintable(t)
    ensures Group(Lex(PrintToken(t) + rest), pending) == Flush(pending) + [t] + Group(Lex(rest), "")
  {
    var p := Directive(t.name, t.arg, true);
    LexCons(p, rest);
    assert ([p] + Lex(rest))[1..] == Lex(rest);
  }

  lemma {:induction false} TokensOfPrint(ts: seq<Token>, pending: string)
    requires Printable(ts) && Marker !in ts
    requires pending != "" ==> ts == [] || ts[0].Item?
    ensures Group(Lex(Print(ts)), pending) == Flush(pending) + ts
  {
    hide Lex, IsPrintable, Flush;
    if ts == [] {
      assert Lex("") == [] by { LexEmpty(); }
    } else {
      SeparatedTail(ts);
      var rest := Print(ts[1..]);
      assert ts == [ts[0]] + ts[1..] && IsPrintable(ts[0]);
      match ts[0]
      case Literal(text) =>
        PrintableLiteral(ts);
        TokensOfPrint(ts[1..], text);
        LexLiteral(text, rest);
        GroupLiteral(text, Lex(rest), "");
        assert "" + text == text;
      case Item(name, arg, braced) =>
        TokensOfPrint(ts[1..], "");
        GroupItem(ts[0], rest, pending);
        FlushEmpty();
    }
  }

  lemma LexEmpty()
    ensures Lex("") == []
  {}

  lemma FlushEmpty()
    ensures Flush("") == []
  {}

  lemma PrintableLiteral(ts: seq<Token>)
    requires Printable(ts) && ts != [] && ts[0].Literal?
    ensures '%' !in ts[0].text && Flush(ts[0].text) == [ts[0]]
    ensures |ts| > 1 && Marker !in ts ==> ts[1].Item?
    ensures Flush("") == []
  {
    assert IsPrintable(ts[0]);
    assert |ts| > 1 ==> !(ts[0].Literal? && ts[0 + 1].Literal?);
  }

  lemma NoMarkerIsPrintable(ts: seq<Token>)
    requires Printable(ts)
    ensures Marker !in ts
  {
    forall k | 0 <= k < |ts| ensures ts[k] != Marker {
      assert IsPrintable(ts[k]);
    }
  }

  /** Printing a well-formed token list and compiling it gives the list back. */
  lemma {:induction false} PrintThenCompile(ts: seq<Token>)
    requires Printable(ts)
    ensures Marker !in ts
    ensures Tokens(Print(ts)) == ts
    ensures Compile(Print(ts)) == Compiled(ToItems(ts), false)
  {
    NoMarkerIsPrintable(ts);
    TokensOfPrint(ts, "");
    assert Flush("") + ts == ts;
    forall t | t in ts ensures !IsFault(t) {
      var k :| 0 <= k < |ts| && ts[k] == t;
      assert IsPrintable(ts[k]);
    }
  }

  // -------------------------------------------------------- homomorphism

  /** `q` starts with a percent sign that is not followed by another. */
  predicate StartsDirective(q: string) {
    q != [] && q[0] == '%' && (|q| > 1 ==> q[1] != '%')
  }

  lemma LexUnfolds(p: string)
    requires p != []
    ensures var first := FirstPiece(p); var rest := p[|Source(first)|..];
            p == Source(first) + rest && Justified(first, rest) && Lex(p) == [first] + Lex(rest)
  {
    FirstPieceJustified(p);
    hide FirstPiece, Source;
  }

  lemma {:induction false} LexAppend(p: string, q: string)
    requires q != [] && q[0] == '%'
    requires forall x | x in Lex(p) :: !x.Unterminated? && (x.Directive? ==> x.name != "")
    ensures Lex(p + q) == Lex(p) + Lex(q)
  {
    if p == [] {
      assert p + q == q && Lex(p) + Lex(q) == Lex(q);
    } else {
      var first := FirstPiece(p);
      var rest := p[|Source(first)|..];
      LexUnfolds(p);
      hide FirstPiece, Source, Lex, Justified;
      assert first in Lex(p) && forall x | x in Lex(rest) :: x in Lex(p);
      LexAppend(rest, q);
      StillJustified(first, rest, q);
      LexCons(first, rest + q);
      Associative(Source(first), rest, q);
      Associative([first], Lex(rest), Lex(q));
    }
  }

  lemma StillJustified(first: Piece, rest: string, q: string)
    requires Justified(first, rest) && !first.Unterminated? && (first.Directive? ==> first.name != "")
    requires q != [] && q[0] == '%'
    ensures Justified(first, rest + q)
  {
    assert rest != [] ==> (rest + q)[0] == rest[0];
    assert rest == [] ==> rest + q == q;
  }

  /** One step of `Group`: the tokens it emits and the text it leaves pending. */
  function GroupStep(ps: seq<Piece>, pending: string): (r: (seq<Token>, string))
    requires ps != []
    ensures Group(ps, pending) == r.0 + Group(ps[1..], r.1)
  {
    match ps[0]
    case Char(c) => assert [] + Group(ps[1..], pending + [c]) == Group(ps[1..], pending + [c]); ([], pending + [c])
    case Directive(name, arg, braced) => (Flush(pending) + [Item(name, arg, braced)], "")
    case Unterminated => ([Marker], pending)
  }

  lemma {:induction false} GroupAppend(ps: seq<Piece>, qs: seq<Piece>, pending: string)
    requires qs != [] && qs[0].Directive?
    ensures Group(ps + qs, pending) == Group(ps, pending) + Group(qs, "")
  {
    if ps == [] {
      assert ps + qs == qs;
      assert Group(qs, pending) == Flush(pending) + Group(qs, "");
    } else {
      assert (ps + qs)[1..] == ps[1..] + qs;
      var (out, next) := GroupStep(ps, pending);
      GroupAppend(ps[1..], qs, next);
      assert GroupStep(ps + qs, pending) == (out, next);
      hide Group, GroupStep;
      Associative(out, Group(ps[1..], next), Group(qs, ""));
    }
  }

  lemma {:induction false} NoFaultsMeansNamed(p: string)
    requires !Compile(p).error
    ensures forall x | x in Lex(p) :: !x.Unterminated? && (x.Directive? ==> x.name != "")
  {
    FaultsOfGroup(Lex(p), "");
    forall x | x in Lex(p) ensures !x.Unterminated? && (x.Directive? ==> x.name != "") {
      assert !IsFaultyPiece(x);
    }
  }

  lemma {:induction false} RenderAppend(a: seq<FormatItem>, b: seq<FormatItem>, render: FormatItem -> string)
    ensures Render(a + b, render) == Render(a, render) + Render(b, render)
  {
    if a == [] {
      assert a + b == b;
    } else {
      assert (a + b)[1..] == a[1..] + b;
      RenderAppend(a[1..], b, render);
    }
  }

  lemma StartsWithDirective(q: string)
    requires StartsDirective(q)
    ensures Lex(q) != [] && !Lex(q)[0].Char?
    ensures Lex(q)[0] in Lex(q)
  {}

  lemma ItemsAppend(ts: seq<Token>, us: seq<Token>)
    ensures ToItems(ts + us) == ToItems(ts) + ToItems(us)
  {}

  /** Compiling `p + q` is compiling `p` and then `q`, and so is formatting. */
  lemma {:induction false} CompileIsHomomorphism(p: string, q: string, render: FormatItem -> string)
    requires !Compile(p).error && !Compile(q).error && StartsDirective(q)
    ensures !Compile(p + q).error
    ensures Compile(p + q).items == Compile(p).items + Compile(q).items
    ensures Render(Compile(p + q).items, render) == Render(Compile(p).items, render) + Render(Compile(q).items, render)
  {
    NoFaultsMeansNamed(p);
    NoFaultsMeansNamed(q);
    LexAppend(p, q);
    StartsWithDirective(q);
    hide Lex, Group;
    GroupAppend(Lex(p), Lex(q), "");
    assert Tokens(p + q) == Tokens(p) + Tokens(q);
    hide Tokens, IsFault, ToItem;
    ItemsAppend(Tokens(p), Tokens(q));
    hide ToItems;
    RenderAppend(Compile(p).items, Compile(q).items, render);
  }

  // ---------------------------------------------------------------- cost

  /** Iterations the inner loop spends on the directive at the front of `s`. */
  function DirectiveCost(s: string): nat
    requires s != []
  {
    var e := 1 + NameLength(s[1..]);
    if e == |s| then e - 1
    else if s[e] != '{' then e
    else
      var c := e + 1 + CloseIndex(s[e + 1..]);
      if c == |s| then |s| - 1 else c
  }

  /** Iterations of the inner loop over the whole scan. */
  function ScanCost(s: string): nat {
    if s == [] then 0
    else (if StartsDirective(s) then DirectiveCost(s) else 0) + ScanCost(s[|Source(FirstPiece(s))|..])
  }

  lemma {:induction false} LinearWithoutUnterminated(s: string)
    requires Unterminated !in Lex(s)
    ensures ScanCost(s) <= |s|
  {
    if s != [] {
      var first := FirstPiece(s);
      var rest := s[|Source(first)|..];
      assert Lex(s) == [first] + Lex(rest);
      LinearWithoutUnterminated(rest);
    }
  }

  /** Where a directive's scan stops: short of its source's end, or one character beyond
      when the name ends at another character; or at the end of the pattern. */
  lemma CostOfFirst(s: string)
    requires s != [] && StartsDirective(s)
    ensures var first := FirstPiece(s);
            var d := |Source(first)|;
            if first.Unterminated? then DirectiveCost(s) == |s| - 1 && |s| >= 2 && (s[1] == '{' || IsNameChar(s[1]))
            else DirectiveCost(s) <= d && (d == |s| || first.braced ==> DirectiveCost(s) <= d - 1)
  {
    var e := 1 + NameLength(s[1..]);
    if e < |s| { assert s[1..][e - 1] == s[e]; }
    if e > 1 { assert IsNameChar(s[1..][0]); }
  }

  /** What follows an opening percent sign that is not closed costs nothing. */
  lemma SecondIsFree(s: string)
    requires |s| >= 2 && (s[1] == '{' || IsNameChar(s[1]))
    ensures ScanCost(s[1..]) == ScanCost(s[2..])
  {
    assert s[1..][1..] == s[2..];
  }

  function Square(n: int): int {
    n * n
  }

  lemma SquareOfSum(m: int, d: int)
    ensures Square(m + d) == Square(m) + d * (2 * m + d)
  {}

  lemma TimesAtLeast(d: nat, a: int, b: int)
    requires a <= b
    ensures d * a <= d * b
  {}

  lemma FourTimes(d: int)
    ensures 4 * (d - 1) <= d * d
  {
    assert d * d - 4 * (d - 1) == (d - 2) * (d - 2);
  }

  lemma SquareOfSplit(n: nat, d: nat)
    requires 0 < d <= n
    ensures 4 * (d - 1) + Square(n - d) <= Square(n)
    ensures d < n && n > 2 ==> 4 * d + Square(n - d) <= Square(n)
  {
    var m := n - d;
    SquareOfSum(m, d);
    FourTimes(d);
    TimesAtLeast(d, d, 2 * m + d);
    hide Square;
    if d < n && n > 2 { TimesAtLeast(d, 4, 2 * m + d); }
  }

  lemma SquareOfPair(n: nat)
    requires n >= 2
    ensures 4 * (n - 1) + Square(n - 2) == Square(n)
  {}

  lemma OneIsFree(s: string)
    requires |s| == 1
    ensures ScanCost(s) == 0
  {
    CostUnfolds(s);
    assert s[1..] == [] && NameLength(s[1..]) == 0;
    NothingCosts();
    hide ScanCost;
  }

  lemma TinyCost(s: string)
    requires |s| <= 2
    ensures 4 * ScanCost(s) <= Square(|s|)
  {
    hide ScanCost;
    if s == [] {
      NothingCosts();
    } else {
      CostUnfolds(s);
      var rest := s[|Source(FirstPiece(s))|..];
      if rest == [] { NothingCosts(); } else { OneIsFree(rest); }
      if StartsDirective(s) { CostOfFirst(s); }
    }
  }

  lemma {:induction false} QuarterOfSquare(s: string)
    ensures 4 * ScanCost(s) <= Square(|s|)
    decreases |s|
  {
    hide FirstPiece, Source, DirectiveCost, ScanCost, Square, StartsDirective;
    if |s| <= 2 {
      TinyCost(s);
    } else {
      CostUnfolds(s);
      var n, d := |s|, |Source(FirstPiece(s))|;
      QuarterOfSquare(s[d..]);
      SquareOfSplit(n, d);
      if StartsDirective(s) {
        CostOfFirst(s);
        if FirstPiece(s).Unterminated? {
          UnterminatedIsShort(s);
          SecondIsFree(s);
          QuarterOfSquare(s[2..]);
          SquareOfPair(n);
        }
      }
    }
  }

  lemma UnterminatedIsShort(s: string)
    requires s != [] && FirstPiece(s).Unterminated?
    ensures |Source(FirstPiece(s))| == 1
  {}

  /** At worst a quarter of the square of the length, which open braces attain. */
  lemma {:induction false} QuadraticAtWorst(s: string)
    ensures 4 * ScanCost(s) <= |s| * |s|
  {
    QuarterOfSquare(s);
  }

  /** `k` directives whose braces are never closed. */
  function OpenBraces(k: nat): (s: string)
    ensures |s| == 2 * k && '}' !in s
  {
    if k == 0 then "" else "%" + (['{'] + OpenBraces(k - 1))
  }

  lemma CostUnfolds(s: string)
    requires s != []
    ensures ScanCost(s) ==
            (if StartsDirective(s) then DirectiveCost(s) else 0) + ScanCost(s[|Source(FirstPiece(s))|..])
  {
    hide FirstPiece, Source, DirectiveCost;
  }

  lemma OpenBraceFirst(rest: string)
    requires '}' !in rest
    ensures var s := "%" + (['{'] + rest);
            FirstPiece(s) == Unterminated && StartsDirective(s) && DirectiveCost(s) == |rest| + 1
  {
    var tail := ['{'] + rest;
    var s := "%" + tail;
    assert s[1..] == tail && tail[1..] == rest && s[2..] == rest;
    NameLengthIs(tail, 0);
    CloseIndexIs(rest, |rest|);
    assert Justified(Unterminated, tail);
    UnterminatedIsFirst(tail);
    hide FirstPiece;
  }

  lemma OpenBraceStep(rest: string)
    requires '}' !in rest
    ensures ScanCost("%" + (['{'] + rest)) == 1 + |rest| + ScanCost(rest)
  {
    hide FirstPiece, DirectiveCost, ScanCost;
    OpenBraceFirst(rest);
    CostUnfolds("%" + (['{'] + rest));
    assert ("%" + (['{'] + rest))[1..] == ['{'] + rest;
    BraceIsFree(rest);
  }

  lemma BraceIsFree(rest: string)
    ensures ScanCost(['{'] + rest) == ScanCost(rest)
  {
    hide DirectiveCost, ScanCost;
    CostUnfolds(['{'] + rest);
    assert (['{'] + rest)[1..] == rest;
  }

  /** Quadratic work is really done: k open braces cost k squared, more than the pattern's
      length as soon as there are three. */
  lemma {:induction false} OpenBracesCostTheirSquare(k: nat)
    ensures ScanCost(OpenBraces(k)) == k * k
    ensures k > 2 ==> ScanCost(OpenBraces(k)) > |OpenBraces(k)|
  {
    hide ScanCost;
    if k > 0 {
      OpenBracesCostTheirSquare(k - 1);
      OpenBraceStep(OpenBraces(k - 1));
      SquareStep(k);
    } else {
      assert ScanCost("") == 0 by { NothingCosts(); }
    }
  }

  lemma NothingCosts()
    ensures ScanCost("") == 0
  {}

  lemma SquareStep(k: nat)
    requires k > 0
    ensures k * k == 2 * k - 1 + (k - 1) * (k - 1)
    ensures k > 2 ==> k * k > 2 * k
  {
    if k > 2 { assert k * (k - 2) > 0; }
  }
}
