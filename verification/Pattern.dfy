/** The log pattern language: a lexer, its declarative reference, and the
    token list that `LogFormatter::init` builds (chord/logger.cpp:489-627). */
module Pattern {

  // ---------------------------------------------------------------- lexer

  /** `isalpha` in the C locale. */
  predicate IsAlpha(c: char) {
    'a' <= c <= 'z' || 'A' <= c <= 'Z'
  }

  /** What the scanner accepts inside a directive name: a closing brace too. */
  predicate IsNameChar(c: char) {
    IsAlpha(c) || c == '}'
  }

  /** Length of the longest prefix made of name characters. */
  function NameLength(s: string): (n: nat)
    ensures n <= |s|
    ensures forall k | 0 <= k < n :: IsNameChar(s[k])
    ensures n < |s| ==> !IsNameChar(s[n])
  {
    if s == [] || !IsNameChar(s[0]) then 0 else 1 + NameLength(s[1..])
  }

  /** Index of the first closing brace, or the length when there is none. */
  function CloseIndex(s: string): (n: nat)
    ensures n <= |s|
    ensures forall k | 0 <= k < n :: s[k] != '}'
    ensures n < |s| ==> s[n] == '}'
  {
    if s == [] || s[0] == '}' then 0 else 1 + CloseIndex(s[1..])
  }

  datatype Piece =
    | Char(c: char)
    | Directive(name: string, arg: string, braced: bool)
    | Unterminated  // a '%' whose '{' is never closed

  /** The stretch of the pattern a piece was read from. */
  function Source(p: Piece): (s: string)
    ensures s != []
  {
    match p
    case Char(c) => [c]
    case Directive(name, arg, braced) => "%" + name + (if braced then "{" + arg + "}" else "")
    case Unterminated => "%"
  }

  lemma BracedSource(s: string, e: nat, c: nat)
    requires 0 < e < c < |s| && s[0] == '%' && s[e] == '{' && s[c] == '}'
    ensures Source(Directive(s[1..e], s[e + 1..c], true)) == s[..c + 1]
  {
    assert s[..e] == "%" + s[1..e];
    assert s[e..c + 1] == "{" + s[e + 1..c] + "}";
    assert s[..c + 1] == s[..e] + s[e..c + 1];
  }

  function FirstPiece(s: string): (p: Piece)
    requires s != []
    ensures Source(p) <= s
  {
    if s[0] != '%' || (|s| > 1 && s[1] == '%') then Char(s[0])
    else
      var e := 1 + NameLength(s[1..]);
      if e == |s| || s[e] != '{' then Directive(s[1..e], "", false)
      else
        var c := e + 1 + CloseIndex(s[e + 1..]);
        if c == |s| then Unterminated
        else
          BracedSource(s, e, c);
          Directive(s[1..e], s[e + 1..c], true)
  }

  function Lex(s: string): seq<Piece> {
    if s == [] then [] else [FirstPiece(s)] + Lex(s[|Source(FirstPiece(s))|..])
  }

  function Concat(ss: seq<string>): string {
    if ss == [] then "" else ss[0] + Concat(ss[1..])
  }

  function PieceText(ps: seq<Piece>): string {
    if ps == [] then "" else Source(ps[0]) + PieceText(ps[1..])
  }

  /** The pieces are a partition of the pattern: nothing is lost or reordered. */
  lemma {:induction false} LexPartitions(s: string)
    ensures PieceText(Lex(s)) == s
  {
    hide FirstPiece, Source;
    if s != [] {
      var w := Source(FirstPiece(s));
      LexPartitions(s[|w|..]);
      assert s == w + s[|w|..];
    }
  }

  // ------------------------------------------------ declarative reference

  /** Whether `p` is the right piece to read in front of `rest`. */
  ghost predicate Justified(p: Piece, rest: string) {
    match p
    case Char(c) => c == '%' ==> rest != [] && rest[0] == '%'
    case Directive(name, arg, braced) =>
      && (forall k | 0 <= k < |name| :: IsNameChar(name[k]))
      && if braced then '}' !in arg
         else
           && arg == ""
           && (rest != [] ==> !IsNameChar(rest[0]) && rest[0] != '{')
           && (rest != [] && name == "" ==> rest[0] != '%')
    case Unterminated =>
      exists e | 0 <= e < |rest| ::
        && rest[e] == '{'
        && (forall k | 0 <= k < e :: IsNameChar(rest[k]))
        && '}' !in rest[e + 1..]
  }

  ghost predicate IsLexing(s: string, ps: seq<Piece>) {
    if ps == [] then s == []
    else
      && Source(ps[0]) <= s
      && Justified(ps[0], s[|Source(ps[0])|..])
      && IsLexing(s[|Source(ps[0])|..], ps[1..])
  }

  lemma NameLengthIs(s: string, n: nat)
    requires n <= |s|
    requires forall k | 0 <= k < n :: IsNameChar(s[k])
    requires n < |s| ==> !IsNameChar(s[n])
    ensures NameLength(s) == n
  {
    if n > 0 {
      NameLengthIs(s[1..], n - 1);
    }
  }

  lemma CloseIndexIs(s: string, n: nat)
    requires n <= |s|
    requires forall k | 0 <= k < n :: s[k] != '}'
    requires n < |s| ==> s[n] == '}'
    ensures CloseIndex(s) == n
  {
    if n > 0 {
      CloseIndexIs(s[1..], n - 1);
    }
  }

  lemma FirstPieceJustified(s: string)
    requires s != []
    ensures Justified(FirstPiece(s), s[|Source(FirstPiece(s))|..])
  {
    var e := 1 + NameLength(s[1..]);
    if s[0] == '%' && (|s| == 1 || s[1] != '%') && e < |s| && s[e] == '{' {
      var c := e + 1 + CloseIndex(s[e + 1..]);
      if c == |s| {
        var rest := s[1..];
        assert rest[e - 1] == '{' && rest[e..] == s[e + 1..];
      }
    }
  }

  lemma ReadsBraced(s: string, e: nat, c: nat)
    requires 0 < e < c < |s| && s[0] == '%' && s[1] != '%' && s[e] == '{' && s[c] == '}'
    requires forall k | 0 < k < e :: IsNameChar(s[k])
    requires forall k | e < k < c :: s[k] != '}'
    ensures FirstPiece(s) == Directive(s[1..e], s[e + 1..c], true)
  {
    NameLengthIs(s[1..], e - 1);
    CloseIndexIs(s[e + 1..], c - e - 1);
  }

  lemma ReadsUnbraced(s: string, e: nat)
    requires 0 < e <= |s| && s[0] == '%' && (|s| > 1 ==> s[1] != '%')
    requires forall k | 0 < k < e :: IsNameChar(s[k])
    requires e < |s| ==> !IsNameChar(s[e]) && s[e] != '{'
    ensures FirstPiece(s) == Directive(s[1..e], "", false)
  {
    NameLengthIs(s[1..], e - 1);
  }

  lemma ReadsUnterminated(s: string, e: nat)
    requires 0 < e < |s| && s[0] == '%' && s[1] != '%' && s[e] == '{'
    requires forall k | 0 < k < e :: IsNameChar(s[k])
    requires forall k | e < k < |s| :: s[k] != '}'
    ensures FirstPiece(s) == Unterminated
  {
    NameLengthIs(s[1..], e - 1);
    CloseIndexIs(s[e + 1..], |s| - e - 1);
  }

  /** Where the parts of a directive sit in its source. */
  lemma SourceLayout(name: string, arg: string, braced: bool)
    ensures var w := Source(Directive(name, arg, braced));
            && |w| == 1 + |name| + (if braced then 2 + |arg| else 0)
            && w[0] == '%' && w[1..1 + |name|] == name
            && (braced ==> w[1 + |name|] == '{' && w[2 + |name|..2 + |name| + |arg|] == arg && w[|w| - 1] == '}')
  {
    var tail := if braced then "{" + arg + "}" else "";
    var w := "%" + name + tail;
    assert w[1..1 + |name|] == name;
    if braced { assert w[1 + |name|..] == tail; assert tail[1..1 + |arg|] == arg; }
  }

  lemma SliceOfAppend(w: string, rest: string, a: nat, b: nat)
    requires a <= b <= |w|
    ensures (w + rest)[a..b] == w[a..b]
  {}

  lemma NameInSource(p: Piece, w: string, rest: string)
    requires p.Directive? && w == Source(p) && Justified(p, rest)
    ensures var s, e := w + rest, 1 + |p.name|;
            && e <= |w| && s[0] == '%' && s[1..e] == p.name
            && forall k | 0 < k < e :: IsNameChar(s[k])
  {
    SourceLayout(p.name, p.arg, p.braced);
    hide Source;
    var s, e := w + rest, 1 + |p.name|;
    SliceOfAppend(w, rest, 1, e);
    assert forall k | 0 < k < e :: s[k] == p.name[k - 1];
  }

  lemma ArgumentInSource(p: Piece, w: string, rest: string)
    requires p.Directive? && p.braced && w == Source(p) && Justified(p, rest)
    ensures var s, e, c := w + rest, 1 + |p.name|, |w| - 1;
            && e < c < |s| && s[e] == '{' && s[c] == '}' && s[e + 1..c] == p.arg
            && forall k | e < k < c :: s[k] != '}'
  {
    SourceLayout(p.name, p.arg, p.braced);
    hide Source;
    var s, e, c := w + rest, 1 + |p.name|, |w| - 1;
    assert w[e + 1..c] == p.arg;
    SliceOfAppend(w, rest, e + 1, c);
    forall k | e < k < c ensures s[k] != '}' {
      assert s[k] == w[k] == w[e + 1..c][k - e - 1];
    }
  }

  lemma BracedIsFirst(p: Piece, w: string, rest: string)
    requires p.Directive? && p.braced && w == Source(p) && Justified(p, rest)
    ensures FirstPiece(w + rest) == p
  {
    NameInSource(p, w, rest);
    ArgumentInSource(p, w, rest);
    hide Source, FirstPiece, Justified;
    var s, e := w + rest, 1 + |p.name|;
    assert s[1] != '%' by { if e > 1 { assert IsNameChar(s[1]); } }
    ReadsBraced(s, e, |w| - 1);
  }

  lemma DirectiveIsFirst(p: Piece, w: string, rest: string)
    requires p.Directive? && w == Source(p) && Justified(p, rest)
    ensures FirstPiece(w + rest) == p
  {
    if p.braced {
      BracedIsFirst(p, w, rest);
    } else {
      NameInSource(p, w, rest);
      SourceLayout(p.name, p.arg, p.braced);
      hide Source, FirstPiece;
      ReadsUnbraced(w + rest, 1 + |p.name|);
    }
  }

  lemma UnterminatedIsFirst(rest: string)
    requires Justified(Unterminated, rest)
    ensures FirstPiece("%" + rest) == Unterminated
  {
    var s := "%" + rest;
    var e :| 0 <= e < |rest| && rest[e] == '{' && (forall k | 0 <= k < e :: IsNameChar(rest[k]))
      && '}' !in rest[e + 1..];
    forall k | e + 1 < k < |s| ensures s[k] != '}' {
      assert s[k] == rest[e + 1..][k - e - 2];
    }
    ReadsUnterminated(s, e + 1);
  }

  lemma JustifiedIsFirst(p: Piece, rest: string)
    requires Justified(p, rest)
    ensures FirstPiece(Source(p) + rest) == p
  {
    match p
    case Char(c) =>
    case Directive(_, _, _) => DirectiveIsFirst(p, Source(p), rest);
    case Unterminated => UnterminatedIsFirst(rest);
  }

  lemma OnlyFirst(s: string, p: Piece)
    requires s != [] && Source(p) <= s && Justified(p, s[|Source(p)|..])
    ensures p == FirstPiece(s)
  {
    assert s == Source(p) + s[|Source(p)|..];
    JustifiedIsFirst(p, s[|Source(p)|..]);
  }

  /** The scanner computes the one and only reading of the pattern. */
  lemma {:induction false} LexIsTheLexing(s: string, ps: seq<Piece>)
    ensures IsLexing(s, ps) <==> ps == Lex(s)
    decreases |s|, |ps|
  {
    if s != [] && ps != [] {
      var w := |Source(FirstPiece(s))|;
      FirstPieceJustified(s);
      if Source(ps[0]) <= s && Justified(ps[0], s[|Source(ps[0])|..]) {
        OnlyFirst(s, ps[0]);
      }
      hide FirstPiece, Source, Justified;
      LexIsTheLexing(s[w..], ps[1..]);
      assert ps == [ps[0]] + ps[1..];
    }
  }

  // --------------------------------------------------------------- tokens

  datatype Token =
    | Literal(text: string)
    | Item(name: string, arg: string, braced: bool)
    | Marker  // "<<pattern_error>>"

  function Flush(pending: string): seq<Token> {
    if pending == "" then [] else [Literal(pending)]
  }

  /** Pending text is flushed by a directive and at the end, but not by a marker. */
  function Group(ps: seq<Piece>, pending: string): seq<Token> {
    if ps == [] then Flush(pending)
    else
      match ps[0]
      case Char(c) => Group(ps[1..], pending + [c])
      case Directive(name, arg, braced) => Flush(pending) + [Item(name, arg, braced)] + Group(ps[1..], "")
      case Unterminated => [Marker] + Group(ps[1..], pending)
  }

  function Tokens(pattern: string): seq<Token> {
    Group(Lex(pattern), "")
  }

  function DropMarkers(ts: seq<Token>): (r: seq<Token>)
    ensures Marker !in r
  {
    if ts == [] then []
    else (if ts[0].Marker? then [] else [ts[0]]) + DropMarkers(ts[1..])
  }

  function CountMarkers(ts: seq<Token>): nat {
    if ts == [] then 0 else (if ts[0].Marker? then 1 else 0) + CountMarkers(ts[1..])
  }

  /** A token's own text: a literal as it is, a directive as it was written. */
  function TokenText(t: Token): string {
    match t
    case Literal(text) => text
    case Item(name, arg, braced) => Source(Directive(name, arg, braced))
    case Marker => "<<pattern_error>>"
  }

  function TokensText(ts: seq<Token>): string {
    if ts == [] then "" else TokenText(ts[0]) + TokensText(ts[1..])
  }

  /** `q` is `p` with exactly `k` percent signs deleted. */
  ghost predicate DeletesPercents(p: string, q: string, k: nat) {
    if p == [] then q == [] && k == 0
    else
      || (q != [] && p[0] == q[0] && DeletesPercents(p[1..], q[1..], k))
      || (p[0] == '%' && k > 0 && DeletesPercents(p[1..], q, k - 1))
  }

  lemma {:induction false} DeletesAfterPrefix(x: string, p: string, q: string, k: nat)
    requires DeletesPercents(p, q, k)
    ensures DeletesPercents(x + p, x + q, k)
  {
    if x == [] {
      assert x + p == p && x + q == q;
    } else {
      DeletesAfterPrefix(x[1..], p, q, k);
      assert (x + p)[1..] == x[1..] + p && (x + q)[1..] == x[1..] + q;
    }
  }

  /** The text that survives once the markers are dropped. */
  function Kept(ts: seq<Token>): string {
    TokensText(DropMarkers(ts))
  }

  lemma KeptCons(t: Token, ts: seq<Token>)
    ensures Kept([t] + ts) == (if t.Marker? then "" else TokenText(t)) + Kept(ts)
    ensures CountMarkers([t] + ts) == (if t.Marker? then 1 else 0) + CountMarkers(ts)
  {
    assert ([t] + ts)[1..] == ts;
    assert ([t] + DropMarkers(ts))[1..] == DropMarkers(ts);
    assert [] + DropMarkers(ts) == DropMarkers(ts);
  }

  lemma KeptFlush(pending: string, ts: seq<Token>)
    ensures Kept(Flush(pending) + ts) == pending + Kept(ts)
    ensures CountMarkers(Flush(pending) + ts) == CountMarkers(ts)
  {
    if pending == "" {
      assert Flush(pending) + ts == ts;
    } else {
      KeptCons(Literal(pending), ts);
    }
  }

  lemma FlushKeepsText(pending: string)
    ensures DeletesPercents(pending, Kept(Flush(pending)), CountMarkers(Flush(pending)))
  {
    KeptFlush(pending, []);
    assert Flush(pending) + [] == Flush(pending);
    DeletesAfterPrefix(pending, "", "", 0);
    assert pending + "" == pending;
  }

  lemma DirectiveKeepsText(pending: string, t: Token, rest: string, more: seq<Token>)
    requires t.Item?
    requires DeletesPercents(rest, Kept(more), CountMarkers(more))
    ensures DeletesPercents(pending + (TokenText(t) + rest), Kept(Flush(pending) + [t] + more),
                            CountMarkers(Flush(pending) + [t] + more))
  {
    hide TokenText, DeletesPercents, Kept, Flush, CountMarkers;
    var w := TokenText(t);
    KeptCons(t, more);
    KeptFlush(pending, [t] + more);
    assert Flush(pending) + [t] + more == Flush(pending) + ([t] + more);
    DeletesAfterPrefix(w, rest, Kept(more), CountMarkers(more));
    DeletesAfterPrefix(pending, w + rest, w + Kept(more), CountMarkers(more));
  }

  lemma MarkerKeepsText(pending: string, rest: string, more: seq<Token>)
    requires DeletesPercents(pending + rest, Kept(more), CountMarkers(more))
    ensures DeletesPercents(pending + ("%" + rest), Kept([Marker] + more), CountMarkers([Marker] + more))
  {
    KeptCons(Marker, more);
    PercentMoves(pending, rest, Kept(more), CountMarkers(more));
    assert "" + Kept(more) == Kept(more);
  }

  lemma {:induction false} GroupKeepsText(ps: seq<Piece>, pending: string)
    ensures DeletesPercents(pending + PieceText(ps), Kept(Group(ps, pending)), CountMarkers(Group(ps, pending)))
  {
    hide Kept, CountMarkers, DeletesPercents, Flush;
    if ps == [] {
      FlushKeepsText(pending);
      assert pending + "" == pending;
    } else {
      var rest := PieceText(ps[1..]);
      match ps[0]
      case Char(c) =>
        GroupKeepsText(ps[1..], pending + [c]);
        assert pending + ([c] + rest) == (pending + [c]) + rest;
      case Directive(name, arg, braced) =>
        GroupKeepsText(ps[1..], "");
        assert "" + rest == rest;
        DirectiveKeepsText(pending, Item(name, arg, braced), rest, Group(ps[1..], ""));
      case Unterminated =>
        GroupKeepsText(ps[1..], pending);
        MarkerKeepsText(pending, rest, Group(ps[1..], pending));
    }
  }

  lemma {:induction false} PercentMoves(x: string, p: string, q: string, k: nat)
    requires DeletesPercents(x + p, q, k)
    ensures DeletesPercents(x + ("%" + p), q, k + 1)
  {
    if x == [] {
      assert x + p == p && x + ("%" + p) == "%" + p && ("%" + p)[1..] == p;
    } else {
      assert (x + p)[1..] == x[1..] + p && (x + ("%" + p))[1..] == x[1..] + ("%" + p);
      if q != [] && x[0] == q[0] && DeletesPercents((x + p)[1..], q[1..], k) {
        PercentMoves(x[1..], p, q[1..], k);
      } else {
        PercentMoves(x[1..], p, q, k - 1);
      }
    }
  }

  /** Compilation loses nothing: the literals and directives, without the error
      markers, spell the pattern with one percent sign deleted per marker. */
  lemma CompilationLosesNothing(pattern: string)
    ensures DeletesPercents(pattern, Kept(Tokens(pattern)), CountMarkers(Tokens(pattern)))
  {
    LexPartitions(pattern);
    GroupKeepsText(Lex(pattern), "");
    assert "" + pattern == pattern;
  }

  lemma {:induction false} NoDeletionIsIdentity(p: string, q: string)
    requires DeletesPercents(p, q, 0)
    ensures p == q
  {
    if p != [] {
      NoDeletionIsIdentity(p[1..], q[1..]);
      assert p == [p[0]] + p[1..] && q == [q[0]] + q[1..];
    }
  }

  /** Without an unterminated brace the tokens spell the pattern exactly. */
  lemma TerminatedPatternIsSpelledExactly(pattern: string)
    requires Marker !in Tokens(pattern)
    ensures TokensText(Tokens(pattern)) == pattern
  {
    CompilationLosesNothing(pattern);
    NoMarkersToDrop(Tokens(pattern));
    NoDeletionIsIdentity(pattern, TokensText(Tokens(pattern)));
  }

  lemma {:induction false} NoMarkersToDrop(ts: seq<Token>)
    requires Marker !in ts
    ensures DropMarkers(ts) == ts && CountMarkers(ts) == 0
  {
    if ts != [] {
      NoMarkersToDrop(ts[1..]);
    }
  }

  lemma {:induction false} DeletionsShorten(p: string, q: string, k: nat)
    requires DeletesPercents(p, q, k)
    ensures |p| == |q| + k
  {
    if p != [] {
      if q != [] && p[0] == q[0] && DeletesPercents(p[1..], q[1..], k) {
        DeletionsShorten(p[1..], q[1..], k);
      } else {
        DeletionsShorten(p[1..], q, k - 1);
      }
    }
  }

  lemma {:induction false} MarkersAreCounted(ts: seq<Token>)
    ensures CountMarkers(ts) == 0 <==> Marker !in ts
  {
    if ts != [] {
      MarkersAreCounted(ts[1..]);
      assert ts == [ts[0]] + ts[1..];
    }
  }

  /** Text is missing from the result exactly when there is an error marker. */
  lemma NothingIsMissingIff(pattern: string)
    ensures Kept(Tokens(pattern)) == pattern <==> Marker !in Tokens(pattern)
  {
    var ts := Tokens(pattern);
    CompilationLosesNothing(pattern);
    DeletionsShorten(pattern, Kept(ts), CountMarkers(ts));
    MarkersAreCounted(ts);
    if Marker !in ts { NoDeletionIsIdentity(pattern, Kept(ts)); }
  }

  /** Literals are non-empty and never adjacent. */
  ghost predicate Separated(ts: seq<Token>) {
    && (forall k | 0 <= k < |ts| :: ts[k].Literal? ==> ts[k].text != "")
    && (forall k | 0 <= k < |ts| - 1 :: !(ts[k].Literal? && ts[k + 1].Literal?))
  }

  lemma SeparatedCons(t: Token, ts: seq<Token>)
    requires Separated(DropMarkers(ts)) && !t.Marker?
    requires t.Literal? ==> t.text != "" && (ts != [] ==> ts[0].Item?)
    ensures Separated(DropMarkers([t] + ts))
  {
    assert ([t] + ts)[1..] == ts;
    assert ts != [] && ts[0].Item? ==> DropMarkers(ts)[0] == ts[0];
  }

  lemma FlushSeparates(pending: string, t: Token, more: seq<Token>)
    requires t.Item? && Separated(DropMarkers(more))
    ensures Separated(DropMarkers(Flush(pending) + [t] + more))
  {
    SeparatedCons(t, more);
    if pending != "" {
      SeparatedCons(Literal(pending), [t] + more);
      assert Flush(pending) + [t] + more == [Literal(pending)] + ([t] + more);
    } else {
      assert Flush(pending) + [t] + more == [t] + more;
    }
  }

  lemma {:induction false} GroupSeparates(ps: seq<Piece>, pending: string)
    ensures Separated(DropMarkers(Group(ps, pending)))
  {
    if ps != [] {
      match ps[0]
      case Char(c) => GroupSeparates(ps[1..], pending + [c]);
      case Directive(name, arg, braced) =>
        GroupSeparates(ps[1..], "");
        FlushSeparates(pending, Item(name, arg, braced), Group(ps[1..], ""));
      case Unterminated =>
        var more := Group(ps[1..], pending);
        GroupSeparates(ps[1..], pending);
        assert ([Marker] + more)[1..] == more;
    }
  }

  lemma LiteralsAreSeparated(pattern: string)
    ensures Separated(DropMarkers(Tokens(pattern)))
  {
    GroupSeparates(Lex(pattern), "");
  }
}
