/** When compiling two patterns one after the other is the same as compiling them
    appended (chord/logger.cpp:477-629). */
module PatternAppend {
  import opened Pattern
  import opened PatternLaws
  import opened Sequences

  function LastPiece(p: string): Piece
    requires Lex(p) != []
  {
    Lex(p)[|Lex(p)| - 1]
  }

  /** An unbraced directive at the end of a pattern would read on into `q`. */
  predicate ReadsOnInto(last: Piece, q: string) {
    last.Directive? && !last.braced && q != "" && (IsNameChar(q[0]) || q[0] == '{')
  }

  /** What a caller can check: where `p` ends and how `q` starts. */
  predicate JoinsCleanly(p: string, q: string) {
    || p == "" || q == "" || StartsDirective(q)
    || (Lex(p) != [] && LastPiece(p).Directive? && !ReadsOnInto(LastPiece(p), q))
  }

  // ------------------------------------------------- reading an appended pattern

  /** Whatever is appended, all pieces but the last are read as before. */
  lemma {:induction false} LexAllButLast(p: string, q: string)
    requires p != "" && Unterminated !in Lex(p)
    ensures Lex(p) != [] && Lex(p + q) == Lex(p)[..|Lex(p)| - 1] + Lex(Source(LastPiece(p)) + q)
    ensures Justified(LastPiece(p), "")
  {
    hide Lex, FirstPiece, Source, Justified;
    LexUnfolds(p);
    var first := FirstPiece(p);
    var rest := p[|Source(first)|..];
    if rest == "" {
      LexEmpty();
      assert [first] + [] == [first] && Source(first) + rest == Source(first);
      assert Lex(p)[..0] + Lex(p + q) == Lex(p + q);
    } else {
      LexUnfolds(rest);
      assert first in Lex(p) && forall x | x in Lex(rest) :: x in Lex(p);
      LexAllButLast(rest, q);
      JustifiedByNext(first, rest, q);
      LexCons(first, rest + q);
      Associative(Source(first), rest, q);
      AllButLast(first, Lex(rest), Lex(Source(LastPiece(rest)) + q));
    }
  }

  lemma AllButLast(first: Piece, ls: seq<Piece>, more: seq<Piece>)
    requires ls != []
    ensures var all := [first] + ls;
            && all[|all| - 1] == ls[|ls| - 1]
            && [first] + (ls[..|ls| - 1] + more) == all[..|all| - 1] + more
  {}

  /** Only the next character decides, unless a brace is left open. */
  lemma JustifiedByNext(first: Piece, rest: string, q: string)
    requires Justified(first, rest) && !first.Unterminated? && rest != ""
    ensures Justified(first, rest + q)
  {
    assert (rest + q)[0] == rest[0];
  }

  lemma LexAppended(p: string, q: string)
    requires p != "" && Unterminated !in Lex(p) && Lex(p) != [] && Justified(LastPiece(p), q)
    ensures Lex(p + q) == Lex(p) + Lex(q)
  {
    hide Lex, Justified, Source;
    LexAllButLast(p, q);
    LexCons(LastPiece(p), q);
    var n := |Lex(p)| - 1;
    assert Lex(p) == Lex(p)[..n] + [LastPiece(p)];
    Associative(Lex(p)[..n], [LastPiece(p)], Lex(q));
  }

  lemma CleanPieces(p: string)
    requires !Compile(p).error
    ensures Unterminated !in Lex(p) && forall x | x in Lex(p) :: !IsFaultyPiece(x)
  {
    FaultsOfGroup(Lex(p), "");
    assert IsFaultyPiece(Unterminated);
  }

  lemma FaultyPieceIsError(p: string, x: Piece)
    requires x in Lex(p) && IsFaultyPiece(x)
    ensures Compile(p).error
  {
    FaultsOfGroup(Lex(p), "");
  }

  lemma TableNamesAreLetters(name: string)
    requires name in TABLE
    ensures |name| == 1 && name[0] != '%'
  {}

  lemma LastPieceIsLast(p: string)
    requires p != ""
    ensures Lex(p) != [] && LastPiece(p) in Lex(p)
  {
    LexUnfolds(p);
  }

  // ------------------------------------------------------- the clean cases

  lemma {:induction false} GroupAfterDirective(ps: seq<Piece>, qs: seq<Piece>, pending: string)
    requires ps != [] && ps[|ps| - 1].Directive?
    ensures Group(ps + qs, pending) == Group(ps, pending) + Group(qs, "")
  {
    assert (ps + qs)[1..] == ps[1..] + qs;
    var (out, next) := GroupStep(ps, pending);
    assert GroupStep(ps + qs, pending) == (out, next);
    if |ps| == 1 {
      assert ps[1..] == [] && [] + qs == qs && Group([], "") == [] && out + [] == out;
    } else {
      GroupAfterDirective(ps[1..], qs, next);
      hide Group, GroupStep;
      Associative(out, Group(ps[1..], next), Group(qs, ""));
    }
  }

  lemma ItemsOfAppended(p: string, q: string)
    requires !Compile(p).error && !Compile(q).error && Tokens(p + q) == Tokens(p) + Tokens(q)
    ensures Compile(p + q) == Compiled(Compile(p).items + Compile(q).items, false)
  {
    hide Tokens, IsFault, ToItem;
    ItemsAppend(Tokens(p), Tokens(q));
  }

  lemma CleanJoin(p: string, q: string)
    requires !Compile(p).error && !Compile(q).error && JoinsCleanly(p, q)
    ensures Compile(p + q) == Compiled(Compile(p).items + Compile(q).items, false)
  {
    if p == "" || q == "" {
      assert Compile("").items == [] by { assert Lex("") == []; }
      assert p + q == if p == "" then q else p;
      hide Compile;
    } else if StartsDirective(q) {
      CompileIsHomomorphism(p, q, item => "");
    } else {
      var last := LastPiece(p);
      CleanPieces(p);
      LastPieceIsLast(p);
      LexAllButLast(p, q);
      TableNamesAreLetters(last.name);
      LexAppended(p, q);
      hide Lex;
      GroupAfterDirective(Lex(p), Lex(q), "");
      hide Compile;
      ItemsOfAppended(p, q);
    }
  }

  // ------------------------------------------------------ the other cases

  /** Text already pending does not change how many tokens follow a literal. */
  lemma {:induction false} PendingDoesNotCount(qs: seq<Piece>, x: string, y: string)
    requires (x == "" <==> y == "") || (qs != [] && qs[0].Char?)
    ensures |Group(qs, x)| == |Group(qs, y)|
  {
    if qs != [] {
      match qs[0]
      case Char(c) => PendingDoesNotCount(qs[1..], x + [c], y + [c]);
      case Directive(_, _, _) =>
      case Unterminated => PendingDoesNotCount(qs[1..], x, y);
    }
  }

  /** A literal at the end of one and at the start of the other become one token. */
  lemma {:induction false} LiteralsMerge(ps: seq<Piece>, qs: seq<Piece>, pending: string)
    requires ps != [] && ps[|ps| - 1].Char? && qs != [] && qs[0].Char?
    ensures |Group(ps + qs, pending)| + 1 == |Group(ps, pending)| + |Group(qs, "")|
  {
    assert (ps + qs)[1..] == ps[1..] + qs;
    var (out, next) := GroupStep(ps, pending);
    assert GroupStep(ps + qs, pending) == (out, next);
    if |ps| == 1 {
      assert ps[1..] == [] && [] + qs == qs;
      PendingDoesNotCount(qs, next, "");
    } else {
      LiteralsMerge(ps[1..], qs, next);
    }
  }

  lemma AfterALiteral(p: string, q: string)
    requires !Compile(p).error && p != "" && q != "" && !StartsDirective(q)
    requires Lex(p) != [] && LastPiece(p).Char?
    ensures |Compile(p + q).items| + 1 == |Compile(p).items| + |Compile(q).items|
  {
    CleanPieces(p);
    LexAllButLast(p, q);
    LexAppended(p, q);
    LexUnfolds(q);
    hide Lex;
    LiteralsMerge(Lex(p), Lex(q), "");
  }

  /** The characters of all literals. */
  function LiteralSize(items: seq<FormatItem>): nat {
    if items == [] then 0 else (if items[0].StringItem? then |items[0].text| else 0) + LiteralSize(items[1..])
  }

  lemma {:induction false} LiteralSizeAppend(a: seq<FormatItem>, b: seq<FormatItem>)
    ensures LiteralSize(a + b) == LiteralSize(a) + LiteralSize(b)
  {
    if a == [] {
      assert a + b == b;
    } else {
      assert (a + b)[1..] == a[1..] + b;
      LiteralSizeAppend(a[1..], b);
    }
  }

  lemma FlushSize(pending: string)
    ensures LiteralSize(ToItems(Flush(pending))) == |pending|
  {
    if pending != "" { assert ToItems(Flush(pending)) == [StringItem(pending)] && [StringItem(pending)][1..] == []; }
  }

  lemma {:induction false} PendingCounts(ps: seq<Piece>, pending: string)
    ensures LiteralSize(ToItems(Group(ps, pending))) == |pending| + LiteralSize(ToItems(Group(ps, "")))
  {
    if ps == [] {
      FlushSize(pending);
      FlushSize("");
    } else {
      match ps[0]
      case Char(c) =>
        assert "" + [c] == [c];
        PendingCounts(ps[1..], pending + [c]);
        PendingCounts(ps[1..], [c]);
      case Directive(name, arg, braced) =>
        var t := Item(name, arg, braced);
        FlushedSize(pending, t, Group(ps[1..], ""));
        FlushedSize("", t, Group(ps[1..], ""));
      case Unterminated =>
        PendingCounts(ps[1..], pending);
        MarkerSize(Group(ps[1..], pending));
        MarkerSize(Group(ps[1..], ""));
    }
  }

  lemma FlushedSize(pending: string, t: Token, ts: seq<Token>)
    ensures LiteralSize(ToItems(Flush(pending) + [t] + ts)) == |pending| + LiteralSize(ToItems([t] + ts))
  {
    Associative(Flush(pending), [t], ts);
    hide LiteralSize, Flush, ToItems;
    ItemsAppend(Flush(pending), [t] + ts);
    LiteralSizeAppend(ToItems(Flush(pending)), ToItems([t] + ts));
    FlushSize(pending);
  }

  lemma MarkerSize(ts: seq<Token>)
    ensures LiteralSize(ToItems([Marker] + ts)) == |"<<pattern_error>>"| + LiteralSize(ToItems(ts))
  {
    assert ToItems([Marker] + ts)[1..] == ToItems(ts);
  }

  /** A longer name is no table name. */
  lemma NameReadsOn(name: string, q: string)
    requires name in TABLE && Justified(Directive(name, "", false), "") && q != "" && IsNameChar(q[0])
    ensures IsFaultyPiece(FirstPiece("%" + name + q))
  {
    TableNamesAreLetters(name);
    var s := "%" + name + q;
    assert s[1..][0] == name[0] && s[1..][1] == q[0];
    AtLeastTwo(s[1..]);
    OnlyLettersInTable(s[1..NameLength(s[1..]) + 1]);
  }

  lemma AtLeastTwo(s: string)
    requires |s| >= 2 && IsNameChar(s[0]) && IsNameChar(s[1])
    ensures NameLength(s) >= 2
  {
    assert NameLength(s[1..]) >= 1;
  }

  lemma OnlyLettersInTable(name: string)
    requires |name| >= 2
    ensures name !in TABLE
  {}

  /** After the name a brace opens: it is never closed, or `q` begins with an argument. */
  lemma BraceReadsOn(name: string, q: string) returns (arg: string, rest: string)
    requires name in TABLE && q != "" && q[0] == '{' && IsNameChar(name[0])
    ensures var first := FirstPiece("%" + name + q);
            first.Unterminated? || (first == Directive(name, arg, true) && q == "{" + arg + "}" + rest)
  {
    TableNamesAreLetters(name);
    hide FirstPiece;
    var tail := q[1..];
    var c := CloseIndex(tail);
    arg, rest := "", "";
    if c < |tail| {
      arg, rest := tail[..c], tail[c + 1..];
      assert q == "{" + arg + "}" + rest;
      ClosedBrace(name, arg, rest);
    } else {
      assert q == "{" + tail;
      OpenBrace(name, tail);
    }
  }

  lemma ClosedBrace(name: string, arg: string, rest: string)
    requires |name| == 1 && IsNameChar(name[0]) && '}' !in arg
    ensures FirstPiece("%" + name + ("{" + arg + "}" + rest)) == Directive(name, arg, true)
  {
    hide FirstPiece, Source;
    JustifiedIsFirst(Directive(name, arg, true), rest);
    SourceThen(name, arg, rest);
  }

  lemma OpenBrace(name: string, tail: string)
    requires |name| == 1 && IsNameChar(name[0]) && '}' !in tail
    ensures FirstPiece("%" + name + ("{" + tail)) == Unterminated
  {
    var s := name + ("{" + tail);
    hide FirstPiece;
    assert s[1] == '{' && s[2..] == tail && s[0] == name[0];
    assert Justified(Unterminated, s);
    UnterminatedIsFirst(s);
    Associative("%", name, "{" + tail);
  }

  lemma FirstIsIn(s: string)
    requires s != ""
    ensures FirstPiece(s) in Lex(s)
  {
    LexUnfolds(s);
  }

  /** The argument is taken from `q`, whose own reading starts with its brace. */
  lemma ArgumentIsTaken(p: string, q: string, name: string, arg: string, rest: string)
    requires Unterminated !in Lex(p) && p != "" && Lex(p) != [] && LastPiece(p) == Directive(name, "", false)
              && name in TABLE
    requires q == "{" + arg + "}" + rest && FirstPiece("%" + name + q) == Directive(name, arg, true)
    ensures Compile(p + q).items != Compile(p).items + Compile(q).items
  {
    hide Lex, FirstPiece, Justified, Compile;
    var front := Lex(p)[..|Lex(p)| - 1];
    LexAllButLast(p, q);
    assert Source(LastPiece(p)) + q == "%" + name + q;
    ReadsArgument(name, arg, rest, q);
    assert Lex(p) == front + [Directive(name, "", false)];
    hide Source;
    TokensBefore(p, front, name, "", false, []);
    TokensBefore(p + q, front, name, arg, true, Lex(rest));
    NothingAfter();
    assert [Item(name, "", false)] + [] == [Item(name, "", false)]
        && [Directive(name, "", false)] + [] == [Directive(name, "", false)];
    ItemsDiffer(p, q, Group(front, ""), name, arg, rest);
  }

  lemma NothingAfter()
    ensures Group([], "") == []
  {}

  lemma ReadsArgument(name: string, arg: string, rest: string, q: string)
    requires q == "{" + arg + "}" + rest && FirstPiece("%" + name + q) == Directive(name, arg, true)
    ensures Lex("%" + name + q) == [Directive(name, arg, true)] + Lex(rest)
  {
    hide FirstPiece, Lex, Justified, Source;
    var d := Directive(name, arg, true);
    SourceThen(name, arg, rest);
    LexUnfolds("%" + name + q);
    SuffixOfAppend(Source(d), rest);
  }

  lemma SourceThen(name: string, arg: string, rest: string)
    ensures "%" + name + ("{" + arg + "}" + rest) == Source(Directive(name, arg, true)) + rest
  {
    Associative("%" + name, "{" + arg + "}", rest);
  }

  lemma SuffixOfAppend(w: string, rest: string)
    ensures (w + rest)[|w|..] == rest
  {}

  lemma TokensBefore(p: string, front: seq<Piece>, name: string, arg: string, braced: bool, ps: seq<Piece>)
    requires Lex(p) == front + ([Directive(name, arg, braced)] + ps)
    ensures Tokens(p) == Group(front, "") + ([Item(name, arg, braced)] + Group(ps, ""))
  {
    hide Lex, Group;
    GroupAppend(front, [Directive(name, arg, braced)] + ps, "");
    DirectiveThen(name, arg, braced, ps);
  }

  lemma DirectiveThen(name: string, arg: string, braced: bool, ps: seq<Piece>)
    ensures Group([Directive(name, arg, braced)] + ps, "") == [Item(name, arg, braced)] + Group(ps, "")
  {
    var d := Directive(name, arg, braced);
    assert ([d] + ps)[1..] == ps;
    assert [] + [Item(name, arg, braced)] == [Item(name, arg, braced)];
  }

  lemma ItemsDiffer(p: string, q: string, head: seq<Token>, name: string, arg: string, rest: string)
    requires q == "{" + arg + "}" + rest && name in TABLE
    requires Tokens(p + q) == head + ([Item(name, arg, true)] + Group(Lex(rest), ""))
    requires Tokens(p) == head + ([Item(name, "", false)] + [])
    ensures Compile(p + q).items != Compile(p).items + Compile(q).items
  {
    hide Lex, Group, IsFault, Tokens;
    var both, all, k := Compile(p).items + Compile(q).items, Compile(p + q).items, |head|;
    TableItemAt(head, name, arg, true, Group(Lex(rest), ""));
    TableItemAt(head, name, "", false, []);
    if arg != "" {
      assert all[k] != both[k];
    } else {
      assert all[k + 1..] == ToItems(Group(Lex(rest), ""));
      assert both[k + 1..] == Compile(q).items;
      assert q == "{}" + rest;
      BracesCount(rest);
    }
  }

  lemma TableItemAt(head: seq<Token>, name: string, arg: string, braced: bool, more: seq<Token>)
    requires name in TABLE
    ensures var items := ToItems(head + ([Item(name, arg, braced)] + more));
            items[|head|] == TableItem(name, arg) && items[|head| + 1..] == ToItems(more)
  {
    var ts := head + ([Item(name, arg, braced)] + more);
    assert ts[|head|] == Item(name, arg, braced);
    assert forall k | 0 <= k < |more| :: ts[|head| + 1 + k] == more[k];
  }

  lemma BracesCount(rest: string)
    ensures LiteralSize(Compile("{}" + rest).items) == 2 + LiteralSize(ToItems(Group(Lex(rest), "")))
  {
    hide Lex, Group, ToItems;
    assert "{}" + rest == ['{'] + (['}'] + rest);
    LexChar('{', ['}'] + rest);
    LexChar('}', rest);
    BracesThen(Lex(rest));
    PendingCounts(Lex(rest), "{}");
  }

  lemma BracesThen(ps: seq<Piece>)
    ensures Group([Char('{')] + ([Char('}')] + ps), "") == Group(ps, "{}")
  {
    assert ([Char('{')] + ([Char('}')] + ps))[1..] == [Char('}')] + ps && ([Char('}')] + ps)[1..] == ps;
    assert "" + ['{'] == "{" && "{" + ['}'] == "{}";
  }

  lemma AfterADirective(p: string, q: string)
    requires !Compile(p).error && p != "" && Lex(p) != [] && ReadsOnInto(LastPiece(p), q)
    ensures Compile(p + q).error || Compile(p + q).items != Compile(p).items + Compile(q).items
  {
    hide Lex, FirstPiece, Compile;
    CleanPieces(p);
    LastPieceIsLast(p);
    LexAllButLast(p, q);
    var name := LastPiece(p).name;
    LastUnbraced(LastPiece(p));
    assert LastPiece(p) == Directive(name, "", false);
    var s := "%" + name + q;
    assert Source(LastPiece(p)) + q == s;
    FirstIsIn(s);
    if IsNameChar(q[0]) {
      NameReadsOn(name, q);
      FaultyPieceIsError(p + q, FirstPiece(s));
    } else {
      var arg, rest := BraceReadsOn(name, q);
      if FirstPiece(s).Unterminated? {
        FaultyPieceIsError(p + q, FirstPiece(s));
      } else {
        ArgumentIsTaken(p, q, name, arg, rest);
      }
    }
  }

  lemma LastUnbraced(last: Piece)
    requires last.Directive? && !last.braced && Justified(last, "") && !IsFaultyPiece(last)
    ensures last.arg == "" && |last.name| == 1 && IsNameChar(last.name[0])
  {
    TableNamesAreLetters(last.name);
  }

  /** Two patterns that compile do so appended, to the items of one and then the other, if
      and only if one is empty, the second starts with a directive, or the first ends with
      one that does not read on into the second. */
  lemma CompilesInTurnIff(p: string, q: string)
    requires !Compile(p).error && !Compile(q).error
    ensures Compile(p + q) == Compiled(Compile(p).items + Compile(q).items, false) <==> JoinsCleanly(p, q)
  {
    if JoinsCleanly(p, q) {
      CleanJoin(p, q);
    } else {
      CleanPieces(p);
      LastPieceIsLast(p);
      if LastPiece(p).Directive? { AfterADirective(p, q); } else { AfterALiteral(p, q); }
    }
  }
}
