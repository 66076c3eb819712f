/** The pattern every logger starts with (chord/logger.cpp:253) is valid. */
module DefaultPattern {
  import opened Pattern
  import opened PatternLaws
  import opened Sequences

  const DEFAULT_PATTERN := "%d{%Y-%m-%d %H:%M:%S}%T%t%T%F%T[%p]%T[%c]%f:%l%T%m%n"

  ghost predicate IsClean(s: string) {
    forall p | p in Lex(s) :: !IsFaultyPiece(p)
  }

  lemma CleanPiece(p: Piece, rest: string)
    requires Justified(p, rest) && !IsFaultyPiece(p) && IsClean(rest)
    ensures IsClean(Source(p) + rest)
  {
    var s := Source(p) + rest;
    JustifiedIsFirst(p, rest);
    LexUnfolds(s);
    assert s[|Source(p)|..] == rest;
  }

  lemma CleanDirective(c: char, rest: string)
    requires [c] in TABLE && IsAlpha(c) && IsClean(rest)
    requires rest != [] ==> !IsNameChar(rest[0]) && rest[0] != '{'
    ensures IsClean(['%', c] + rest)
  {
    CleanPiece(Directive([c], "", false), rest);
    SourceLayout([c], "", false);
    assert Source(Directive([c], "", false)) == ['%', c];
  }

  lemma CleanChar(c: char, rest: string)
    requires c != '%' && IsClean(rest)
    ensures IsClean([c] + rest)
  {
    CleanPiece(Char(c), rest);
  }

  /** Pieces in front of a text that starts with a directive. */
  lemma CleanBefore(head: string, c: char, mid: string, rest: string)
    requires head == ['%', c] && [c] in TABLE && IsAlpha(c)
    requires IsClean(mid + rest) && (mid + rest) != [] && !IsNameChar((mid + rest)[0]) && (mid + rest)[0] != '{'
    ensures IsClean((head + mid) + rest)
  {
    CleanDirective(c, mid + rest);
    Associative(head, mid, rest);
  }

  lemma CleanCharBefore(c: char, mid: string, rest: string)
    requires c != '%' && IsClean(mid + rest)
    ensures IsClean(([c] + mid) + rest)
  {
    CleanChar(c, mid + rest);
    Associative([c], mid, rest);
  }

  lemma TailIsClean()
    ensures IsClean("%T[%c]%f:%l%T%m%n")
  {
    hide IsClean;
    Nothing();
    CleanDirective('n', "");
    assert "%n" == ['%', 'n'] + "";
    CleanDirective('m', "%n");
    assert "%m%n" == ['%', 'm'] + "%n";
    CleanDirective('T', "%m%n");
    assert "%T%m%n" == ['%', 'T'] + "%m%n";
    CleanDirective('l', "%T%m%n");
    assert "%l%T%m%n" == ['%', 'l'] + "%T%m%n";
    CleanChar(':', "%l%T%m%n");
    assert ":%l%T%m%n" == [':'] + "%l%T%m%n";
    CleanDirective('f', ":%l%T%m%n");
    assert "%f:%l%T%m%n" == ['%', 'f'] + ":%l%T%m%n";
    CleanChar(']', "%f:%l%T%m%n");
    assert "]%f:%l%T%m%n" == [']'] + "%f:%l%T%m%n";
    CleanDirective('c', "]%f:%l%T%m%n");
    assert "%c]%f:%l%T%m%n" == ['%', 'c'] + "]%f:%l%T%m%n";
    CleanChar('[', "%c]%f:%l%T%m%n");
    assert "[%c]%f:%l%T%m%n" == ['['] + "%c]%f:%l%T%m%n";
    CleanDirective('T', "[%c]%f:%l%T%m%n");
    assert "%T[%c]%f:%l%T%m%n" == ['%', 'T'] + "[%c]%f:%l%T%m%n";
  }

  lemma Nothing()
    ensures IsClean("")
  {}

  lemma MiddleIsClean(rest: string)
    requires IsClean(rest) && rest != [] && rest[0] == '%'
    ensures IsClean("%T%t%T%F%T[%p]" + rest)
  {
    hide IsClean;
    assert "" + rest == rest;
    CleanCharBefore(']', "", rest);
    assert [']'] + "" == "]";
    CleanBefore("%p", 'p', "]", rest);
    assert "%p" + "]" == "%p]";
    CleanCharBefore('[', "%p]", rest);
    assert ['['] + "%p]" == "[%p]";
    CleanBefore("%T", 'T', "[%p]", rest);
    assert "%T" + "[%p]" == "%T[%p]";
    CleanBefore("%F", 'F', "%T[%p]", rest);
    assert "%F" + "%T[%p]" == "%F%T[%p]";
    CleanBefore("%T", 'T', "%F%T[%p]", rest);
    assert "%T" + "%F%T[%p]" == "%T%F%T[%p]";
    CleanBefore("%t", 't', "%T%F%T[%p]", rest);
    assert "%t" + "%T%F%T[%p]" == "%t%T%F%T[%p]";
    CleanBefore("%T", 'T', "%t%T%F%T[%p]", rest);
    assert "%T" + "%t%T%F%T[%p]" == "%T%t%T%F%T[%p]";
  }

  lemma DateIsClean(rest: string)
    requires IsClean(rest)
    ensures IsClean("%d{%Y-%m-%d %H:%M:%S}" + rest)
  {
    var date := Directive("d", "%Y-%m-%d %H:%M:%S", true);
    assert "d" in TABLE && IsNameChar('d');
    CleanPiece(date, rest);
    DateSource();
  }

  lemma DateSource()
    ensures Source(Directive("d", "%Y-%m-%d %H:%M:%S", true)) == "%d{%Y-%m-%d %H:%M:%S}"
  {
    var text := "%d{%Y-%m-%d %H:%M:%S}";
    assert text[1..2] == "d" && text[3..20] == "%Y-%m-%d %H:%M:%S";
    BracedSource(text, 2, 20);
  }

  lemma DefaultPatternIsValid()
    ensures !Compile(DEFAULT_PATTERN).error
  {
    var date, middle, tail := "%d{%Y-%m-%d %H:%M:%S}", "%T%t%T%F%T[%p]", "%T[%c]%f:%l%T%m%n";
    assert DEFAULT_PATTERN == date + (middle + tail);
    TailIsClean();
    MiddleIsClean(tail);
    DateIsClean(middle + tail);
    CleanMeansValid(DEFAULT_PATTERN);
  }

  lemma CleanMeansValid(pattern: string)
    requires IsClean(pattern)
    ensures !Compile(pattern).error
  {
    LexIsTheLexing(pattern, Lex(pattern));
    ErrorExactly(pattern, Lex(pattern));
  }
}
