/** Which formatter object an appender holds (chord/logger.cpp:54-71, 257-322), over any
    number of loggers and appenders that may share both. */
module FormatterInheritance {
  import opened Options

  /** `formatter` is null or an object; `own` is `m_has_Formatter`. */
  datatype AppenderView<F> = AppenderView(formatter: Option<F>, own: bool)
  datatype LoggerView<A, F> = LoggerView(formatter: Option<F>, attached: seq<A>)
  datatype World<!L, !A, F> = World(loggers: map<L, LoggerView<A, F>>, appenders: map<A, AppenderView<F>>)

  datatype Op<L, A, F> =
    | SetFormatter(logger: L, f: Option<F>)
    | AddAppender(logger: L, appender: A)
    | DelAppender(logger: L, appender: A)
    | ClearAppenders(logger: L)
    | SetAppenderFormatter(appender: A, f: Option<F>)

  predicate Applies<L, A, F>(w: World<L, A, F>, op: Op<L, A, F>) {
    && (!op.SetAppenderFormatter? ==> op.logger in w.loggers)
    && ((op.AddAppender? || op.DelAppender? || op.SetAppenderFormatter?) ==> op.appender in w.appenders)
  }

  function RemoveFirst<A(==)>(s: seq<A>, a: A): (r: seq<A>)
    ensures forall x | x in r :: x in s
    ensures a !in s ==> r == s
  {
    if s == [] then [] else if s[0] == a then s[1..] else [s[0]] + RemoveFirst(s[1..], a)
  }

  function Step<L, A(==), F>(w: World<L, A, F>, op: Op<L, A, F>): (w': World<L, A, F>)
    requires Applies(w, op)
    ensures w'.loggers.Keys == w.loggers.Keys && w'.appenders.Keys == w.appenders.Keys
  {
    match op
    case SetFormatter(l, f) =>
      World(w.loggers[l := w.loggers[l].(formatter := f)],
            map a | a in w.appenders ::
              if a in w.loggers[l].attached && !w.appenders[a].own then AppenderView(f, false) else w.appenders[a])
    case AddAppender(l, a) =>
      var it, lg := w.appenders[a], w.loggers[l];
      World(w.loggers[l := lg.(attached := lg.attached + [a])],
            if it.formatter.None? then w.appenders[a := it.(formatter := lg.formatter)] else w.appenders)
    case DelAppender(l, a) =>
      w.(loggers := w.loggers[l := w.loggers[l].(attached := RemoveFirst(w.loggers[l].attached, a))])
    case ClearAppenders(l) =>
      w.(loggers := w.loggers[l := w.loggers[l].(attached := [])])
    case SetAppenderFormatter(a, f) =>
      w.(appenders := w.appenders[a := AppenderView(f, f.Some?)])
  }

  ghost predicate WellFormed<L, A, F>(w: World<L, A, F>) {
    && (forall l | l in w.loggers :: forall a | a in w.loggers[l].attached :: a in w.appenders)
    && (forall a | a in w.appenders :: w.appenders[a].own ==> w.appenders[a].formatter.Some?)
  }

  /** Has a formatter: its own, or the very object its logger holds now. */
  predicate FitsIn<A, F(==)>(lg: LoggerView<A, F>, it: AppenderView<F>) {
    it.formatter.Some? && (it.own || it.formatter == lg.formatter)
  }

  ghost predicate Inherits<L, A, F>(w: World<L, A, F>)
    requires WellFormed(w)
  {
    forall l | l in w.loggers :: forall a | a in w.loggers[l].attached :: FitsIn(w.loggers[l], w.appenders[a])
  }

  /** Formatter `f` suits appender `a` in every logger other than `l` that holds it. */
  ghost predicate SuitsOthers<L, A, F>(w: World<L, A, F>, l: L, a: A, f: Option<F>) {
    forall k | k in w.loggers && k != l && a in w.loggers[k].attached :: w.loggers[k].formatter == f
  }

  /** What a caller can check beforehand. */
  ghost predicate Harmless<L, A, F>(w: World<L, A, F>, op: Op<L, A, F>)
    requires WellFormed(w) && Applies(w, op)
  {
    match op
    case SetFormatter(l, f) =>
      forall a | a in w.loggers[l].attached && !w.appenders[a].own :: f.Some? && SuitsOthers(w, l, a, f)
    case AddAppender(l, a) =>
      var it, lg := w.appenders[a], w.loggers[l];
      it.own || (lg.formatter.Some? && (it.formatter.None? || it.formatter == lg.formatter))
    case DelAppender(_, _) => true
    case ClearAppenders(_) => true
    case SetAppenderFormatter(a, f) =>
      f.Some? || forall l | l in w.loggers :: a !in w.loggers[l].attached
  }

  lemma StepIsWellFormed<L, A, F>(w: World<L, A, F>, op: Op<L, A, F>)
    requires WellFormed(w) && Applies(w, op)
    ensures WellFormed(Step(w, op))
  {}

  lemma HarmlessStep<L, A, F>(w: World<L, A, F>, op: Op<L, A, F>)
    requires WellFormed(w) && Applies(w, op) && Inherits(w) && Harmless(w, op)
    ensures WellFormed(Step(w, op)) && Inherits(Step(w, op))
  {
    StepIsWellFormed(w, op);
    var w' := Step(w, op);
    forall l, a | l in w'.loggers && a in w'.loggers[l].attached ensures FitsIn(w'.loggers[l], w'.appenders[a]) {
      assert (op.AddAppender? && l == op.logger && a == op.appender) || a in w.loggers[l].attached;
      if op.SetFormatter? && a in w.loggers[op.logger].attached && !w.appenders[a].own {
        assert SuitsOthers(w, op.logger, a, op.f);
      }
    }
  }

  lemma HarmfulStep<L, A, F>(w: World<L, A, F>, op: Op<L, A, F>)
    requires WellFormed(w) && Applies(w, op) && Inherits(w) && !Harmless(w, op)
    ensures WellFormed(Step(w, op)) && !Inherits(Step(w, op))
  {
    StepIsWellFormed(w, op);
    var w' := Step(w, op);
    match op
    case SetFormatter(l, f) =>
      var a :| a in w.loggers[l].attached && !w.appenders[a].own && !(f.Some? && SuitsOthers(w, l, a, f));
      assert w'.appenders[a] == AppenderView(f, false);
      if f.Some? {
        var k :| k in w.loggers && k != l && a in w.loggers[k].attached && w.loggers[k].formatter != f;
        assert !FitsIn(w'.loggers[k], w'.appenders[a]);
      } else {
        assert a in w'.loggers[l].attached && !FitsIn(w'.loggers[l], w'.appenders[a]);
      }
    case AddAppender(l, a) =>
      assert a in w'.loggers[l].attached && !FitsIn(w'.loggers[l], w'.appenders[a]);
    case SetAppenderFormatter(a, f) =>
      var l :| l in w.loggers && a in w.loggers[l].attached;
      assert !FitsIn(w'.loggers[l], w'.appenders[a]);
    case _ =>
  }

  /** An operation keeps every attached appender's formatter right exactly when its
      condition holds: an added appender must be new to formatters, have its own, or
      already hold this logger's; a formatter may not be taken away from an appender in
      use; and an appender in two loggers follows only the one configured last. */
  lemma StepKeepsInheritanceIff<L, A, F>(w: World<L, A, F>, op: Op<L, A, F>)
    requires WellFormed(w) && Applies(w, op) && Inherits(w)
    ensures WellFormed(Step(w, op)) && (Inherits(Step(w, op)) <==> Harmless(w, op))
  {
    if Harmless(w, op) { HarmlessStep(w, op); } else { HarmfulStep(w, op); }
  }

  /** Giving one logger a formatter leaves every appender of the other loggers alone if and
      only if those it shares with them have their own or hold that formatter already. */
  lemma NeighboursAreUntouchedIff<L, A, F>(w: World<L, A, F>, l: L, f: Option<F>)
    requires WellFormed(w) && l in w.loggers
    ensures (forall k | k in w.loggers && k != l :: forall a | a in w.loggers[k].attached ::
               Step(w, SetFormatter(l, f)).appenders[a] == w.appenders[a]) <==>
            (forall a | a in w.loggers[l].attached && !w.appenders[a].own && w.appenders[a].formatter != f ::
                IsPrivate(w, l, a))
  {
    var w' := Step(w, SetFormatter(l, f));
    forall a | a in w.appenders
      ensures w'.appenders[a] == w.appenders[a] <==>
              !(a in w.loggers[l].attached && !w.appenders[a].own && w.appenders[a].formatter != f)
    {}
    hide Step;
  }

  /** Attached to no other logger. */
  ghost predicate IsPrivate<L, A, F>(w: World<L, A, F>, l: L, a: A) {
    forall k | k in w.loggers && k != l :: a !in w.loggers[k].attached
  }

  // ------------------------------------------------------------------ runs

  ghost predicate AllApply<L, A, F>(w: World<L, A, F>, ops: seq<Op<L, A, F>>) {
    forall op | op in ops :: Applies(w, op)
  }

  ghost function Run<L, A, F>(w: World<L, A, F>, ops: seq<Op<L, A, F>>): (w': World<L, A, F>)
    requires AllApply(w, ops)
    ensures w'.loggers.Keys == w.loggers.Keys && w'.appenders.Keys == w.appenders.Keys
  {
    if ops == [] then w else Step(Run(w, ops[..|ops| - 1]), ops[|ops| - 1])
  }

  lemma RunUnfolds<L, A, F>(w: World<L, A, F>, front: seq<Op<L, A, F>>, last: Op<L, A, F>)
    requires AllApply(w, front + [last])
    ensures AllApply(w, front) && Applies(Run(w, front), last)
    ensures Run(w, front + [last]) == Step(Run(w, front), last)
  {
    var ops := front + [last];
    assert forall op | op in front :: op in ops;
    assert last in ops && ops[..|front|] == front;
  }

  /** New loggers hold a formatter; nothing is attached and new appenders hold none. */
  ghost predicate Initial<L, A, F>(w: World<L, A, F>) {
    && (forall l | l in w.loggers :: w.loggers[l].formatter.Some? && w.loggers[l].attached == [])
    && (forall a | a in w.appenders :: w.appenders[a] == AppenderView(None, false))
  }

  predicate GivesFormatter<L, A, F>(op: Op<L, A, F>) {
    op.SetFormatter? || op.SetAppenderFormatter? ==> op.f.Some?
  }

  predicate Attaches<L, A(==), F>(op: Op<L, A, F>, a: A) {
    op.AddAppender? && op.appender == a
  }

  ghost predicate EverAttached<L, A, F>(ops: seq<Op<L, A, F>>, a: A) {
    exists op | op in ops :: Attaches(op, a)
  }

  /** The intended use: formatters are not null and an appender is attached once. */
  ghost predicate Disciplined<L, A, F>(ops: seq<Op<L, A, F>>) {
    ops != [] ==>
      && var last := ops[|ops| - 1];
      && Disciplined(ops[..|ops| - 1])
      && GivesFormatter(last)
      && (last.AddAppender? ==> !EverAttached(ops[..|ops| - 1], last.appender))
  }

  /** What a disciplined run keeps besides inheritance: an appender is attached once and
      in one place, and before that it holds no formatter but its own. */
  ghost predicate AttachedOnce<L, A, F>(w: World<L, A, F>, ops: seq<Op<L, A, F>>) {
    && (forall l | l in w.loggers :: w.loggers[l].formatter.Some?)
    && (forall l | l in w.loggers :: forall a | a in w.loggers[l].attached :: EverAttached(ops, a))
    && (forall l, k | l in w.loggers && k in w.loggers && l != k ::
          forall a | a in w.loggers[l].attached :: a !in w.loggers[k].attached)
    && (forall a | a in w.appenders && !EverAttached(ops, a) :: w.appenders[a].own || w.appenders[a].formatter.None?)
  }

  lemma EverAttachedSnoc<L, A, F>(ops: seq<Op<L, A, F>>, op: Op<L, A, F>, a: A)
    ensures EverAttached(ops + [op], a) <==> EverAttached(ops, a) || Attaches(op, a)
  {
    if Attaches(op, a) { assert op in ops + [op]; }
    if EverAttached(ops, a) {
      var x :| x in ops && Attaches(x, a);
      assert x in ops + [op];
    }
  }

  lemma DisciplinedStepIsHarmless<L, A, F>(w: World<L, A, F>, ops: seq<Op<L, A, F>>, op: Op<L, A, F>)
    requires WellFormed(w) && AttachedOnce(w, ops) && Applies(w, op)
    requires GivesFormatter(op) && (op.AddAppender? ==> !EverAttached(ops, op.appender))
    ensures Harmless(w, op)
  {}

  lemma StepKeepsAttachedOnce<L, A, F>(w: World<L, A, F>, ops: seq<Op<L, A, F>>, op: Op<L, A, F>)
    requires WellFormed(w) && AttachedOnce(w, ops) && Applies(w, op)
    requires GivesFormatter(op) && (op.AddAppender? ==> !EverAttached(ops, op.appender))
    ensures AttachedOnce(Step(w, op), ops + [op])
  {
    forall a ensures EverAttached(ops + [op], a) <==> EverAttached(ops, a) || Attaches(op, a) {
      EverAttachedSnoc(ops, op, a);
    }
    hide EverAttached;
  }

  /** In every run of the intended use, every attached appender has a formatter, and one
      without its own shares exactly its logger's current formatter object. */
  lemma {:induction false} DisciplinedRunsInherit<L, A, F>(w: World<L, A, F>, ops: seq<Op<L, A, F>>)
    requires Initial(w) && AllApply(w, ops) && Disciplined(ops)
    ensures WellFormed(Run(w, ops)) && Inherits(Run(w, ops)) && AttachedOnce(Run(w, ops), ops)
  {
    if ops != [] {
      var front, last := ops[..|ops| - 1], ops[|ops| - 1];
      assert ops == front + [last];
      RunUnfolds(w, front, last);
      DisciplinedRunsInherit(w, front);
      var before := Run(w, front);
      hide WellFormed, Inherits, AttachedOnce, Step, Harmless, EverAttached;
      DisciplinedStepIsHarmless(before, front, last);
      StepKeepsAttachedOnce(before, front, last);
      HarmlessStep(before, last);
    }
  }

  /** The formatter last given to an appender itself, if any. */
  function LastGiven<L, A(==), F>(ops: seq<Op<L, A, F>>, a: A): Option<F> {
    if ops == [] then None
    else
      var last := ops[|ops| - 1];
      if last.SetAppenderFormatter? && last.appender == a then last.f else LastGiven(ops[..|ops| - 1], a)
  }

  /** The formatter last given to a logger. */
  function LastFormatter<L(==), A, F>(w: World<L, A, F>, ops: seq<Op<L, A, F>>, l: L): Option<F>
    requires l in w.loggers
  {
    if ops == [] then w.loggers[l].formatter
    else
      var last := ops[|ops| - 1];
      if last.SetFormatter? && last.logger == l then last.f else LastFormatter(w, ops[..|ops| - 1], l)
  }

  /** No operation on a logger ever changes an appender's own formatter: in any run at
      all, it is the one last given to the appender, and the logger's is the one last
      given to the logger. */
  lemma {:induction false} OwnFormatterIsTheLastGiven<L, A, F>(w: World<L, A, F>, ops: seq<Op<L, A, F>>, l: L, a: A)
    requires Initial(w) && AllApply(w, ops) && l in w.loggers && a in w.appenders
    ensures WellFormed(Run(w, ops))
    ensures Run(w, ops).appenders[a].own <==> LastGiven(ops, a).Some?
    ensures Run(w, ops).appenders[a].own ==> Run(w, ops).appenders[a].formatter == LastGiven(ops, a)
    ensures Run(w, ops).loggers[l].formatter == LastFormatter(w, ops, l)
  {
    if ops != [] {
      var front, last := ops[..|ops| - 1], ops[|ops| - 1];
      assert ops == front + [last];
      RunUnfolds(w, front, last);
      OwnFormatterIsTheLastGiven(w, front, l, a);
      var before := Run(w, front);
      hide Run, AllApply;
      StepIsWellFormed(before, last);
    }
  }

  /** An appender that is taken out and put back after its logger got another formatter
      keeps the formatter the logger had before. */
  lemma AReattachedAppenderIsStale()
    ensures var w := World(map[0 := LoggerView(Some(10), [])], map[5 := AppenderView(None, false)]);
            var ops := [AddAppender(0, 5), DelAppender(0, 5), SetFormatter(0, Some(11)), AddAppender(0, 5)];
            && Initial(w) && AllApply(w, ops)
            && WellFormed(Run(w, ops)) && !Inherits(Run(w, ops))
            && Run(w, ops).appenders[5].formatter == Some(10) && Run(w, ops).loggers[0].formatter == Some(11)
  {
    var w: World<int, int, int> := World(map[0 := LoggerView(Some(10), [])], map[5 := AppenderView(None, false)]);
    var ops := [AddAppender(0, 5), DelAppender(0, 5), SetFormatter(0, Some(11)), AddAppender(0, 5)];
    var w1 := World(map[0 := LoggerView(Some(10), [5])], map[5 := AppenderView(Some(10), false)]);
    var w2 := World(map[0 := LoggerView(Some(10), [])], map[5 := AppenderView(Some(10), false)]);
    var w3 := World(map[0 := LoggerView(Some(11), [])], map[5 := AppenderView(Some(10), false)]);
    var w4 := World(map[0 := LoggerView(Some(11), [5])], map[5 := AppenderView(Some(10), false)]);
    assert [] + [5] == [5] && RemoveFirst([5], 5) == [];
    assert Step(w, ops[0]) == w1;
    assert Step(w1, ops[1]) == w2;
    RunFour(w, ops, w1, w2, w3, w4);
    assert 5 in w4.loggers[0].attached && !FitsIn(w4.loggers[0], w4.appenders[5]);
  }

  lemma RunFour<L, A, F>(w: World<L, A, F>, ops: seq<Op<L, A, F>>,
                         w1: World<L, A, F>, w2: World<L, A, F>, w3: World<L, A, F>, w4: World<L, A, F>)
    requires |ops| == 4 && AllApply(w, ops)
    requires Applies(w, ops[0]) && Step(w, ops[0]) == w1 && Applies(w1, ops[1]) && Step(w1, ops[1]) == w2
    requires Applies(w2, ops[2]) && Step(w2, ops[2]) == w3 && Applies(w3, ops[3]) && Step(w3, ops[3]) == w4
    ensures Run(w, ops) == w4
  {
    assert [] + [ops[0]] == ops[..1] && ops[..1] + [ops[1]] == ops[..2];
    assert ops[..2] + [ops[2]] == ops[..3] && ops[..3] + [ops[3]] == ops;
    hide Step;
    RunUnfolds(w, ops[..3], ops[3]);
    RunUnfolds(w, ops[..2], ops[2]);
    RunUnfolds(w, ops[..1], ops[1]);
    RunUnfolds(w, [], ops[0]);
  }
}
