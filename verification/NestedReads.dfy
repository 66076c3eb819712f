/** A listener that reads its own variable (chord/config.h:347-372): it takes the read lock
    a second time. Whether that can block for good depends on whether the platform's
    RWMutex lets waiting writers go first, which POSIX leaves open. */
module NestedReads {

  /** A thread in `setValue` on one variable whose listener calls `getValue`, or in a call
      that only writes, which starts `Aside`. */
  datatype Pc =
    | BeforeRead
    | Outer    // read lock held, in the listener, before the second one
    | Inner    // both held
    | Leaving  // the first still held
    | Aside    // none held, before asking for the write lock
    | Asking
    | Writing
    | Done

  predicate Reads(pc: Pc) {
    pc.Outer? || pc.Inner? || pc.Leaving?
  }

  predicate NobodyWrites(s: seq<Pc>) {
    forall j | 0 <= j < |s| :: !s[j].Writing?
  }

  predicate CanRead(s: seq<Pc>, writersFirst: bool) {
    NobodyWrites(s) && (writersFirst ==> forall j | 0 <= j < |s| :: !s[j].Asking?)
  }

  predicate CanWrite(s: seq<Pc>) {
    NobodyWrites(s) && forall j | 0 <= j < |s| :: !Reads(s[j])
  }

  predicate IsEnabled(s: seq<Pc>, i: nat, writersFirst: bool) {
    i < |s| &&
    match s[i]
    case BeforeRead => CanRead(s, writersFirst)
    case Outer => CanRead(s, writersFirst)
    case Asking => CanWrite(s)
    case Done => false
    case _ => true
  }

  function After(pc: Pc): Pc {
    match pc
    case BeforeRead => Outer
    case Outer => Inner
    case Inner => Leaving
    case Leaving => Aside
    case Aside => Asking
    case Asking => Writing
    case Writing => Done
    case Done => Done
  }

  ghost predicate Next(s: seq<Pc>, t: seq<Pc>, writersFirst: bool) {
    exists i: nat :: IsEnabled(s, i, writersFirst) && t == s[i := After(s[i])]
  }

  ghost predicate IsRun(states: seq<seq<Pc>>, writersFirst: bool) {
    && states != []
    && (forall j | 0 <= j < |states[0]| :: states[0][j] in {BeforeRead, Aside, Done})
    && forall k | 0 < k < |states| :: Next(states[k - 1], states[k], writersFirst)
  }

  ghost predicate IsStuck(s: seq<Pc>, writersFirst: bool) {
    (exists j :: 0 <= j < |s| && !s[j].Done?) && forall i: nat :: !IsEnabled(s, i, writersFirst)
  }

  /** A writer is alone. */
  ghost predicate WritersAlone(s: seq<Pc>) {
    forall i, j | 0 <= i < |s| && 0 <= j < |s| && i != j && s[i].Writing? :: !s[j].Writing? && !Reads(s[j])
  }

  lemma {:induction false} RunsKeepWritersAlone(states: seq<seq<Pc>>, writersFirst: bool)
    requires IsRun(states, writersFirst)
    ensures WritersAlone(states[|states| - 1])
    decreases |states|
  {
    var n := |states| - 1;
    if n > 0 {
      RunsKeepWritersAlone(states[..n], writersFirst);
      var i: nat :| IsEnabled(states[n - 1], i, writersFirst)
          && states[n] == states[n - 1][i := After(states[n - 1][i])];
    }
  }

  /** When readers need not wait for writers, somebody can always go on. */
  lemma SomebodyGoesOn(s: seq<Pc>, j: int)
    requires WritersAlone(s) && 0 <= j < |s| && !s[j].Done?
    ensures exists i: nat :: IsEnabled(s, i, false)
  {
    if i: nat :| i < |s| && s[i].Writing? {
      assert IsEnabled(s, i, false);
    } else if i: nat :| i < |s| && Reads(s[i]) {
      assert IsEnabled(s, i, false);
    } else {
      var i: nat := j;
      assert IsEnabled(s, i, false);
    }
  }

  /** The run that blocks: a reader, a writer that asks, and the reader asks again. */
  lemma WaitingWritersBlock()
    ensures IsRun([[BeforeRead, Aside], [Outer, Aside], [Outer, Asking]], true)
    ensures IsStuck([Outer, Asking], true)
  {
    var s0, s1, s2 := [BeforeRead, Aside], [Outer, Aside], [Outer, Asking];
    assert IsEnabled(s0, 0, true) && s1 == s0[0 := After(s0[0])];
    assert IsEnabled(s1, 1, true) && s2 == s1[1 := After(s1[1])];
    assert s2[1].Asking? && Reads(s2[0]) && !s2[0].Done?;
  }

  /** With listeners that read their own variable, threads can come to block each other for
      good if and only if waiting writers go first. */
  lemma ReadingListenersBlockIff(writersFirst: bool)
    ensures (exists states: seq<seq<Pc>> ::
               IsRun(states, writersFirst) && IsStuck(states[|states| - 1], writersFirst)) <==>
            writersFirst
  {
    if writersFirst {
      WaitingWritersBlock();
      var states := [[BeforeRead, Aside], [Outer, Aside], [Outer, Asking]];
      assert states[|states| - 1] == [Outer, Asking];
    } else {
      forall states: seq<seq<Pc>> | IsRun(states, false) ensures !IsStuck(states[|states| - 1], false) {
        RunsKeepWritersAlone(states, false);
        var s := states[|states| - 1];
        if j :| 0 <= j < |s| && !s[j].Done? { SomebodyGoesOn(s, j); }
      }
    }
  }
}
