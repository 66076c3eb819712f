/** What one listener sees of a variable that several threads set
    (chord/config.h:353-372): when the pairs it is given join end to end, and when
    overlapping calls break them. */
module ListenerChains {
  import opened ConfigVars
  import opened ConcurrentConfigVar

  /** The pairs a history shows to the listener `key`. */
  function PairsOf<T>(h: seq<Event<T>>, key: nat): seq<(T, T)> {
    if h == [] then []
    else
      var last := h[|h| - 1];
      PairsOf(h[..|h| - 1], key) + if last.Notified? && last.key == key then [(last.before, last.v)] else []
  }

  /** The call that begins at event `a` has not stored its value by event `b`. */
  predicate Unfinished<T>(h: seq<Event<T>>, a: int, b: int) {
    0 <= a < b <= |h| && h[a].Began? && forall w | a < w < b :: !(h[w].Wrote? && h[w].c == h[a].c)
  }

  /** Some call begins between another's beginning and its store. */
  ghost predicate Overlapping<T>(h: seq<Event<T>>) {
    exists a, b :: Unfinished(h, a, b) && b < |h| && h[b].Began?
  }

  // --------------------------------------------------- overlap, event by event

  /** The calls that have begun and not stored. */
  function OpenCalls<T>(h: seq<Event<T>>): set<nat> {
    if h == [] then {}
    else
      var before, last := OpenCalls(h[..|h| - 1]), h[|h| - 1];
      if last.Began? then before + {last.c} else if last.Wrote? then before - {last.c} else before
  }

  predicate Serial<T>(h: seq<Event<T>>) {
    h == [] || (Serial(h[..|h| - 1]) && (h[|h| - 1].Began? ==> OpenCalls(h[..|h| - 1]) == {}))
  }

  lemma FoldsSnoc<T>(h: seq<Event<T>>, e: Event<T>, key: nat)
    ensures PairsOf(h + [e], key) == PairsOf(h, key) + if e.Notified? && e.key == key then [(e.before, e.v)] else []
    ensures OpenCalls(h + [e]) ==
            if e.Began? then OpenCalls(h) + {e.c} else if e.Wrote? then OpenCalls(h) - {e.c} else OpenCalls(h)
    ensures Serial(h + [e]) <==> Serial(h) && (e.Began? ==> OpenCalls(h) == {})
  {
    assert (h + [e])[..|h|] == h;
  }

  lemma UnfinishedFront<T>(front: seq<Event<T>>, e: Event<T>, a: int, b: int)
    requires b <= |front|
    ensures Unfinished(front + [e], a, b) <==> Unfinished(front, a, b)
  {
    assert forall w | 0 <= w < |front| :: (front + [e])[w] == front[w];
  }

  lemma {:induction false} OpenCallsAreUnfinished<T>(h: seq<Event<T>>, c: nat)
    ensures c in OpenCalls(h) <==> exists a :: Unfinished(h, a, |h|) && h[a].c == c
  {
    if h != [] {
      var n := |h| - 1;
      var front, last := h[..n], h[n];
      assert h == front + [last];
      OpenCallsAreUnfinished(front, c);
      if last.Began? && last.c == c {
        assert Unfinished(h, n, n + 1);
      } else {
        forall a | 0 <= a < n
          ensures Unfinished(h, a, n + 1) && h[a].c == c <==>
                  Unfinished(front, a, n) && front[a].c == c && !(last.Wrote? && last.c == c)
        {
          UnfinishedFront(front, last, a, n);
          if Unfinished(h, a, n + 1) { assert Unfinished(h, a, n); }
        }
      }
    }
  }

  lemma {:induction false} SerialIffNotOverlapping<T>(h: seq<Event<T>>)
    ensures Serial(h) <==> !Overlapping(h)
  {
    if h != [] {
      var n := |h| - 1;
      var front, last := h[..n], h[n];
      assert h == front + [last];
      SerialIffNotOverlapping(front);
      forall a, b | b <= n ensures Unfinished(h, a, b) <==> Unfinished(front, a, b) {
        UnfinishedFront(front, last, a, b);
      }
      if a, b :| Unfinished(front, a, b) && b < n && front[b].Began? {
        assert Unfinished(h, a, b);
      }
      if last.Began? {
        if a :| Unfinished(front, a, n) {
          assert Unfinished(h, a, n);
          OpenCallsAreUnfinished(front, front[a].c);
        }
        if c :| c in OpenCalls(front) {
          OpenCallsAreUnfinished(front, c);
        }
      }
    }
  }

  // ------------------------------------------------- the calls in progress

  /** A thread as one listener sees it: in a call that has or has not told it yet. */
  datatype CallView<T> = Outside | Inside(c: nat, v: T, called: bool)

  function ViewOf<T>(keys: seq<nat>, pc: Pc<T>, key: nat): CallView<T> {
    match pc
    case InRound(c, v, done) => Inside(c, v, done <= |keys| && key in keys[..done])
    case WantStore(c, v, _, _) => Inside(c, v, true)
    case MayStore(c, v, _, _) => Inside(c, v, true)
    case _ => Outside
  }

  function ViewsOf<T>(s: System<T>, key: nat): (r: seq<CallView<T>>)
    ensures |r| == |s.threads|
  {
    seq(|s.threads|, i requires 0 <= i < |s.threads| => ViewOf(s.keys, s.threads[i], key))
  }

  /** `open` are the calls in progress, each on one thread. */
  ghost predicate Numbers<T>(views: seq<CallView<T>>, open: set<nat>) {
    && (forall i | 0 <= i < |views| && views[i].Inside? :: views[i].c in open)
    && (forall i, j | 0 <= i < |views| && 0 <= j < |views| && i != j && views[i].Inside? && views[j].Inside? ::
          views[i].c != views[j].c)
    && (forall c | c in open :: exists i :: 0 <= i < |views| && views[i].Inside? && views[i].c == c)
  }

  ghost predicate AllOutside<T>(views: seq<CallView<T>>) {
    forall i | 0 <= i < |views| :: views[i].Outside?
  }

  /** Only thread `i` is in a call. */
  ghost predicate Only<T>(views: seq<CallView<T>>, i: int) {
    0 <= i < |views| && views[i].Inside? && forall j | 0 <= j < |views| && j != i :: views[j].Outside?
  }

  /** The last `n` pairs all start from `val` and lead elsewhere. */
  ghost predicate Tail<T>(pairs: seq<(T, T)>, n: nat, val: T) {
    n <= |pairs| && forall i | |pairs| - n <= i < |pairs| :: pairs[i].0 == val && pairs[i].1 != val
  }

  /** A single call in progress: what it has announced joins on to the chain. */
  ghost predicate Joins<T>(x: CallView<T>, val: T, pairs: seq<(T, T)>, from: T)
    requires x.Inside?
  {
    if x.called then Chain(pairs, from, x.v) && Tail(pairs, 1, val) else Chain(pairs, from, val)
  }

  ghost predicate Orderly<T>(views: seq<CallView<T>>, val: T, pairs: seq<(T, T)>, from: T) {
    || (AllOutside(views) && Chain(pairs, from, val))
    || exists i :: Only(views, i) && Joins(views[i], val, pairs, from)
  }

  function Count(b: bool): nat {
    if b then 1 else 0
  }

  /** Two calls in progress, and no store since the first of them began. */
  ghost predicate Clash<T>(views: seq<CallView<T>>, i: int, j: int, val: T, pairs: seq<(T, T)>) {
    && 0 <= i < |views| && 0 <= j < |views| && i != j && views[i].Inside? && views[j].Inside?
    && Tail(pairs, Count(views[i].called) + Count(views[j].called), val)
  }

  /** Two neighbouring pairs do not join. */
  ghost predicate Broken<T>(pairs: seq<(T, T)>) {
    exists i :: 0 < i < |pairs| && pairs[i - 1].1 != pairs[i].0
  }

  ghost predicate Doomed<T>(views: seq<CallView<T>>, val: T, pairs: seq<(T, T)>) {
    Broken(pairs) || exists i, j :: Clash(views, i, j, val, pairs)
  }

  ghost predicate Tracks<T>(views: seq<CallView<T>>, val: T, pairs: seq<(T, T)>, open: set<nat>,
                            serial: bool, from: T)
  {
    Numbers(views, open) && if serial then Orderly(views, val, pairs, from) else Doomed(views, val, pairs)
  }

  lemma {:induction false} ChainSnoc<T>(pairs: seq<(T, T)>, from: T, val: T, v: T)
    requires Chain(pairs, from, val) && v != val
    ensures Chain(pairs + [(val, v)], from, v)
  {
    if pairs != [] {
      assert (pairs + [(val, v)])[1..] == pairs[1..] + [(val, v)];
      ChainSnoc(pairs[1..], pairs[0].1, val, v);
    } else {
      assert ([] + [(val, v)])[1..] == [];
    }
  }

  lemma {:induction false} BrokenIsNoChain<T>(pairs: seq<(T, T)>, i: nat, from: T, to: T)
    requires 0 < i < |pairs| && pairs[i - 1].1 != pairs[i].0
    ensures !Chain(pairs, from, to)
  {
    if i > 1 {
      BrokenIsNoChain(pairs[1..], i - 1, pairs[0].1, to);
    }
  }

  lemma BrokenStays<T>(pairs: seq<(T, T)>, p: (T, T))
    requires Broken(pairs)
    ensures Broken(pairs + [p])
  {
    var i :| 0 < i < |pairs| && pairs[i - 1].1 != pairs[i].0;
    assert 0 < i < |pairs + [p]| && (pairs + [p])[i - 1].1 != (pairs + [p])[i].0;
  }

  // ------------------------------------------------------ the three moves

  /** A call begins on thread `i`. */
  lemma Begin<T>(views: seq<CallView<T>>, val: T, pairs: seq<(T, T)>, open: set<nat>, serial: bool, from: T, i: nat,
      c: nat, v: T)
    requires Tracks(views, val, pairs, open, serial, from) && i < |views| && views[i].Outside? && c !in open
    ensures Tracks(views[i := Inside(c, v, false)], val, pairs, open + {c}, serial && open == {}, from)
  {
    var views' := views[i := Inside(c, v, false)];
    BeginNumbers(views, open, i, c, v);
    if serial && open == {} {
      assert AllOutside(views);
      assert Only(views', i) && Joins(views'[i], val, pairs, from);
    } else if serial {
      var k :| Only(views, k) && Joins(views[k], val, pairs, from);
      assert Clash(views', k, i, val, pairs);
    } else if !Broken(pairs) {
      var k, j :| Clash(views, k, j, val, pairs);
      assert Clash(views', k, j, val, pairs);
    }
  }

  lemma BeginNumbers<T>(views: seq<CallView<T>>, open: set<nat>, i: nat, c: nat, v: T)
    requires Numbers(views, open) && i < |views| && views[i].Outside? && c !in open
    ensures Numbers(views[i := Inside(c, v, false)], open + {c})
    ensures open != {} ==> !AllOutside(views)
    ensures open == {} ==> AllOutside(views)
  {
    var views' := views[i := Inside(c, v, false)];
    forall d | d in open + {c} ensures exists k :: 0 <= k < |views'| && views'[k].Inside? && views'[k].c == d {
      if d == c {
        assert views'[i].c == c;
      } else {
        var k :| 0 <= k < |views| && views[k].Inside? && views[k].c == d;
        assert views'[k].c == d;
      }
    }
    if open != {} {
      var d :| d in open;
      var k :| 0 <= k < |views| && views[k].Inside? && views[k].c == d;
      assert !views[k].Outside?;
    }
  }

  /** Thread `i` calls the listener. */
  lemma CallListener<T>(views: seq<CallView<T>>, val: T, pairs: seq<(T, T)>, open: set<nat>, serial: bool, from: T,
      i: nat)
    requires Tracks(views, val, pairs, open, serial, from)
    requires i < |views| && views[i].Inside? && !views[i].called && views[i].v != val
    ensures Tracks(views[i := views[i].(called := true)], val, pairs + [(val, views[i].v)], open, serial, from)
  {
    var views', p := views[i := views[i].(called := true)], (val, views[i].v);
    CalledNumbers(views, open, i);
    if serial {
      var k :| Only(views, k) && Joins(views[k], val, pairs, from);
      assert k == i;
      ChainSnoc(pairs, from, val, views[i].v);
      assert Only(views', i) && Joins(views'[i], val, pairs + [p], from);
    } else if Broken(pairs) {
      BrokenStays(pairs, p);
    } else {
      var k, j :| Clash(views, k, j, val, pairs);
      assert Clash(views', k, j, val, pairs + [p]);
    }
  }

  lemma CalledNumbers<T>(views: seq<CallView<T>>, open: set<nat>, i: nat)
    requires Numbers(views, open) && i < |views| && views[i].Inside?
    ensures Numbers(views[i := views[i].(called := true)], open)
  {
    var views' := views[i := views[i].(called := true)];
    forall c | c in open ensures exists k :: 0 <= k < |views'| && views'[k].Inside? && views'[k].c == c {
      var k :| 0 <= k < |views| && views[k].Inside? && views[k].c == c;
      assert views'[k].c == c;
    }
  }

  /** Thread `i` stores its value: the write lock keeps everyone out of a round. */
  lemma Store<T>(views: seq<CallView<T>>, val: T, pairs: seq<(T, T)>, open: set<nat>, serial: bool, from: T, i: nat)
    requires Tracks(views, val, pairs, open, serial, from) && i < |views| && views[i].Inside?
    requires forall j | 0 <= j < |views| && views[j].Inside? :: views[j].called
    ensures Tracks(views[i := Outside], views[i].v, pairs, open - {views[i].c}, serial, from)
  {
    StoredNumbers(views, open, i);
    if serial {
      var k :| Only(views, k) && Joins(views[k], val, pairs, from);
      assert k == i && AllOutside(views[i := Outside]);
    } else if k, j :| Clash(views, k, j, val, pairs) {
      TwoClashingPairsBreak(pairs, val);
    }
  }

  lemma TwoClashingPairsBreak<T>(pairs: seq<(T, T)>, val: T)
    requires Tail(pairs, 2, val)
    ensures Broken(pairs)
  {
    assert pairs[|pairs| - 2].1 != pairs[|pairs| - 1].0;
  }

  lemma StoredNumbers<T>(views: seq<CallView<T>>, open: set<nat>, i: nat)
    requires Numbers(views, open) && i < |views| && views[i].Inside?
    ensures Numbers(views[i := Outside], open - {views[i].c})
  {
    var views' := views[i := Outside];
    forall c | c in open - {views[i].c} ensures exists k :: 0 <= k < |views'| && views'[k].Inside? && views'[k].c == c {
      var k :| 0 <= k < |views| && views[k].Inside? && views[k].c == c;
      assert views'[k].c == c;
    }
  }

  // ---------------------------------------------------- steps of the system

  ghost predicate Follows<T>(s: System<T>, h: seq<Event<T>>, key: nat, from: T) {
    Tracks(ViewsOf(s, key), s.val, PairsOf(h, key), OpenCalls(h), Serial(h), from)
  }

  ghost predicate SameViews<T>(s: System<T>, s': System<T>, key: nat) {
    ViewsOf(s', key) == ViewsOf(s, key) && s'.val == s.val
  }

  /** An event that changes nothing the listener can see. */
  predicate IsSilent<T>(e: Event<T>, key: nat) {
    !e.Began? && !e.Wrote? && !(e.Notified? && e.key == key)
  }

  lemma SilentStep<T>(s: System<T>, s': System<T>, h: seq<Event<T>>, h': seq<Event<T>>, key: nat, from: T)
    requires Follows(s, h, key, from) && SameViews(s, s', key)
    requires h' == h || exists e :: h' == h + [e] && IsSilent(e, key)
    ensures Follows(s', h', key, from)
  {
    if h' != h {
      var e :| h' == h + [e] && IsSilent(e, key);
      FoldsSnoc(h, e, key);
      assert PairsOf(h, key) + [] == PairsOf(h, key);
    }
  }

  /** Thread `i` moves, and the others look the same: the listeners stay, or nobody is
      in a round. */
  lemma OthersLookTheSame<T(!new)>(s: System<T>, s': System<T>, i: nat, key: nat)
    requires i < |s.threads| && |s'.threads| == |s.threads|
    requires forall j | 0 <= j < |s.threads| && j != i :: s'.threads[j] == s.threads[j]
    requires s'.keys == s.keys || forall j | 0 <= j < |s.threads| && j != i :: !s.threads[j].InRound?
    ensures ViewsOf(s', key) == ViewsOf(s, key)[i := ViewOf(s'.keys, s'.threads[i], key)]
  {}

  lemma NobodyInARound<T(!new)>(s: System<T>, i: nat, default: T)
    requires Inv(s, default) && i < |s.threads| && HoldsWrite(s.threads[i])
    ensures forall j | 0 <= j < |s.threads| :: !s.threads[j].InRound?
  {
    assert forall j | 0 <= j < |s.threads| && j != i :: !HoldsRead(s.threads[j]);
  }

  /** The steps at which a call begins, tells this listener, or stores. */
  ghost predicate IsLoud<T>(s: System<T>, i: nat, key: nat)
    requires i < |s.threads|
  {
    match s.threads[i]
    case WantSet(v) => v != s.val
    case InRound(_, _, done) => done < |s.keys| && s.keys[done] == key
    case MayStore(_, _, _, _) => true
    case _ => false
  }

  lemma QuietHistory<T(!new)>(s: System<T>, s': System<T>, i: nat, key: nat)
    requires Next(s, s', i) && !IsLoud(s, i, key)
    ensures s'.history == s.history || exists e :: s'.history == s.history + [e] && IsSilent(e, key)
    ensures s'.val == s.val && s'.threads == s.threads[i := s'.threads[i]]
    ensures s'.keys == s.keys || HoldsWrite(s.threads[i])
  {
    match s.threads[i]
    case InRound(c, v, done) =>
      var e := if done < |s.keys| then Notified(c, s.keys[done], s.val, v) else RoundOver(c, v);
      assert s'.history == s.history + [e] && IsSilent(e, key);
    case MayEdit(ed) =>
      var e: Event<T> := DidEdit(ed, if ed.Add? then s.lastId + 1 else 0);
      assert s'.history == s.history + [e] && IsSilent(e, key);
    case _ =>
  }

  /** A round that does not come to this listener now, or has come to its end. */
  lemma QuietView<T(!new)>(s: System<T>, s': System<T>, i: nat, key: nat, default: T)
    requires Inv(s, default) && Next(s, s', i) && key in s.keys && !IsLoud(s, i, key)
    ensures ViewOf(s'.keys, s'.threads[i], key) == ViewOf(s.keys, s.threads[i], key)
  {
    assert ThreadOk(s, s.threads[i]);
    match s.threads[i]
    case InRound(c, v, done) =>
      if done < |s.keys| {
        assert s.keys[..done + 1] == s.keys[..done] + [s.keys[done]];
      } else {
        assert s.keys[..done] == s.keys;
      }
    case _ =>
  }

  lemma QuietStepFollows<T(!new)>(s: System<T>, s': System<T>, i: nat, base: seq<Event<T>>,
                                  h: seq<Event<T>>, h': seq<Event<T>>, key: nat, from: T, default: T)
    requires Inv(s, default) && Next(s, s', i) && key in s.keys && !IsLoud(s, i, key)
    requires s.history == base + h && s'.history == base + h' && Follows(s, h, key, from)
    ensures Follows(s', h', key, from)
  {
    QuietHistory(s, s', i, key);
    QuietView(s, s', i, key, default);
    if HoldsWrite(s.threads[i]) { NobodyInARound(s, i, default); }
    OthersLookTheSame(s, s', i, key);
    hide Inv, Next, Follows, ViewOf, IsLoud;
    assert ViewsOf(s', key) == ViewsOf(s, key);
    if e :| s'.history == s.history + [e] && IsSilent(e, key) {
      SameBase(base, h, h', [e]);
    } else {
      SameBase(base, h, h', []);
    }
    SilentStep(s, s', h, h', key, from);
  }

  lemma SameBase<X>(base: seq<X>, h: seq<X>, h': seq<X>, more: seq<X>)
    requires base + h' == base + h + more
    ensures h' == h + more && h + [] == h
  {
    assert (base + h')[|base|..] == h' && (base + h + more)[|base|..] == h + more;
  }

  lemma BeginFollows<T(!new)>(s: System<T>, s': System<T>, i: nat, base: seq<Event<T>>,
                              h: seq<Event<T>>, h': seq<Event<T>>, key: nat, from: T, default: T)
    requires Inv(s, default) && Next(s, s', i) && s.threads[i].WantSet? && s.threads[i].v != s.val
    requires s.history == base + h && s'.history == base + h' && Follows(s, h, key, from)
    ensures Follows(s', h', key, from)
  {
    var v := s.threads[i].v;
    var e := Began(s.calls, s.keys, s.val, v);
    SameBase(base, h, h', [e]);
    FoldsSnoc(h, e, key);
    OthersLookTheSame(s, s', i, key);
    assert ViewOf(s'.keys, s'.threads[i], key) == Inside(s.calls, v, false);
    FreshCall(s, h, key, from, default);
    hide Inv, Next, Tracks, ViewOf, OpenCalls, PairsOf, Serial;
    assert PairsOf(h, key) + [] == PairsOf(h, key);
    Begin(ViewsOf(s, key), s.val, PairsOf(h, key), OpenCalls(h), Serial(h), from, i, s.calls, v);
  }

  /** The next call's number is not in use. */
  lemma FreshCall<T(!new)>(s: System<T>, h: seq<Event<T>>, key: nat, from: T, default: T)
    requires Inv(s, default) && Follows(s, h, key, from)
    ensures s.calls !in OpenCalls(h)
  {
    var views := ViewsOf(s, key);
    forall c | c in OpenCalls(h) ensures c < s.calls {
      var j :| 0 <= j < |views| && views[j].Inside? && views[j].c == c;
      assert ThreadOk(s, s.threads[j]);
    }
  }

  lemma CallFollows<T(!new)>(s: System<T>, s': System<T>, i: nat, base: seq<Event<T>>,
                             h: seq<Event<T>>, h': seq<Event<T>>, key: nat, from: T, default: T)
    requires Inv(s, default) && Next(s, s', i) && s.threads[i].InRound? && IsLoud(s, i, key)
    requires s.history == base + h && s'.history == base + h' && Follows(s, h, key, from)
    ensures Follows(s', h', key, from)
  {
    assert ThreadOk(s, s.threads[i]);
    var InRound(c, v, done) := s.threads[i];
    var e := Notified(c, key, s.val, v);
    SameBase(base, h, h', [e]);
    FoldsSnoc(h, e, key);
    OthersLookTheSame(s, s', i, key);
    assert key !in s.keys[..done] by { assert forall k | 0 <= k < done :: s.keys[k] < s.keys[done]; }
    assert s.keys[..done + 1] == s.keys[..done] + [key];
    hide Inv, Next, Tracks, OpenCalls, PairsOf, Serial;
    CallListener(ViewsOf(s, key), s.val, PairsOf(h, key), OpenCalls(h), Serial(h), from, i);
  }

  lemma StoreFollows<T(!new)>(s: System<T>, s': System<T>, i: nat, base: seq<Event<T>>,
                              h: seq<Event<T>>, h': seq<Event<T>>, key: nat, from: T, default: T)
    requires Inv(s, default) && Next(s, s', i) && s.threads[i].MayStore?
    requires s.history == base + h && s'.history == base + h' && Follows(s, h, key, from)
    ensures Follows(s', h', key, from)
  {
    var MayStore(c, v, _, _) := s.threads[i];
    var e := Wrote(c, v);
    SameBase(base, h, h', [e]);
    FoldsSnoc(h, e, key);
    NobodyInARound(s, i, default);
    OthersLookTheSame(s, s', i, key);
    hide Inv, Next, Tracks, OpenCalls, PairsOf, Serial;
    assert PairsOf(h, key) + [] == PairsOf(h, key);
    Store(ViewsOf(s, key), s.val, PairsOf(h, key), OpenCalls(h), Serial(h), from, i);
  }

  lemma StepFollows<T(!new)>(s: System<T>, s': System<T>, i: nat, base: seq<Event<T>>,
                             h: seq<Event<T>>, h': seq<Event<T>>, key: nat, from: T, default: T)
    requires Inv(s, default) && Next(s, s', i) && key in s.keys
    requires s.history == base + h && s'.history == base + h' && Follows(s, h, key, from)
    ensures Follows(s', h', key, from)
  {
    NextGrowsHistory(s, s', i);
    hide Inv, Next, Follows;
    if !IsLoud(s, i, key) {
      QuietStepFollows(s, s', i, base, h, h', key, from, default);
    } else {
      match s.threads[i]
      case WantSet(_) => BeginFollows(s, s', i, base, h, h', key, from, default);
      case InRound(_, _, _) => CallFollows(s, s', i, base, h, h', key, from, default);
      case _ => StoreFollows(s, s', i, base, h, h', key, from, default);
    }
  }

  // ------------------------------------------------------------ whole runs

  ghost predicate NoCallRunning<T>(s: System<T>) {
    forall i | 0 <= i < |s.threads| :: !InCall(s.threads[i])
  }

  lemma NextGrowsHistory<T(!new)>(s: System<T>, s': System<T>, i: nat)
    requires Next(s, s', i)
    ensures i < |s.threads| && s.history <= s'.history
  {}

  /** The events between two states of a run. */
  function Since<T>(s: System<T>, t: System<T>): seq<Event<T>>
    requires s.history <= t.history
  {
    t.history[|s.history|..]
  }

  lemma FollowsAtRest<T(!new)>(s: System<T>, key: nat)
    requires NoCallRunning(s)
    ensures Follows(s, Since(s, s), key, s.val)
  {
    assert Since(s, s) == [];
    assert AllOutside(ViewsOf(s, key));
  }

  lemma {:induction false} RunFollows<T(!new)>(states: seq<System<T>>, j: nat, k: nat, key: nat, default: T)
    requires j <= k < |states| && ConcurrentConfigVar.Run(states) && Initial(states[0], default)
    requires NoCallRunning(states[j]) && forall n | j <= n < k :: key in states[n].keys
    ensures states[j].history <= states[k].history
    ensures Follows(states[k], Since(states[j], states[k]), key, states[j].val)
  {
    hide Follows, Inv, CanStep, Initial, InCall;
    if j == k {
      FollowsAtRest(states[j], key);
    } else {
      RunFollows(states, j, k - 1, key, default);
      ReachableInv(states, k - 1, default);
      assert CanStep(states[k - 1], states[k]) && key in states[k - 1].keys;
      OneMoreFollows(states[j], states[k - 1], states[k], key, default);
    }
  }

  lemma OneMoreFollows<T(!new)>(r: System<T>, s: System<T>, s': System<T>, key: nat, default: T)
    requires Inv(s, default) && CanStep(s, s') && key in s.keys
    requires r.history <= s.history && Follows(s, Since(r, s), key, r.val)
    ensures r.history <= s'.history && Follows(s', Since(r, s'), key, r.val)
  {
    var i: nat :| Next(s, s', i);
    NextGrowsHistory(s, s', i);
    hide Next, Follows, Inv;
    StepFollows(s, s', i, r.history, Since(r, s), Since(r, s'), key, r.val, default);
  }

  /** Between two moments of any run at which no `setValue` is in progress, the pairs given
      to a listener registered throughout join end to end from the first value to the
      last if and only if no call began while another had begun and not yet stored. */
  lemma {:induction false} PairsChainIffNotOverlapping<T(!new)>(states: seq<System<T>>, j: nat, k: nat, key: nat,
      default: T)
    requires j <= k < |states| && ConcurrentConfigVar.Run(states) && Initial(states[0], default)
    requires NoCallRunning(states[j]) && NoCallRunning(states[k])
    requires forall n | j <= n < k :: key in states[n].keys
    ensures states[j].history <= states[k].history
    ensures var h := Since(states[j], states[k]);
            Chain(PairsOf(h, key), states[j].val, states[k].val) <==> !Overlapping(h)
  {
    RunFollows(states, j, k, key, default);
    var s, h := states[k], Since(states[j], states[k]);
    SerialIffNotOverlapping(h);
    var views, pairs := ViewsOf(s, key), PairsOf(h, key);
    assert AllOutside(views);
    hide ConcurrentConfigVar.Run, Initial, ViewOf, PairsOf, Serial, OpenCalls, Overlapping;
    if Serial(h) {
      assert Orderly(views, s.val, pairs, states[j].val);
    } else {
      assert Broken(pairs);
      var i :| 0 < i < |pairs| && pairs[i - 1].1 != pairs[i].0;
      BrokenIsNoChain(pairs, i, states[j].val, s.val);
    }
  }

  // ------------------------------------------------------ a run that breaks

  /** A run that ends in `s`, with `key` registered from state `j` on. */
  ghost predicate Reaches<T(!new)>(states: seq<System<T>>, s: System<T>, j: nat, key: nat) {
    && j < |states| && ConcurrentConfigVar.Run(states) && states[|states| - 1] == s
    && forall n | j <= n < |states| :: key in states[n].keys
  }

  lemma OneMove<T(!new)>(states: seq<System<T>>, s: System<T>, s': System<T>, i: nat, j: nat, key: nat)
      returns (longer: seq<System<T>>)
    requires Reaches(states, s, j, key) && Next(s, s', i) && key in s'.keys
    ensures Reaches(longer, s', j, key) && states <= longer
  {
    longer := states + [s'];
    hide Next;
    forall k | 0 < k < |longer| ensures CanStep(longer[k - 1], longer[k]) {
      if k < |states| {
        assert CanStep(states[k - 1], states[k]);
      } else {
        assert Next(longer[k - 1], longer[k], i);
      }
    }
  }

  /** Two threads and one listener, with key 1. */
  function Two<T>(val: T, a: Pc<T>, b: Pc<T>, calls: nat, history: seq<Event<T>>): System<T> {
    System(val, [1], 1, calls, [a, b], history)
  }

  /** A thread registers the listener. */
  lemma OneListener<T(!new)>(default: T) returns (states: seq<System<T>>)
    ensures states != [] && Reaches(states, Two(default, Idle, Idle, 0, [DidEdit(Add, 1)]), |states| - 1, 1)
    ensures Initial(states[0], default)
  {
    var s0: System<T> := System(default, [], 0, 0, [Idle, Idle], []);
    var s1: System<T> := Goto(s0, 0, WantEdit(Add));
    var s2: System<T> := Goto(s0, 0, MayEdit(Add));
    var e: Event<T> := DidEdit(Add, 1);
    var s3: System<T> := Two(default, Edited, Idle, 0, [e]);
    var s4: System<T> := Two(default, Idle, Idle, 0, [e]);
    assert s2 == Goto(s1, 0, MayEdit(Add));
    assert [] + [1] == [1] && [] + [e] == [e] && s2.threads[0 := Edited] == s3.threads;
    assert s3 == EditKeys(Goto(s2, 0, Edited), Add);
    assert s4 == Goto(s3, 0, Idle);
    states := [s0, s1, s2, s3, s4];
    assert Next(s0, s1, 0) && Next(s1, s2, 0) && Next(s2, s3, 0) && Next(s3, s4, 0);
  }

  /** Both threads call `setValue` and begin their rounds before either stores. */
  lemma BothBegin<T(!new)>(states: seq<System<T>>, d: T, v: T, w: T, h: seq<Event<T>>, j: nat)
      returns (longer: seq<System<T>>)
    requires Reaches(states, Two(d, Idle, Idle, 0, h), j, 1) && v != d && w != d
    ensures Reaches(longer,
            Two(d, InRound(0, v, 0), InRound(1, w, 0), 2, h + [Began(0, [1], d, v), Began(1, [1], d, w)]), j, 1)
    ensures states <= longer
  {
    var s1, s2 := Two(d, WantSet(v), Idle, 0, h), Two(d, WantSet(v), WantSet(w), 0, h);
    var s3 := Two(d, InRound(0, v, 0), WantSet(w), 1, h + [Began(0, [1], d, v)]);
    var s4 := Two(d, InRound(0, v, 0), InRound(1, w, 0), 2, h + [Began(0, [1], d, v), Began(1, [1], d, w)]);
    assert s1 == Goto(Two(d, Idle, Idle, 0, h), 0, WantSet(v)) && s2 == Goto(s1, 1, WantSet(w));
    longer := OneMove(states, Two(d, Idle, Idle, 0, h), s1, 0, j, 1);
    longer := OneMove(longer, s1, s2, 1, j, 1);
    longer := OneMove(longer, s2, s3, 0, j, 1);
    assert h + [Began(0, [1], d, v), Began(1, [1], d, w)] == h + [Began(0, [1], d, v)] + [Began(1, [1], d, w)];
    longer := OneMove(longer, s3, s4, 1, j, 1);
  }

  /** Both tell the listener, and end their rounds. */
  lemma BothTell<T(!new)>(states: seq<System<T>>, d: T, v: T, w: T, h: seq<Event<T>>, j: nat)
      returns (longer: seq<System<T>>)
    requires Reaches(states, Two(d, InRound(0, v, 0), InRound(1, w, 0), 2, h), j, 1)
    ensures Reaches(longer, Two(d, WantStore(0, v, [1], d), WantStore(1, w, [1], d), 2,
                                h + [Notified(0, 1, d, v)] + [RoundOver(0, v)]
                                + [Notified(1, 1, d, w)] + [RoundOver(1, w)]), j, 1)
    ensures states <= longer
  {
    var h1 := h + [Notified(0, 1, d, v)];
    var h2 := h1 + [RoundOver(0, v)];
    var h3 := h2 + [Notified(1, 1, d, w)];
    var s0, s1 := Two(d, InRound(0, v, 0), InRound(1, w, 0), 2, h), Two(d, InRound(0, v, 1), InRound(1, w, 0), 2, h1);
    var s2 := Two(d, WantStore(0, v, [1], d), InRound(1, w, 0), 2, h2);
    var s3 := Two(d, WantStore(0, v, [1], d), InRound(1, w, 1), 2, h3);
    var s4 := Two(d, WantStore(0, v, [1], d), WantStore(1, w, [1], d), 2, h3 + [RoundOver(1, w)]);
    longer := OneMove(states, s0, s1, 0, j, 1);
    longer := OneMove(longer, s1, s2, 0, j, 1);
    longer := OneMove(longer, s2, s3, 1, j, 1);
    longer := OneMove(longer, s3, s4, 1, j, 1);
  }

  /** One after the other stores its value. */
  lemma BothStore<T(!new)>(states: seq<System<T>>, d: T, v: T, w: T, h: seq<Event<T>>, j: nat)
      returns (longer: seq<System<T>>)
    requires Reaches(states, Two(d, WantStore(0, v, [1], d), WantStore(1, w, [1], d), 2, h), j, 1)
    ensures Reaches(longer, Two(w, Idle, Idle, 2, h + [Wrote(0, v)] + [Wrote(1, w)]), j, 1) && states <= longer
  {
    var a, b := WantStore(0, v, [1], d), WantStore(1, w, [1], d);
    var s1, s2 := Two(d, MayStore(0, v, [1], d), b, 2, h), Two(v, Stored, b, 2, h + [Wrote(0, v)]);
    var s3, s4 := Two(v, Idle, b, 2, h + [Wrote(0, v)]), Two(v, Idle, MayStore(1, w, [1], d), 2, h + [Wrote(0, v)]);
    var s5 := Two(w, Idle, Stored, 2, h + [Wrote(0, v)] + [Wrote(1, w)]);
    longer := OneMove(states, Two(d, a, b, 2, h), s1, 0, j, 1);
    longer := OneMove(longer, s1, s2, 0, j, 1);
    longer := OneMove(longer, s2, s3, 0, j, 1);
    longer := OneMove(longer, s3, s4, 1, j, 1);
    longer := OneMove(longer, s4, s5, 1, j, 1);
    longer := OneMove(longer, s5, Two(w, Idle, Idle, 2, h + [Wrote(0, v)] + [Wrote(1, w)]), 1, j, 1);
  }

  /** Such runs exist from every initial value: two calls that overlap give the listener
      (default, v) and then (default, w), which do not join. */
  lemma OverlappingCallsBreakTheChain<T(!new)>(default: T, v: T, w: T) returns (states: seq<System<T>>, j: nat, k: nat)
    requires v != default && w != default
    ensures j <= k < |states| && ConcurrentConfigVar.Run(states) && Initial(states[0], default)
    ensures NoCallRunning(states[j]) && NoCallRunning(states[k]) && forall n | j <= n <= k :: 1 in states[n].keys
    ensures states[j].history <= states[k].history
    ensures var h := Since(states[j], states[k]);
            && PairsOf(h, 1) == [(default, v), (default, w)] && Overlapping(h)
            && !Chain(PairsOf(h, 1), states[j].val, states[k].val)
  {
    var h0: seq<Event<T>> := [DidEdit(Add, 1)];
    states := OneListener(default);
    j := |states| - 1;
    states := BothBegin(states, default, v, w, h0, j);
    var h1 := h0 + [Began(0, [1], default, v), Began(1, [1], default, w)];
    states := BothTell(states, default, v, w, h1, j);
    var h2 := h1 + [Notified(0, 1, default, v)] + [RoundOver(0, v)] + [Notified(1, 1, default, w)] + [RoundOver(1, w)];
    states := BothStore(states, default, v, w, h2, j);
    k := |states| - 1;
    hide Next, ConcurrentConfigVar.Run;
    TheEvents(default, v, w, h0);
    var pairs := [(default, v), (default, w)];
    BrokenIsNoChain(pairs, 1, states[j].val, states[k].val);
    PairsChainIffNotOverlapping(states, j, k, 1, default);
  }

  lemma TheEvents<T>(d: T, v: T, w: T, h0: seq<Event<T>>)
    ensures var h := h0 + [Began(0, [1], d, v), Began(1, [1], d, w)] + [Notified(0, 1, d, v)] + [RoundOver(0, v)]
                     + [Notified(1, 1, d, w)] + [RoundOver(1, w)] + [Wrote(0, v)] + [Wrote(1, w)];
            h0 <= h && PairsOf(h[|h0|..], 1) == [(d, v), (d, w)]
  {
    var h1: seq<Event<T>> := [Began(0, [1], d, v)];
    var h2 := h1 + [Began(1, [1], d, w)];
    var h3 := h2 + [Notified(0, 1, d, v)];
    var h4 := h3 + [RoundOver(0, v)];
    var h5 := h4 + [Notified(1, 1, d, w)];
    var h6 := h5 + [RoundOver(1, w)];
    var h7 := h6 + [Wrote(0, v)];
    assert [] + h1 == h1;
    FoldsSnoc([], h1[0], 1);
    FoldsSnoc(h1, Began(1, [1], d, w), 1);
    FoldsSnoc(h2, Notified(0, 1, d, v), 1);
    FoldsSnoc(h3, RoundOver(0, v), 1);
    FoldsSnoc(h4, Notified(1, 1, d, w), 1);
    FoldsSnoc(h5, RoundOver(1, w), 1);
    FoldsSnoc(h6, Wrote(0, v), 1);
    FoldsSnoc(h7, Wrote(1, w), 1);
    var h := h0 + [Began(0, [1], d, v), Began(1, [1], d, w)] + [Notified(0, 1, d, v)] + [RoundOver(0, v)]
             + [Notified(1, 1, d, w)] + [RoundOver(1, w)] + [Wrote(0, v)] + [Wrote(1, w)];
    assert h[|h0|..] == h7 + [Wrote(1, w)];
  }
}
