/** `Logger::log` in steps (chord/logger.cpp:324-343), with any number of threads logging
    and others reconfiguring: the level is tested before the lock is taken, so a call may
    have been admitted by a logger that is removed before the call gets to its lock. */
module LateLogCalls {
  import opened LogDefines
  import opened Reconciliation

  /** A call to logger `name` that has passed its level test. */
  datatype Pc =
    | Idle
    | Admitted(name: string, level: Level)  // before the logger's lock
    | AtRoot(name: string, level: Level)    // holds it, admitted by root, before root's lock

  /** A call has ended, having written `out`. */
  datatype Event = Ended(name: string, level: Level, out: seq<Output>)

  datatype System = System(m: Loggers, threads: seq<Pc>, history: seq<Event>)

  predicate IsOn(pc: Pc, name: string) {
    !pc.Idle? && pc.name == name
  }

  predicate IsLocked(s: System, name: string) {
    exists j | 0 <= j < |s.threads| :: s.threads[j].AtRoot? && s.threads[j].name == name
  }

  function End(s: System, i: nat, out: seq<Output>): System
    requires i < |s.threads| && !s.threads[i].Idle?
  {
    s.(threads := s.threads[i := Idle],
       history := s.history + [Ended(s.threads[i].name, s.threads[i].level, out)])
  }

  /** A call: the level test decides. */
  function Called(s: System, i: nat, name: string, level: Level): System
    requires i < |s.threads| && name in s.m
  {
    if level >= s.m[name].level then s.(threads := s.threads[i := Admitted(name, level)]) else s
  }

  /** Levels are plain fields; a list of appenders changes only under its logger's lock. */
  ghost predicate MayBecome(s: System, m: Loggers) {
    && s.m.Keys <= m.Keys
    && forall name | name in s.m && IsLocked(s, name) :: m[name].appenders == s.m[name].appenders
  }

  /** The logger's lock is taken: its appenders write, or root is asked. */
  function Entered(s: System, i: nat): System
    requires i < |s.threads| && s.threads[i].Admitted? && s.threads[i].name in s.m && ROOT in s.m
  {
    var Admitted(name, level) := s.threads[i];
    if s.m[name].appenders != [] then End(s, i, EmitEach(s.m[name].appenders, level))
    else if name == ROOT || level < s.m[ROOT].level then End(s, i, [])
    else s.(threads := s.threads[i := AtRoot(name, level)])
  }

  ghost predicate Next(s: System, s': System, i: nat) {
    && i < |s.threads| && ROOT in s.m
    && match s.threads[i]
       case Idle =>
         || (exists name, level: Level :: name in s.m && level <= FATAL && s' == Called(s, i, name, level))
         || (exists m :: MayBecome(s, m) && s' == s.(m := m))
       case Admitted(name, _) => name in s.m && !IsLocked(s, name) && s' == Entered(s, i)
       case AtRoot(_, level) => s' == End(s, i, EmitEach(s.m[ROOT].appenders, level))
  }

  ghost predicate CanStep(s: System, s': System) {
    exists i: nat :: Next(s, s', i)
  }

  /** A run during which logger `name` stays removed. */
  ghost predicate IsSilencedRun(states: seq<System>, name: string) {
    && states != []
    && (forall k | 0 < k < |states| :: CanStep(states[k - 1], states[k]))
    && forall k | 0 <= k < |states| :: name in states[k].m && states[k].m[name].level == TOO_HIGH
  }

  /** A call that no other thread interrupts writes what the sequential model says. */
  lemma AloneItIsEmit(s: System, i: nat, name: string, level: Level)
    requires i < |s.threads| && s.threads[i].Idle? && name in s.m && ROOT in s.m
    ensures var s1 := Called(s, i, name, level);
            if s1.threads[i].Idle? then s1 == s && Emit(s.m, name, level) == []
            else
              var s2 := Entered(s1, i);
              var s3 := if s2.threads[i].AtRoot? then End(s2, i, EmitEach(s2.m[ROOT].appenders, level)) else s2;
              s3 == s.(history := s.history + [Ended(name, level, Emit(s.m, name, level))])
  {
    assert s.threads[i := Idle] == s.threads;
  }

  // ---------------------------------------------------------- after a removal

  /** No call to `name` ends in these events. */
  predicate NoneEnded(h: seq<Event>, name: string) {
    forall k | 0 <= k < |h| :: h[k].name != name
  }

  /** Whoever was in a call to `name` still is. */
  predicate AllStill(s: System, t: System, name: string)
    requires |s.threads| == |t.threads|
  {
    forall i | 0 <= i < |s.threads| && IsOn(s.threads[i], name) :: IsOn(t.threads[i], name)
  }

  /** Nobody has come into a call to `name` who was not. */
  predicate NoneCame(s: System, t: System, name: string)
    requires |s.threads| == |t.threads|
  {
    forall i | 0 <= i < |s.threads| && IsOn(t.threads[i], name) :: IsOn(s.threads[i], name)
  }

  lemma OneStep(s: System, t: System, name: string)
    requires CanStep(s, t) && name in s.m && s.m[name].level == TOO_HIGH
    ensures |t.threads| == |s.threads| && s.history <= t.history
    ensures NoneCame(s, t, name)
    ensures NoneEnded(t.history[|s.history|..], name) <==> AllStill(s, t, name)
  {
    var i: nat :| Next(s, t, i);
    if t.history != s.history {
      var e := t.history[|s.history|];
      assert t.history == s.history + [e] && t.history[|s.history|..] == [e];
      assert e.name == s.threads[i].name && t.threads == s.threads[i := Idle];
      assert [e][0] == e;
    }
  }

  lemma {:induction false} SilencedRun(states: seq<System>, name: string)
    requires IsSilencedRun(states, name)
    ensures var s, t := states[0], states[|states| - 1];
            && |t.threads| == |s.threads| && s.history <= t.history
            && NoneCame(s, t, name)
            && (NoneEnded(t.history[|s.history|..], name) <==> AllStill(s, t, name))
    decreases |states|
  {
    var n := |states| - 1;
    if n > 0 {
      SilencedRun(states[..n], name);
      assert CanStep(states[n - 1], states[n]);
      OneStep(states[n - 1], states[n], name);
      hide CanStep, IsSilencedRun, NoneCame, AllStill, NoneEnded;
      Onwards(states[0], states[n - 1], states[n], name);
    }
  }

  /** What is silent up to a moment and from there on is silent throughout. */
  lemma Onwards(s: System, u: System, t: System, name: string)
    requires |s.threads| == |u.threads| == |t.threads| && s.history <= u.history <= t.history
    requires NoneCame(s, u, name) && NoneCame(u, t, name)
    requires NoneEnded(u.history[|s.history|..], name) <==> AllStill(s, u, name)
    requires NoneEnded(t.history[|u.history|..], name) <==> AllStill(u, t, name)
    ensures NoneCame(s, t, name) && (NoneEnded(t.history[|s.history|..], name) <==> AllStill(s, t, name))
  {
    NoneEndedAppend(u.history[|s.history|..], t.history[|u.history|..], name);
    assert t.history[|s.history|..] == u.history[|s.history|..] + t.history[|u.history|..];
    hide NoneEnded;
  }

  lemma NoneEndedAppend(h: seq<Event>, more: seq<Event>, name: string)
    ensures NoneEnded(h + more, name) <==> NoneEnded(h, name) && NoneEnded(more, name)
  {
    assert forall k | 0 <= k < |h| :: (h + more)[k] == h[k];
    assert forall k | 0 <= k < |more| :: (h + more)[|h| + k] == more[k];
  }

  /** From a logger's removal on, for as long as it stays removed, no call to it ends, and so
      none writes anything, not even through root, if and only if every call that had been
      admitted before the removal is still waiting for its lock. */
  lemma RemovedLoggerIsSilentIff(states: seq<System>, name: string)
    requires IsSilencedRun(states, name)
    ensures var s, t := states[0], states[|states| - 1];
            && |t.threads| == |s.threads| && s.history <= t.history
            && (NoneEnded(t.history[|s.history|..], name) <==>
                forall i | 0 <= i < |s.threads| && IsOn(s.threads[i], name) :: IsOn(t.threads[i], name))
  {
    SilencedRun(states, name);
  }

  /** Some call to `name` ends in a run from `s` in which it stays removed. */
  ghost predicate MayStillEnd(s: System, name: string) {
    exists states: seq<System> ::
      && IsSilencedRun(states, name) && states[0] == s
      && s.history <= states[|states| - 1].history
      && !NoneEnded(states[|states| - 1].history[|s.history|..], name)
  }

  lemma TwoStates(s: System, t: System, i: nat, name: string)
    requires Next(s, t, i) && t.m == s.m && name in s.m && s.m[name].level == TOO_HIGH
    ensures CanStep(s, t) && IsSilencedRun([s, t], name)
  {
    assert CanStep(s, t);
  }

  lemma EndShows(s: System, t: System, e: Event)
    requires t.history == s.history + [e]
    ensures s.history <= t.history && !NoneEnded(t.history[|s.history|..], e.name)
  {
    assert t.history[|s.history|..][0] == e;
  }

  /** A call that waits at the lock gets through: to root, if root admits it. */
  lemma LateCallEnds(s: System, i: nat) returns (states: seq<System>)
    requires i < |s.threads| && !s.threads[i].Idle? && ROOT in s.m && s.threads[i].name in s.m
    requires s.m[s.threads[i].name].level == TOO_HIGH
    requires s.threads[i].Admitted? ==> !IsLocked(s, s.threads[i].name)
    ensures IsSilencedRun(states, s.threads[i].name) && states[0] == s
    ensures var name, level, t := s.threads[i].name, s.threads[i].level, states[|states| - 1];
            && t.m == s.m && |t.history| == |s.history| + 1 && s.history <= t.history
            && (s.m[name].appenders == [] && name != ROOT && (s.threads[i].Admitted? ==> level >= s.m[ROOT].level) ==>
                  t.history == s.history + [Ended(name, level, EmitEach(s.m[ROOT].appenders, level))])
            && !NoneEnded(t.history[|s.history|..], name)
  {
    var name, level := s.threads[i].name, s.threads[i].level;
    if s.threads[i].AtRoot? {
      var t := End(s, i, EmitEach(s.m[ROOT].appenders, level));
      TwoStates(s, t, i, name);
      EndShows(s, t, t.history[|s.history|]);
      states := [s, t];
    } else {
      var u := Entered(s, i);
      TwoStates(s, u, i, name);
      if u.threads[i].AtRoot? {
        var t := End(u, i, EmitEach(u.m[ROOT].appenders, level));
        TwoStates(u, t, i, name);
        EndShows(s, t, t.history[|s.history|]);
        states := [s, u, t];
      } else {
        EndShows(s, u, u.history[|s.history|]);
        states := [s, u];
      }
    }
  }

  /** A removed logger can be heard of again exactly when some call had been admitted before
      its removal and not yet ended. */
  lemma NothingLeftToComeIff(s: System, name: string)
    requires ROOT in s.m && name in s.m && s.m[name].level == TOO_HIGH
    ensures MayStillEnd(s, name) <==> exists i :: 0 <= i < |s.threads| && IsOn(s.threads[i], name)
  {
    if MayStillEnd(s, name) {
      var states: seq<System> :| IsSilencedRun(states, name) && states[0] == s
        && s.history <= states[|states| - 1].history
        && !NoneEnded(states[|states| - 1].history[|s.history|..], name);
      RemovedLoggerIsSilentIff(states, name);
    }
    if i :| 0 <= i < |s.threads| && IsOn(s.threads[i], name) {
      var first := i;
      if s.threads[i].Admitted? && IsLocked(s, name) {
        first :| 0 <= first < |s.threads| && s.threads[first].AtRoot? && s.threads[first].name == name;
      }
      var states := LateCallEnds(s, first);
      assert MayStillEnd(s, name);
    }
  }
}
