/** Which listeners a `ConfigVar` has after any calls, and what each call tells them, said
    of the calls alone (chord/config.h:333-401). */
module ListenerKeys {
  import opened Options
  import opened ConfigVars

  /** How many keys the calls use up, here and for other variables of the type. */
  function KeysUsed<X, T>(ops: seq<Op<X, T>>): nat {
    if ops == [] then 0
    else
      var last := ops[|ops| - 1];
      KeysUsed(ops[..|ops| - 1]) + if last.AddListener? || last.AddElsewhere? then 1 else 0
  }

  predicate Forgets<X, T>(op: Op<X, T>, key: nat) {
    op.ClearListener? || (op.DelListener? && op.key == key)
  }

  /** No call from `i` on takes the listener out. */
  ghost predicate KeptFrom<X, T>(ops: seq<Op<X, T>>, i: nat, key: nat) {
    forall j | i <= j < |ops| :: !Forgets(ops[j], key)
  }

  /** Call `i` of a run whose first free key is `first + 1` hands out `key`. */
  ghost predicate HandsOut<X, T>(ops: seq<Op<X, T>>, first: nat, i: nat, key: nat) {
    i < |ops| && ops[i].AddListener? && key == first + KeysUsed(ops[..i]) + 1
  }

  /** A listener with this key is there: from the start, or added by some call, and not
      taken out since. */
  ghost predicate IsRegistered<X, T(!new)>(s: VarState<T>, ops: seq<Op<X, T>>, key: nat) {
    || (key in s.keys && KeptFrom(ops, 0, key))
    || exists i: nat :: HandsOut(ops, s.lastId, i, key) && KeptFrom(ops, i + 1, key)
  }

  lemma {:induction false} RunSnoc<X, T>(s: VarState<T>, ops: seq<Op<X, T>>, op: Op<X, T>, convert: X -> Option<T>)
    ensures Run(s, ops + [op], convert) == Apply(Run(s, ops, convert), op, convert)
    decreases |ops|
  {
    hide Apply;
    if ops == [] {
      assert ops + [op] == [op] && [op][1..] == [];
      assert Run(Apply(s, op, convert), [], convert) == Apply(s, op, convert);
    } else {
      assert (ops + [op])[0] == ops[0] && (ops + [op])[1..] == ops[1..] + [op];
      RunSnoc(Apply(s, ops[0], convert), ops[1..], op, convert);
    }
  }

  lemma RegisteredSnoc<X, T(!new)>(s: VarState<T>, ops: seq<Op<X, T>>, op: Op<X, T>, key: nat)
    ensures IsRegistered(s, ops + [op], key) <==>
            (IsRegistered(s, ops, key) && !Forgets(op, key))
            || (op.AddListener? && key == s.lastId + KeysUsed(ops) + 1)
  {
    var all := ops + [op];
    assert all[..|ops|] == ops;
    forall i: nat | i <= |ops| ensures KeptFrom(all, i, key) <==> KeptFrom(ops, i, key) && !Forgets(op, key) {
      assert forall j | i <= j < |ops| :: all[j] == ops[j];
      if KeptFrom(all, i, key) { assert !Forgets(all[|ops|], key); }
    }
    forall i: nat
      ensures HandsOut(all, s.lastId, i, key) <==>
              HandsOut(ops, s.lastId, i, key)
              || (i == |ops| && op.AddListener? && key == s.lastId + KeysUsed(ops) + 1)
    {
      if i < |ops| { assert all[..i] == ops[..i] && all[i] == ops[i]; }
    }
    if op.AddListener? && key == s.lastId + KeysUsed(ops) + 1 {
      assert HandsOut(all, s.lastId, |ops|, key) && KeptFrom(all, |ops| + 1, key);
    }
    if i: nat :| HandsOut(ops, s.lastId, i, key) && KeptFrom(ops, i + 1, key) && !Forgets(op, key) {
      assert HandsOut(all, s.lastId, i, key) && KeptFrom(all, i + 1, key);
    }
    hide HandsOut, KeptFrom;
  }

  lemma {:induction false} RunsOfKeys<X, T(!new)>(s: VarState<T>, ops: seq<Op<X, T>>, convert: X -> Option<T>)
    requires Valid(s)
    ensures Valid(Run(s, ops, convert))
    ensures Run(s, ops, convert).lastId == s.lastId + KeysUsed(ops)
    decreases |ops|
  {
    if ops != [] {
      var front, last := ops[..|ops| - 1], ops[|ops| - 1];
      assert ops == front + [last];
      RunsOfKeys(s, front, convert);
      RunSnoc(s, front, last, convert);
      StepKeepsValid(Run(s, front, convert), last, convert);
      hide Valid, Run;
    }
  }

  /** After any calls, a listener is registered if and only if it was there at the start, or
      some `addListener` returned its key, and it has been neither deleted nor cleared since. */
  lemma {:induction false} RegisteredIff<X, T(!new)>(s: VarState<T>, ops: seq<Op<X, T>>, convert: X -> Option<T>,
                                                    key: nat)
    requires Valid(s)
    ensures key in Run(s, ops, convert).keys <==> IsRegistered(s, ops, key)
    decreases |ops|
  {
    if ops == [] {
      assert KeptFrom(ops, 0, key);
    } else {
      var front, last := ops[..|ops| - 1], ops[|ops| - 1];
      assert ops == front + [last];
      RegisteredIff(s, front, convert, key);
      RegisteredSnoc(s, front, last, key);
      RunSnoc(s, front, last, convert);
      RunsOfKeys(s, front, convert);
      hide IsRegistered, Run, Valid, KeysUsed;
    }
  }

  /** `setValue` with another value calls exactly the listeners registered at that moment,
      each once and in the order of their keys, with the old value and the new one, and then
      stores it; with the value held it calls nobody. */
  lemma SetValueTellsTheRegistered<X, T(!new)>(s: VarState<T>, ops: seq<Op<X, T>>, v: T, convert: X -> Option<T>)
    requires Valid(s)
    ensures var t, u := Run(s, ops, convert), Run(s, ops + [SetValue(v)], convert);
            && u.val == v && u.keys == t.keys && t.notes <= u.notes
            && var told := u.notes[|t.notes|..];
               && (v == t.val ==> told == [])
               && (forall i, j | 0 <= i < j < |told| :: told[i].key < told[j].key)
               && (forall i | 0 <= i < |told| :: told[i].before == t.val && told[i].after == v)
               && (v != t.val ==> forall key: nat ::
                     (exists i :: 0 <= i < |told| && told[i].key == key) <==> IsRegistered(s, ops, key))
  {
    var t, u := Run(s, ops, convert), Run(s, ops + [SetValue(v)], convert);
    RunSnoc(s, ops, SetValue(v), convert);
    RunsOfKeys(s, ops, convert);
    var told := u.notes[|t.notes|..];
    assert v != t.val ==> told == Round(t.keys, t.val, v);
    if v != t.val {
      forall key: nat ensures (exists i :: 0 <= i < |told| && told[i].key == key) <==> IsRegistered(s, ops, key) {
        RegisteredIff(s, ops, convert, key);
        hide IsRegistered, Run;
        if key in t.keys {
          var i :| 0 <= i < |t.keys| && t.keys[i] == key;
          assert told[i].key == key;
        }
      }
    }
    hide Run, IsRegistered;
  }

  /** A text that converts does what `setValue` does with its value, throwing listeners
      included. */
  lemma FromStringIsSetValue<X, T(!new)>(s: VarState<T>, ops: seq<Op<X, T>>, text: X, n: nat, convert: X -> Option<T>)
    requires convert(text).Some?
    ensures Run(s, ops + [FromString(text)], convert) == Run(s, ops + [SetValue(convert(text).value)], convert)
    ensures Run(s, ops + [FromStringUntil(text, n)], convert) ==
            Run(s, ops + [SetUntil(convert(text).value, n)], convert)
  {
    var v := convert(text).value;
    RunSnoc(s, ops, FromString(text), convert);
    RunSnoc(s, ops, SetValue(v), convert);
    RunSnoc(s, ops, FromStringUntil(text, n), convert);
    RunSnoc(s, ops, SetUntil(v, n), convert);
  }

  /** When the listener at position `n` throws, those up to it have been called as in a
      change that completes, and nothing else happens; with no such listener, or with the
      value held, the change completes. */
  lemma AThrowStopsTheRound<X, T(!new)>(s: VarState<T>, ops: seq<Op<X, T>>, v: T, n: nat, convert: X -> Option<T>)
    requires Valid(s)
    ensures var t, u := Run(s, ops, convert), Run(s, ops + [SetUntil(v, n)], convert);
            var full := Run(s, ops + [SetValue(v)], convert);
            if v == t.val || n >= |t.keys| then u == full
            else
              && |full.notes| == |t.notes| + |t.keys|
              && u == t.(notes := full.notes[..|t.notes| + n + 1])
  {
    var t := Run(s, ops, convert);
    RunSnoc(s, ops, SetUntil(v, n), convert);
    RunSnoc(s, ops, SetValue(v), convert);
    if v != t.val && n < |t.keys| {
      var round := Round(t.keys, t.val, v);
      assert (t.notes + round)[..|t.notes| + n + 1] == t.notes + round[..n + 1];
    }
    hide Run;
  }

  /** Only registered listeners are ever called. */
  lemma OnlyTheRegisteredAreTold<X, T(!new)>(s: VarState<T>, ops: seq<Op<X, T>>, op: Op<X, T>,
                                             convert: X -> Option<T>)
    requires Valid(s)
    ensures var t, u := Run(s, ops, convert), Run(s, ops + [op], convert);
            t.notes <= u.notes && forall i | |t.notes| <= i < |u.notes| :: IsRegistered(s, ops, u.notes[i].key)
  {
    var t, u := Run(s, ops, convert), Run(s, ops + [op], convert);
    RunSnoc(s, ops, op, convert);
    ToldIsAdded(t, op, convert);
    hide IsRegistered, Run, Apply;
    forall i | |t.notes| <= i < |u.notes| ensures IsRegistered(s, ops, u.notes[i].key) {
      assert u.notes[i] == Told(t, op, convert)[i - |t.notes|];
      RegisteredIff(s, ops, convert, u.notes[i].key);
    }
  }

  lemma NotRegisteredAgain<X, T(!new)>(s: VarState<T>, ops: seq<Op<X, T>>, op: Op<X, T>, more: seq<Op<X, T>>, key: nat)
    requires Valid(s) && Forgets(op, key) && key <= s.lastId + KeysUsed(ops)
    ensures !IsRegistered(s, ops + [op] + more, key)
    decreases |more|
  {
    if more == [] {
      RegisteredSnoc(s, ops, op, key);
      assert ops + [op] + more == ops + [op];
    } else {
      var front, last := more[..|more| - 1], more[|more| - 1];
      NotRegisteredAgain(s, ops, op, front, key);
      assert ops + [op] + more == (ops + [op] + front) + [last];
      RegisteredSnoc(s, ops + [op] + front, last, key);
      KeysOnlyGrow(ops, [op] + front);
      assert ops + ([op] + front) == ops + [op] + front;
      hide IsRegistered, KeysUsed, Valid;
    }
  }

  lemma {:induction false} KeysOnlyGrow<X, T>(ops: seq<Op<X, T>>, more: seq<Op<X, T>>)
    ensures KeysUsed(ops + more) >= KeysUsed(ops)
    decreases |more|
  {
    if more == [] {
      assert ops + more == ops;
    } else {
      var front := more[..|more| - 1];
      KeysOnlyGrow(ops, front);
      assert (ops + more)[..|ops + more| - 1] == ops + front;
    }
  }

  /** Once a listener has been deleted or cleared it is never called again, whatever calls
      follow: its key is not handed out a second time. */
  lemma {:induction false} TheForgottenAreNeverTold<X, T(!new)>(s: VarState<T>, ops: seq<Op<X, T>>, op: Op<X, T>,
      more: seq<Op<X, T>>, convert: X -> Option<T>, key: nat)
    requires Valid(s) && Forgets(op, key) && key <= Run(s, ops, convert).lastId
    ensures var t, u := Run(s, ops + [op], convert), Run(s, ops + [op] + more, convert);
            t.notes <= u.notes && forall i | |t.notes| <= i < |u.notes| :: u.notes[i].key != key
    decreases |more|
  {
    RunsOfKeys(s, ops, convert);
    if more == [] {
      assert ops + [op] + more == ops + [op];
    } else {
      var front, last := more[..|more| - 1], more[|more| - 1];
      TheForgottenAreNeverTold(s, ops, op, front, convert, key);
      var run := ops + [op] + front;
      assert ops + [op] + more == run + [last];
      NotRegisteredAgain(s, ops, op, front, key);
      OnlyTheRegisteredAreTold(s, run, last, convert);
      hide IsRegistered, Run, Forgets;
    }
  }
}
