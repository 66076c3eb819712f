/** `ConfigVar` used by one thread (chord/config.h:311-407): change notification,
    and what a listener sees over whole runs. The interleaved use is in
    `ConcurrentConfigVar`. */
module ConfigVars {
  import opened Options

  /** One listener call: the listener's key and the two values it is given. */
  datatype Note<T> = Note(key: nat, before: T, after: T)

  /** `keys` are the keys of `m_cbs`, ascending as a `std::map` iterates; `lastId` is
      the static counter of `addListener`; `notes` are the listener calls so far. */
  datatype VarState<T> = VarState(val: T, keys: seq<nat>, lastId: nat, notes: seq<Note<T>>)

  ghost predicate Ascending(keys: seq<nat>) {
    forall i, j | 0 <= i < j < |keys| :: keys[i] < keys[j]
  }

  ghost predicate Valid<T(!new)>(s: VarState<T>) {
    Ascending(s.keys) && forall k | k in s.keys :: k <= s.lastId
  }

  function Round<T>(keys: seq<nat>, before: T, after: T): (r: seq<Note<T>>)
    ensures |r| == |keys| && forall i | 0 <= i < |keys| :: r[i] == Note(keys[i], before, after)
  {
    seq(|keys|, i requires 0 <= i < |keys| => Note(keys[i], before, after))
  }

  function Set<T(==)>(s: VarState<T>, v: T): VarState<T> {
    if v == s.val then s else s.(val := v, notes := s.notes + Round(s.keys, s.val, v))
  }

  /** A change in which the listener at position `n` throws: those up to it have been
      called, and nothing is stored. */
  function SetPartly<T(==)>(s: VarState<T>, v: T, n: nat): VarState<T> {
    if n >= |s.keys| || v == s.val then Set(s, v) else s.(notes := s.notes + Round(s.keys, s.val, v)[..n + 1])
  }

  function Without(keys: seq<nat>, key: nat): (r: seq<nat>)
    ensures key !in r
    ensures forall k | k in r :: k in keys
    ensures forall k | k in keys && k != key :: k in r
    ensures key !in keys ==> r == keys
  {
    if keys == [] then []
    else (if keys[0] == key then [] else [keys[0]]) + Without(keys[1..], key)
  }

  /** The calls a program makes on a variable. Texts are of type `X`. A listener added to
      another variable of the type uses up a key here too. In `SetUntil` and
      `FromStringUntil` the listener at position `n` throws. */
  datatype Op<X, T> =
    | SetValue(v: T) | FromString(text: X)
    | SetUntil(v: T, n: nat) | FromStringUntil(text: X, n: nat)
    | AddListener | AddElsewhere | DelListener(key: nat) | ClearListener

  function Apply<X, T(==)>(s: VarState<T>, op: Op<X, T>, convert: X -> Option<T>): VarState<T> {
    match op
    case SetValue(v) => Set(s, v)
    case FromString(text) => if convert(text).Some? then Set(s, convert(text).value) else s
    case SetUntil(v, n) => SetPartly(s, v, n)
    case FromStringUntil(text, n) => if convert(text).Some? then SetPartly(s, convert(text).value, n) else s
    case AddListener => s.(keys := s.keys + [s.lastId + 1], lastId := s.lastId + 1)
    case AddElsewhere => s.(lastId := s.lastId + 1)
    case DelListener(key) => s.(keys := Without(s.keys, key))
    case ClearListener => s.(keys := [])
  }

  function Run<X, T(==)>(s: VarState<T>, ops: seq<Op<X, T>>, convert: X -> Option<T>): VarState<T>
    decreases |ops|
  {
    if ops == [] then s else Run(Apply(s, ops[0], convert), ops[1..], convert)
  }

  function SetOp<X, T>(v: T, raisesAt: Option<nat>): Op<X, T> {
    if raisesAt.Some? then Op.SetUntil(v, raisesAt.value) else Op.SetValue(v)
  }

  function FromStringOp<X, T>(text: X, raisesAt: Option<nat>): Op<X, T> {
    if raisesAt.Some? then Op.FromStringUntil(text, raisesAt.value) else Op.FromString(text)
  }

  // ---------------------------------------------------------- the class

  /** The `static uint64_t` shared by all variables of one type. */
  class ListenerIds {
    var last: nat
    constructor () { last := 0; }
  }

  class ConfigVar<X(!new), T(==, !new)> {
    const convert: X -> Option<T>  // FromStr; None when it throws
    const ids: ListenerIds
    var m_val: T
    var m_cbs: seq<nat>
    ghost var notes: seq<Note<T>>

    constructor (convert: X -> Option<T>, ids: ListenerIds, default: T)
      ensures this.convert == convert && this.ids == ids
      ensures State() == VarState(default, [], ids.last, [])
    {
      this.convert, this.ids, m_val, m_cbs, notes := convert, ids, default, [], [];
    }

    ghost function State(): VarState<T>
      reads this, ids
    {
      VarState(m_val, m_cbs, ids.last, notes)
    }

    /** `raisesAt` is the position of a listener that throws, if any; the exception goes to
        the caller before the value is stored. */
    method SetValue(v: T, raisesAt: Option<nat> := None) returns (raised: bool)
      modifies this
      ensures State() == Apply(old(State()), SetOp<X, T>(v, raisesAt), convert)
      ensures raised <==> v != old(m_val) && raisesAt.Some? && raisesAt.value < |m_cbs|
    {
      if v == m_val {
        return false;
      } else {
        for i := 0 to |m_cbs|
          invariant m_val == old(m_val) && m_cbs == old(m_cbs)
          invariant notes == old(notes) + Round(m_cbs, m_val, v)[..i]
          invariant raisesAt.Some? ==> raisesAt.value >= i
        {
          notes := notes + [Note(m_cbs[i], m_val, v)];
          if raisesAt == Some(i) {
            return true;
          }
        }
      }
      m_val := v;
      raised := false;
    }

    /** Always answers false, whether or not the text converts; an exception ends here. */
    method FromString(text: X, raisesAt: Option<nat> := None) returns (r: bool)
      modifies this
      ensures State() == Apply(old(State()), FromStringOp<X, T>(text, raisesAt), convert)
      ensures !r
    {
      if convert(text).Some? {
        var _ := SetValue(convert(text).value, raisesAt);
      }
      r := false;
    }

    method AddListener() returns (key: nat)
      modifies this, ids
      ensures State() == Apply(old(State()), Op<X, T>.AddListener, convert)
      ensures key == State().lastId
    {
      ids.last := ids.last + 1;
      m_cbs := m_cbs + [ids.last];
      key := ids.last;
    }

    method DelListener(key: nat)
      modifies this
      ensures State() == Apply(old(State()), Op<X, T>.DelListener(key), convert)
    {
      m_cbs := Without(m_cbs, key);
    }

    method ClearListener()
      modifies this
      ensures State() == Apply(old(State()), Op<X, T>.ClearListener, convert)
    {
      m_cbs := [];
    }
  }

  // ---------------------------------------------------- invariants of runs

  lemma {:induction false} WithoutKeepsOrder(keys: seq<nat>, key: nat)
    requires Ascending(keys)
    ensures Ascending(Without(keys, key))
  {
    if keys != [] {
      WithoutKeepsOrder(keys[1..], key);
      var rest := Without(keys[1..], key);
      forall j | 0 <= j < |rest| ensures keys[0] < rest[j] {
        assert rest[j] in keys[1..];
      }
    }
  }

  lemma StepKeepsValid<X, T(!new)>(s: VarState<T>, op: Op<X, T>, convert: X -> Option<T>)
    requires Valid(s)
    ensures Valid(Apply(s, op, convert))
    ensures Apply(s, op, convert).lastId >= s.lastId
  {
    if op.DelListener? {
      WithoutKeepsOrder(s.keys, op.key);
    } else if op.AddListener? {
      forall i | 0 <= i < |s.keys| ensures s.keys[i] < s.lastId + 1 {
        assert s.keys[i] in s.keys;
      }
    }
  }

  lemma {:induction false} RunKeepsValid<X, T(!new)>(s: VarState<T>, ops: seq<Op<X, T>>, convert: X -> Option<T>)
    requires Valid(s)
    ensures Valid(Run(s, ops, convert)) && Run(s, ops, convert).lastId >= s.lastId
    decreases |ops|
  {
    if ops != [] {
      StepKeepsValid(s, ops[0], convert);
      RunKeepsValid(Apply(s, ops[0], convert), ops[1..], convert);
    }
  }

  /** The keys handed out by a run. */
  function Added<X, T(==)>(s: VarState<T>, ops: seq<Op<X, T>>, convert: X -> Option<T>): seq<nat>
    decreases |ops|
  {
    if ops == [] then []
    else (if ops[0].AddListener? then [s.lastId + 1] else []) + Added(Apply(s, ops[0], convert), ops[1..], convert)
  }

  /** Keys are never reused, not even after deletion: every key handed out is larger
      than all before it and than every key that was registered at the start. */
  lemma {:induction false} KeysAreNeverReused<X, T(!new)>(s: VarState<T>, ops: seq<Op<X, T>>, convert: X -> Option<T>)
    requires Valid(s)
    ensures Ascending(Added(s, ops, convert))
    ensures forall k, old_key | k in Added(s, ops, convert) && old_key in s.keys :: old_key < k
    ensures forall k | k in Added(s, ops, convert) :: s.lastId < k
    decreases |ops|
  {
    if ops != [] {
      StepKeepsValid(s, ops[0], convert);
      var t := Apply(s, ops[0], convert);
      KeysAreNeverReused(t, ops[1..], convert);
      var rest := Added(t, ops[1..], convert);
      forall i | 0 <= i < |rest| ensures t.lastId < rest[i] {
        assert rest[i] in rest;
      }
    }
  }

  // ---------------------------------------------------- the listener's view

  /** The pairs that listener `key` was given in a list of calls. */
  function Seen<T>(notes: seq<Note<T>>, key: nat): seq<(T, T)> {
    if notes == [] then []
    else (if notes[0].key == key then [(notes[0].before, notes[0].after)] else []) + Seen(notes[1..], key)
  }

  /** The pairs join end to end from `from` to `to`, each a real change. */
  ghost predicate Chain<T>(pairs: seq<(T, T)>, from: T, to: T) {
    if pairs == [] then from == to
    else pairs[0].0 == from && pairs[0].0 != pairs[0].1 && Chain(pairs[1..], pairs[0].1, to)
  }

  function SeenHead<T>(notes: seq<Note<T>>, key: nat): (r: seq<(T, T)>)
    requires notes != []
    ensures Seen(notes, key) == r + Seen(notes[1..], key)
  {
    if notes[0].key == key then [(notes[0].before, notes[0].after)] else []
  }

  lemma {:induction false} SeenAppend<T>(a: seq<Note<T>>, b: seq<Note<T>>, key: nat)
    ensures Seen(a + b, key) == Seen(a, key) + Seen(b, key)
  {
    if a == [] {
      assert a + b == b;
    } else {
      assert (a + b)[1..] == a[1..] + b;
      SeenAppend(a[1..], b, key);
      hide Seen;
      var head := SeenHead(a, key);
      assert Seen(a + b, key) == head + Seen((a + b)[1..], key) by { assert SeenHead(a + b, key) == head; }
      assert head + (Seen(a[1..], key) + Seen(b, key)) == head + Seen(a[1..], key) + Seen(b, key);
    }
  }

  lemma {:induction false} SeenNothing<T>(notes: seq<Note<T>>, key: nat)
    requires forall i | 0 <= i < |notes| :: notes[i].key != key
    ensures Seen(notes, key) == []
  {
    if notes != [] {
      SeenNothing(notes[1..], key);
    }
  }

  /** In one round a registered listener is called exactly once. */
  lemma {:induction false} SeenInRound<T>(keys: seq<nat>, before: T, after: T, key: nat)
    requires Ascending(keys) && key in keys
    ensures Seen(Round(keys, before, after), key) == [(before, after)]
  {
    var round := Round(keys, before, after);
    assert round[1..] == Round(keys[1..], before, after);
    if keys[0] == key {
      SeenNothing(round[1..], key);
    } else {
      SeenInRound(keys[1..], before, after, key);
    }
  }

  lemma SeenInPartOfRound<T>(keys: seq<nat>, before: T, after: T, key: nat, m: nat)
    requires Ascending(keys) && m <= |keys|
    ensures Seen(Round(keys, before, after)[..m], key) == if key in keys[..m] then [(before, after)] else []
  {
    var part := Round(keys[..m], before, after);
    assert Round(keys, before, after)[..m] == part;
    if key in keys[..m] { SeenInRound(keys[..m], before, after, key); } else { SeenNothing(part, key); }
  }

  /** The value a call would store. */
  function Wanted<X, T>(op: Op<X, T>, convert: X -> Option<T>): Option<T> {
    match op
    case SetValue(v) => Some(v)
    case SetUntil(v, _) => Some(v)
    case FromString(text) => convert(text)
    case FromStringUntil(text, _) => convert(text)
    case _ => None
  }

  /** How many listeners a call that stores another value gets to. */
  function Reached<X, T>(s: VarState<T>, op: Op<X, T>): (m: nat)
    ensures m <= |s.keys|
  {
    if (op.SetUntil? || op.FromStringUntil?) && op.n < |s.keys| then op.n + 1 else |s.keys|
  }

  predicate Raises<X, T>(s: VarState<T>, op: Op<X, T>) {
    (op.SetUntil? || op.FromStringUntil?) && op.n < |s.keys|
  }

  /** The listener calls one operation makes. */
  function Told<X, T(==)>(s: VarState<T>, op: Op<X, T>, convert: X -> Option<T>): seq<Note<T>> {
    var v := Wanted(op, convert);
    if v.None? || v.value == s.val then [] else Round(s.keys, s.val, v.value)[..Reached(s, op)]
  }

  lemma ToldIsAdded<X, T>(s: VarState<T>, op: Op<X, T>, convert: X -> Option<T>)
    ensures var t, v := Apply(s, op, convert), Wanted(op, convert);
            && t.notes == s.notes + Told(s, op, convert)
            && t.val == if v.None? || v.value == s.val || Raises(s, op) then s.val else v.value
  {
    assert Round(s.keys, s.val, s.val)[..|s.keys|] == Round(s.keys, s.val, s.val);
    var v := Wanted(op, convert);
    if v.Some? { assert Round(s.keys, s.val, v.value)[..|s.keys|] == Round(s.keys, s.val, v.value); }
  }

  /** The listener calls a run adds. */
  function NewNotes<X, T(==)>(s: VarState<T>, ops: seq<Op<X, T>>, convert: X -> Option<T>): seq<Note<T>>
    decreases |ops|
  {
    if ops == [] then []
    else Told(s, ops[0], convert) + NewNotes(Apply(s, ops[0], convert), ops[1..], convert)
  }

  lemma {:induction false} NotesGrowByNewNotes<X, T>(s: VarState<T>, ops: seq<Op<X, T>>, convert: X -> Option<T>)
    ensures Run(s, ops, convert).notes == s.notes + NewNotes(s, ops, convert)
    decreases |ops|
  {
    if ops != [] {
      NotesGrowByNewNotes(Apply(s, ops[0], convert), ops[1..], convert);
      ToldIsAdded(s, ops[0], convert);
    }
  }

  predicate StaysRegistered<X, T>(ops: seq<Op<X, T>>, key: nat) {
    forall i | 0 <= i < |ops| :: !ops[i].ClearListener? && (ops[i].DelListener? ==> ops[i].key != key)
  }

  /** The listener is told of a value that is then not stored, since one called after it,
      or itself, throws. */
  predicate InVain<X, T(==)>(s: VarState<T>, op: Op<X, T>, convert: X -> Option<T>, key: nat) {
    var v := Wanted(op, convert);
    v.Some? && v.value != s.val && Raises(s, op) && key in s.keys[..Reached(s, op)]
  }

  predicate NeverInVain<X, T(==)>(s: VarState<T>, ops: seq<Op<X, T>>, convert: X -> Option<T>, key: nat)
    decreases |ops|
  {
    ops == [] || (!InVain(s, ops[0], convert, key) && NeverInVain(Apply(s, ops[0], convert), ops[1..], convert, key))
  }

  /** What one operation shows a registered listener. */
  lemma SeenInStep<X, T(!new)>(s: VarState<T>, op: Op<X, T>, convert: X -> Option<T>, key: nat)
    requires Valid(s) && key in s.keys
    ensures var t, pairs, v := Apply(s, op, convert), Seen(Told(s, op, convert), key), Wanted(op, convert);
            if InVain(s, op, convert, key) then pairs == [(s.val, v.value)] && t.val == s.val != v.value
            else if t.val == s.val then pairs == []
            else pairs == [(s.val, t.val)]
  {
    ToldIsAdded(s, op, convert);
    var v := Wanted(op, convert);
    if v.Some? && v.value != s.val {
      SeenInPartOfRound(s.keys, s.val, v.value, key, Reached(s, op));
      assert s.keys[..|s.keys|] == s.keys;
    }
  }

  ghost predicate StartsAt<T>(pairs: seq<(T, T)>, val: T, last: T) {
    if pairs == [] then last == val else pairs[0].0 == val
  }

  lemma ChainCons<T>(p: (T, T), rest: seq<(T, T)>, to: T)
    ensures Chain([p] + rest, p.0, to) <==> p.0 != p.1 && Chain(rest, p.1, to)
  {
    assert ([p] + rest)[1..] == rest;
  }

  lemma VainBreaks<T>(pairs: seq<(T, T)>, val: T, v: T, last: T)
    requires StartsAt(pairs, val, last) && v != val
    ensures !Chain(pairs, v, last)
  {}

  lemma RegisteredStep<X, T(!new)>(s: VarState<T>, ops: seq<Op<X, T>>, convert: X -> Option<T>, key: nat)
    requires Valid(s) && key in s.keys && ops != [] && StaysRegistered(ops, key)
    ensures var t := Apply(s, ops[0], convert); Valid(t) && key in t.keys && StaysRegistered(ops[1..], key)
  {
    StepKeepsValid(s, ops[0], convert);
    assert !ops[0].ClearListener? && (ops[0].DelListener? ==> ops[0].key != key);
    forall i | 0 <= i < |ops[1..]|
      ensures !ops[1..][i].ClearListener? && (ops[1..][i].DelListener? ==> ops[1..][i].key != key)
    {
      assert ops[1..][i] == ops[i + 1];
    }
  }

  lemma {:induction false} NewNotesChainIff<X, T(!new)>(s: VarState<T>, ops: seq<Op<X, T>>,
                                                       convert: X -> Option<T>, key: nat)
    requires Valid(s) && key in s.keys && StaysRegistered(ops, key)
    ensures var pairs, last := Seen(NewNotes(s, ops, convert), key), Run(s, ops, convert).val;
            StartsAt(pairs, s.val, last) && (Chain(pairs, s.val, last) <==> NeverInVain(s, ops, convert, key))
    decreases |ops|
  {
    if ops != [] {
      var t := Apply(s, ops[0], convert);
      RegisteredStep(s, ops, convert, key);
      NewNotesChainIff(t, ops[1..], convert, key);
      var told, more := Told(s, ops[0], convert), NewNotes(t, ops[1..], convert);
      SeenAppend(told, more, key);
      SeenInStep(s, ops[0], convert, key);
      var rest, last := Seen(more, key), Run(s, ops, convert).val;
      hide Told, InVain, Apply, Valid, StaysRegistered, Chain;
      if Seen(told, key) == [] {
        assert [] + rest == rest;
      } else {
        ChainCons(Seen(told, key)[0], rest, last);
        if InVain(s, ops[0], convert, key) { VainBreaks(rest, s.val, Seen(told, key)[0].1, last); }
      }
    }
  }

  /** What a continuously registered listener sees over a whole run joins end to end, never
      equal, from the first value to the last, if and only if it was never told of a value
      that an exception then kept from being stored. */
  lemma {:induction false} ListenerSeesAChainIff<X, T(!new)>(s: VarState<T>, ops: seq<Op<X, T>>,
                                                            convert: X -> Option<T>, key: nat)
    requires Valid(s) && key in s.keys && StaysRegistered(ops, key)
    ensures |s.notes| <= |Run(s, ops, convert).notes|
    ensures Chain(Seen(Run(s, ops, convert).notes[|s.notes|..], key), s.val, Run(s, ops, convert).val)
            <==> NeverInVain(s, ops, convert, key)
  {
    NewNotesChainIff(s, ops, convert, key);
    NotesGrowByNewNotes(s, ops, convert);
    assert Run(s, ops, convert).notes[|s.notes|..] == NewNotes(s, ops, convert);
  }

  /** A text that does not convert changes nothing and is announced to nobody. */
  lemma {:induction false} FailedConversionsAreInvisible<X, T>(s: VarState<T>, before: seq<Op<X, T>>, text: X,
                                                              after: seq<Op<X, T>>, convert: X -> Option<T>)
    requires convert(text).None?
    ensures Run(s, before + [FromString(text)] + after, convert) == Run(s, before + after, convert)
    decreases |before|
  {
    var bad: Op<X, T> := FromString(text);
    if before == [] {
      assert before + [bad] + after == [bad] + after;
      assert ([bad] + after)[1..] == after && before + after == after;
    } else {
      assert (before + [bad] + after)[1..] == before[1..] + [bad] + after;
      assert (before + after)[1..] == before[1..] + after;
      FailedConversionsAreInvisible(Apply(s, before[0], convert), before[1..], text, after, convert);
    }
  }
}
