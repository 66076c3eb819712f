/** The registry and `LoadFromYaml` (chord/config.h:410-480, chord/config.cpp:33-69),
    and what loading a document does to every variable. */
module Configs {
  import opened Options
  import opened ConfigLoad
  import opened ConfigVars
  import opened Yaml

  /** What `fromString` is given: a scalar's own text, or the dump of another node. */
  datatype Text = Raw(text: string) | Dumped(node: Node)

  function ToText(node: Node): Text {
    if node.Scalar? then Raw(node.text) else Dumped(node)
  }

  type Converter<T> = Text -> Option<T>

  // -------------------------------------------- loading, one variable's view

  predicate Hits(entry: (string, Node), name: string) {
    entry.0 != "" && ToLower(entry.0) == name
  }

  function Feed<T(==)>(s: VarState<T>, l: Listing, name: string, convert: Converter<T>): VarState<T> {
    if l == [] then s
    else
      var t, last := Feed(s, l[..|l| - 1], name, convert), l[|l| - 1];
      if Hits(last, name) then Apply(t, FromString(ToText(last.1)), convert) else t
  }

  /** The values listed for a name that convert, in order. */
  function Converted<T>(l: Listing, name: string, convert: Converter<T>): seq<T> {
    if l == [] then []
    else
      var before, last := Converted(l[..|l| - 1], name, convert), l[|l| - 1];
      if Hits(last, name) && convert(ToText(last.1)).Some? then before + [convert(ToText(last.1)).value] else before
  }

  lemma {:induction false} FeedTakesTheLast<T>(s: VarState<T>, l: Listing, name: string, convert: Converter<T>)
    ensures var vs, t := Converted(l, name, convert), Feed(s, l, name, convert);
            && t.val == (if vs == [] then s.val else vs[|vs| - 1])
            && t.keys == s.keys && t.lastId == s.lastId
  {
    if l != [] {
      FeedTakesTheLast(s, l[..|l| - 1], name, convert);
    }
  }

  lemma SetIsSilentIff<T(!new)>(s: VarState<T>, v: T)
    ensures |Set(s, v).notes| >= |s.notes|
    ensures |Set(s, v).notes| == |s.notes| <==> s.keys == [] || v == s.val
    ensures |Set(s, v).notes| == |s.notes| ==> Set(s, v).notes == s.notes
  {}

  /** Listeners are left alone exactly when every value is already the stored one. */
  lemma {:induction false} FeedIsSilentIff<T(!new)>(s: VarState<T>, l: Listing, name: string, convert: Converter<T>)
    ensures var vs, t := Converted(l, name, convert), Feed(s, l, name, convert);
            && |t.notes| >= |s.notes|
            && (|t.notes| == |s.notes| ==> t.notes == s.notes)
            && (t.notes == s.notes <==> s.keys == [] || forall v | v in vs :: v == s.val)
  {
    if l != [] {
      var front := l[..|l| - 1];
      var t, vs, text := Feed(s, front, name, convert), Converted(front, name, convert), ToText(l[|l| - 1].1);
      FeedIsSilentIff(s, front, name, convert);
      FeedTakesTheLast(s, front, name, convert);
      hide Feed, Converted;
      FeedUnfolds(s, l, name, convert);
      if Hits(l[|l| - 1], name) && convert(text).Some? {
        var v := convert(text).value;
        SetIsSilentIff(t, v);
        hide Set;
        assert (forall w | w in vs + [v] :: w == s.val) <==> (forall w | w in vs :: w == s.val) && v == s.val by {
          assert v in vs + [v] && forall w | w in vs :: w in vs + [v];
        }
        if vs != [] { assert vs[|vs| - 1] in vs; }
      }
    }
  }

  lemma FeedUnfolds<T>(s: VarState<T>, l: Listing, name: string, convert: Converter<T>)
    requires l != []
    ensures var t, vs := Feed(s, l[..|l| - 1], name, convert), Converted(l[..|l| - 1], name, convert);
            var text := ToText(l[|l| - 1].1);
            && Feed(s, l, name, convert) ==
               (if Hits(l[|l| - 1], name) && convert(text).Some? then Set(t, convert(text).value) else t)
            && Converted(l, name, convert) ==
               (if Hits(l[|l| - 1], name) && convert(text).Some? then vs + [convert(text).value] else vs)
  {}

  predicate AllEqual<T(==)>(vs: seq<T>) {
    forall i | 0 <= i < |vs| :: vs[i] == vs[|vs| - 1]
  }

  // ------------------------------------------------ loading, all variables

  type Vars<T> = map<string, VarState<T>>

  function LoadOne<T(==)>(vars: Vars<T>, entry: (string, Node), converts: map<string, Converter<T>>): Vars<T>
    requires vars.Keys == converts.Keys
  {
    var key := ToLower(entry.0);
    if entry.0 == "" || key !in vars then vars
    else vars[key := Apply(vars[key], FromString(ToText(entry.1)), converts[key])]
  }

  function LoadAll<T(==)>(vars: Vars<T>, l: Listing, converts: map<string, Converter<T>>): (r: Vars<T>)
    requires vars.Keys == converts.Keys
    ensures r.Keys == vars.Keys
  {
    if l == [] then vars else LoadOne(LoadAll(vars, l[..|l| - 1], converts), l[|l| - 1], converts)
  }

  lemma {:induction false} LoadAllByVariable<T>(vars: Vars<T>, l: Listing, converts: map<string, Converter<T>>,
      name: string)
    requires vars.Keys == converts.Keys && name in vars
    ensures LoadAll(vars, l, converts)[name] == Feed(vars[name], l, name, converts[name])
  {
    if l != [] {
      LoadAllByVariable(vars, l[..|l| - 1], converts, name);
    }
  }

  /** `LoadFromYaml` on values. */
  function Load<T(==)>(vars: Vars<T>, root: Node, converts: map<string, Converter<T>>): (r: Vars<T>)
    requires vars.Keys == converts.Keys
    ensures r.Keys == vars.Keys
  {
    LoadAll(vars, KeepValid(Flatten("", root)), converts)
  }

  /** The last value among all nodes of the document called `name` that converts:
      no pruning, no filter, no lower-casing. */
  function LastConverting<T>(all: Listing, name: string, convert: Converter<T>): Option<T> {
    if all == [] then None
    else
      var (key, node) := all[|all| - 1];
      if key == name && convert(ToText(node)).Some? then convert(ToText(node))
      else LastConverting(all[..|all| - 1], name, convert)
  }

  lemma KeepValidSnoc(front: Listing, e: (string, Node))
    ensures KeepValid(front + [e]) == if IsValidName(e.0) then KeepValid(front) + [e] else KeepValid(front)
  {
    KeepValidAppend(front, [e]);
    assert KeepValid([e]) == if IsValidName(e.0) then [e] else [];
    assert KeepValid(front) + [] == KeepValid(front);
  }

  lemma ConvertedSnoc<T>(kept: Listing, e: (string, Node), name: string, convert: Converter<T>)
    requires IsValidName(e.0) && name != ""
    ensures Converted(kept + [e], name, convert) ==
            var vs := Converted(kept, name, convert);
            if e.0 == name && convert(ToText(e.1)).Some? then vs + [convert(ToText(e.1)).value] else vs
  {
    LowerCasingIsIdentity(e.0);
    assert (kept + [e])[..|kept|] == kept;
  }

  lemma {:induction false} ConvertedEndsWithLast<T>(all: Listing, name: string, convert: Converter<T>)
    requires IsValidName(name) && name != ""
    ensures var vs, last := Converted(KeepValid(all), name, convert), LastConverting(all, name, convert);
            if vs == [] then last.None? else last == Some(vs[|vs| - 1])
  {
    hide Converted, KeepValid, IsValidName, LastConverting;
    if all == [] {
      NothingKept(name, convert);
    } else {
      var front, e := all[..|all| - 1], all[|all| - 1];
      ConvertedEndsWithLast(front, name, convert);
      LastSnoc(all, name, convert);
      FilterSnoc(all);
      if IsValidName(e.0) { ConvertedSnoc(KeepValid(front), e, name, convert); }
    }
  }

  lemma NothingKept<T>(name: string, convert: Converter<T>)
    ensures Converted(KeepValid([]), name, convert) == []
    ensures LastConverting([], name, convert).None?
  {}

  lemma LastSnoc<T>(all: Listing, name: string, convert: Converter<T>)
    requires all != []
    ensures var (key, node) := all[|all| - 1];
            LastConverting(all, name, convert) ==
            if key == name && convert(ToText(node)).Some? then convert(ToText(node))
            else LastConverting(all[..|all| - 1], name, convert)
  {}

  lemma FilterSnoc(all: Listing)
    requires all != []
    ensures var front, e := all[..|all| - 1], all[|all| - 1];
            KeepValid(all) == if IsValidName(e.0) then KeepValid(front) + [e] else KeepValid(front)
  {
    KeepValidSnoc(all[..|all| - 1], all[|all| - 1]);
    assert all == all[..|all| - 1] + [all[|all| - 1]];
  }

  /** Loading a document: each variable with a valid name ends with the last value the
      document gives it that converts, and is otherwise unchanged. A variable registered
      under the empty name, which is the root's, is never set. */
  lemma LoadSetsTheLastConvertingValue<T>(vars: Vars<T>, root: Node, converts: map<string, Converter<T>>, name: string)
    requires vars.Keys == converts.Keys && name in vars && IsValidName(name)
    ensures var r := Load(vars, root, converts)[name];
            var last := if name == "" then None else LastConverting(Flatten("", root), name, converts[name]);
            && r.val == (if last.Some? then last.value else vars[name].val)
            && r.keys == vars[name].keys
            && (last.None? ==> r == vars[name])
  {
    hide Flatten, KeepValid, Feed, Converted, LastConverting, LoadAll, IsValidName;
    var l := KeepValid(Flatten("", root));
    LoadAllByVariable(vars, l, converts, name);
    FeedTakesTheLast(vars[name], l, name, converts[name]);
    if name == "" {
      NothingForTheRoot(l, converts[name]);
    } else {
      ConvertedEndsWithLast(Flatten("", root), name, converts[name]);
    }
    FeedNothing(vars[name], l, name, converts[name]);
  }

  lemma {:induction false} NothingForTheRoot<T>(l: Listing, convert: Converter<T>)
    ensures Converted(l, "", convert) == []
  {
    if l != [] {
      NothingForTheRoot(l[..|l| - 1], convert);
      assert l[|l| - 1].0 != "" ==> |ToLower(l[|l| - 1].0)| > 0;
    }
  }

  lemma {:induction false} FeedNothing<T>(s: VarState<T>, l: Listing, name: string, convert: Converter<T>)
    ensures Converted(l, name, convert) == [] ==> Feed(s, l, name, convert) == s
  {
    if l != [] {
      FeedNothing(s, l[..|l| - 1], name, convert);
    }
  }

  /** Loading a document a second time never changes a value, and it calls no listener
      of a variable exactly when all values the document gives it are the same. */
  lemma ReloadIsIdempotent<T(!new)>(vars: Vars<T>, root: Node, converts: map<string, Converter<T>>, name: string)
    requires vars.Keys == converts.Keys && name in vars
    ensures var once := Load(vars, root, converts);
            var twice := Load(once, root, converts);
            && twice[name].val == once[name].val
            && (twice[name].notes == once[name].notes <==>
                  vars[name].keys == [] || AllEqual(Converted(KeepValid(Flatten("", root)), name, converts[name])))
  {
    var l, convert := KeepValid(Flatten("", root)), converts[name];
    var once, vs := Load(vars, root, converts), Converted(l, name, convert);
    LoadAllByVariable(vars, l, converts, name);
    LoadAllByVariable(once, l, converts, name);
    FeedTakesTheLast(vars[name], l, name, convert);
    FeedTakesTheLast(once[name], l, name, convert);
    FeedIsSilentIff(once[name], l, name, convert);
    assert (forall v | v in vs :: v == once[name].val) <==> AllEqual(vs) by {
      if AllEqual(vs) { assert forall v | v in vs :: v == once[name].val; }
      else { var i :| 0 <= i < |vs| && vs[i] != vs[|vs| - 1]; assert vs[i] in vs; }
    }
  }

  /** In particular when no two nodes of the document flatten to the variable's name. */
  lemma ReloadIsSilentWithoutDuplicates<T(!new)>(vars: Vars<T>, root: Node, converts: map<string, Converter<T>>,
                                                 name: string,
                                                 l: Listing)
    requires vars.Keys == converts.Keys && name in vars && l == KeepValid(Flatten("", root))
    requires forall i, j | 0 <= i < j < |l| :: !(Hits(l[i], name) && Hits(l[j], name))
    ensures var once := Load(vars, root, converts);
            Load(once, root, converts)[name].notes == once[name].notes
  {
    hide Flatten, KeepValid, Converted, Load;
    ReloadIsIdempotent(vars, root, converts, name);
    AtMostOneValue(l, name, converts[name]);
  }

  lemma {:induction false} AtMostOneValue<T>(l: Listing, name: string, convert: Converter<T>)
    requires forall i, j | 0 <= i < j < |l| :: !(Hits(l[i], name) && Hits(l[j], name))
    ensures |Converted(l, name, convert)| <= 1
    ensures (forall i | 0 <= i < |l| :: !Hits(l[i], name)) ==> Converted(l, name, convert) == []
  {
    if l != [] {
      AtMostOneValue(l[..|l| - 1], name, convert);
    }
  }

  // ------------------------------------------------------------ the registry

  /** `Lookup` with a default: the pointer, the null pointer, or the exception. */
  datatype Lookup<V> = Got(v: V) | WrongType | InvalidName

  /** All variables hold values of one type here; `kinds` are their dynamic types. */
  class Config<T(==, !new)> {
    const ids: ListenerIds
    var datas: map<string, ConfigVar<Text, T>>
    var kinds: map<string, nat>

    constructor (ids: ListenerIds)
      ensures Valid() && this.ids == ids && datas == map[]
    {
      this.ids, datas, kinds := ids, map[], map[];
    }

    /** Every registered name is valid and has a variable of its own. */
    ghost predicate Valid()
      reads this
    {
      && kinds.Keys == datas.Keys
      && (forall n | n in datas :: IsValidName(n) && datas[n].ids == ids)
      && (forall m, n | m in datas && n in datas && m != n :: datas[m] != datas[n])
    }

    ghost function View(): (r: Vars<T>)
      requires Valid()
      reads this, ids, datas.Values
      ensures r.Keys == datas.Keys
    {
      map n | n in datas :: datas[n].State()
    }

    ghost function Converts(): map<string, Converter<T>>
      reads this
    {
      map n | n in datas :: datas[n].convert
    }

    method Lookup(name: string, kind: nat, default: T, convert: Converter<T>) returns (r: Lookup<ConfigVar<Text, T>>)
      requires Valid()
      modifies this`datas, this`kinds
      ensures Valid()
      ensures name in old(datas) ==>
        datas == old(datas) && r == if old(kinds)[name] == kind then Got(datas[name]) else WrongType
      ensures name !in old(datas) && !IsValidName(name) ==> r == InvalidName && datas == old(datas)
      ensures name !in old(datas) && IsValidName(name) ==>
        && r.Got? && fresh(r.v) && datas == old(datas)[name := r.v] && kinds == old(kinds)[name := kind]
        && r.v.State() == VarState(default, [], ids.last, []) && r.v.convert == convert
    {
      if name in datas {
        if kinds[name] == kind {
          return Got(datas[name]);
        } else {
          return WrongType;
        }
      }
      if exists i | 0 <= i < |name| :: name[i] !in ALPHABET {
        return InvalidName;
      }
      var v := new ConfigVar<Text, T>(convert, ids, default);
      datas := datas[name := v];
      kinds := kinds[name := kind];
      r := Got(v);
    }

    method LookupBase(name: string) returns (r: ConfigVar?<Text, T>)
      ensures r == if name in datas then datas[name] else null
    {
      r := if name in datas then datas[name] else null;
    }

    /** The effect of one variable's `fromString` on the whole registry. */
    twostate lemma OneVariable(name: string, new v: VarState<T>)
      requires old(Valid()) && datas == old(datas) && Valid() && name in datas && datas[name].State() == v
      requires forall n | n in datas && n != name :: datas[n].State() == old(datas[n].State())
      ensures View() == old(View())[name := v]
    {}

    method LoadFromYaml(root: Node)
      requires Valid()
      modifies datas.Values
      ensures Valid() && View() == Load(old(View()), root, Converts())
    {
      hide Flatten, KeepValid, LoadAll;
      var all := ListAllMember("", root, []);
      assert all == KeepValid(Flatten("", root));
      LoadNodes(all);
    }

    method LoadNodes(all: Listing)
      requires Valid()
      modifies datas.Values
      ensures Valid() && View() == LoadAll(old(View()), all, Converts())
    {
      hide LoadAll, LoadOne;
      ghost var vars, converts := View(), Converts();
      LoadPrefix(vars, all, converts);
      for k := 0 to |all|
        invariant Valid() && View() == LoadAll(vars, all[..k], converts)
      {
        LoadSnoc(vars, all, k, converts);
        LoadListed(all[k]);
      }
    }

    /** One listed node: skips the root's empty name and unknown names. */
    method LoadListed(entry: (string, Node))
      requires Valid()
      modifies datas.Values
      ensures Valid() && View() == LoadOne(old(View()), entry, Converts())
    {
      var key := entry.0;
      if key == "" {
        return;
      }
      key := ToLower(key);
      var v := LookupBase(key);
      if v != null {
        ghost var before := View();
        if entry.1.Scalar? {
          var _ := v.FromString(Raw(entry.1.text));
        } else {
          var _ := v.FromString(Dumped(entry.1));
        }
        OneVariable(key, Apply(before[key], FromString(ToText(entry.1)), v.convert));
      }
    }
  }

  lemma LoadPrefix<T>(vars: Vars<T>, l: Listing, converts: map<string, Converter<T>>)
    requires vars.Keys == converts.Keys
    ensures LoadAll(vars, l[..0], converts) == vars
    ensures l[..|l|] == l
  {}

  lemma LoadSnoc<T>(vars: Vars<T>, l: Listing, k: nat, converts: map<string, Converter<T>>)
    requires vars.Keys == converts.Keys && k < |l|
    ensures LoadAll(vars, l[..k + 1], converts) == LoadOne(LoadAll(vars, l[..k], converts), l[k], converts)
  {
    assert l[..k + 1][..k] == l[..k];
  }
}
