/** The recursive `LexicalCast` family (chord/config.h:79-305): converting nested
    containers to YAML nodes and back, for any leaf type that round trips. */
module LexicalCasts {
  import opened Options
  import opened Yaml

  datatype Type =
    | Leaf
    | Vector(elem: Type)
    | List(elem: Type)
    | OrderedSet(elem: Type)
    | UnorderedSet(elem: Type)
    | OrderedMap(elem: Type)    // string-keyed
    | UnorderedMap(elem: Type)  // string-keyed

  datatype Value<L(==)> =
    | LeafValue(leaf: L)
    | SeqValue(items: seq<Value<L>>)
    | SetValue(members: set<Value<L>>)
    | MapValue(entries: map<string, Value<L>>)

  ghost predicate HasType<L>(v: Value<L>, ty: Type) {
    match ty
    case Leaf => v.LeafValue?
    case Vector(elem) => v.SeqValue? && forall x | x in v.items :: HasType(x, elem)
    case List(elem) => v.SeqValue? && forall x | x in v.items :: HasType(x, elem)
    case OrderedSet(elem) => v.SetValue? && forall x | x in v.members :: HasType(x, elem)
    case UnorderedSet(elem) => v.SetValue? && forall x | x in v.members :: HasType(x, elem)
    case OrderedMap(elem) => v.MapValue? && forall k | k in v.entries :: HasType(v.entries[k], elem)
    case UnorderedMap(elem) => v.MapValue? && forall k | k in v.entries :: HasType(v.entries[k], elem)
  }

  /** The leaf conversions, as the generic template provides them. */
  datatype Leaves<!L> = Leaves(encode: L -> Node, decode: Node -> Option<L>)

  ghost predicate RoundTrips<L(!new)>(lv: Leaves<L>) {
    forall l :: lv.decode(lv.encode(l)) == Some(l)
  }

  // -------------------------------------------------------------- encoding

  /** `es` lists the members of `s`, each once, in some order: the iteration order of
      an unordered container is not determined. */
  ghost predicate Enumerates<X>(es: seq<X>, s: set<X>) {
    && (forall e | e in es :: e in s)
    && (forall e | e in s :: e in es)
    && (forall i, j | 0 <= i < j < |es| :: es[i] != es[j])
  }

  /** `node` is an encoding of `v`: a default `YAML::Node` is Null, so empty containers
      are, and the first element turns it into a sequence or a map. */
  ghost predicate Encodes<L(!new)>(lv: Leaves<L>, v: Value<L>, node: Node)
    decreases node, 1
  {
    match v
    case LeafValue(leaf) => node == lv.encode(leaf)
    case SeqValue(items) =>
      if items == [] then node == Null
      else node.Sequence? && EncodesItems(lv, items, node)
    case SetValue(members) =>
      if members == {} then node == Null
      else node.Sequence? && exists es :: Enumerates(es, members) && EncodesItems(lv, es, node)
    case MapValue(entries) =>
      if entries == map[] then node == Null
      else
        && node.Mapping?
        && (forall i | 0 <= i < |node.entries| ::
              node.entries[i].key in entries && Encodes(lv, entries[node.entries[i].key], node.entries[i].value))
        && (forall k | k in entries :: exists i :: 0 <= i < |node.entries| && node.entries[i].key == k)
        && (forall i, j | 0 <= i < j < |node.entries| :: node.entries[i].key != node.entries[j].key)
  }

  ghost predicate EncodesItems<L(!new)>(lv: Leaves<L>, vs: seq<Value<L>>, node: Node)
    requires node.Sequence?
    decreases node, 0
  {
    |vs| == |node.items| && forall i | 0 <= i < |vs| :: Encodes(lv, vs[i], node.items[i])
  }

  // -------------------------------------------------------------- decoding

  function DecodeItems<L(==, !new)>(lv: Leaves<L>, ty: Type, nodes: seq<Node>): (r: Option<seq<Value<L>>>)
    ensures r.Some? ==> |r.value| == |nodes| && forall i | 0 <= i < |nodes| ::
            Decode(lv, ty, nodes[i]) == Some(r.value[i])
    ensures r.None? ==> exists i :: 0 <= i < |nodes| && Decode(lv, ty, nodes[i]).None?
    decreases ty, 1, |nodes|
  {
    if nodes == [] then Some([])
    else
      var first, rest := Decode(lv, ty, nodes[0]), DecodeItems(lv, ty, nodes[1..]);
      if first.Some? && rest.Some? then Some([first.value] + rest.value) else None
  }

  /** `insert` keeps the first of two entries with the same key. */
  function DecodeEntries<L(==, !new)>(lv: Leaves<L>, ty: Type, entries: seq<Entry>): (r: Option<map<string, Value<L>>>)
    decreases ty, 1, |entries|
  {
    if entries == [] then Some(map[])
    else
      var last := entries[|entries| - 1];
      var before, v := DecodeEntries(lv, ty, entries[..|entries| - 1]), Decode(lv, ty, last.value);
      if before.None? || v.None? then None
      else if last.key in before.value then before
      else Some(before.value[last.key := v.value])
  }

  function Decode<L(==, !new)>(lv: Leaves<L>, ty: Type, node: Node): Option<Value<L>>
    decreases ty, 0, 0
  {
    match ty
    case Leaf => (match lv.decode(node) case Some(l) => Some(LeafValue(l)) case None => None)
    case Vector(elem) => DecodeSeq(lv, elem, node)
    case List(elem) => DecodeSeq(lv, elem, node)
    case OrderedSet(elem) => DecodeSet(lv, elem, node)
    case UnorderedSet(elem) => DecodeSet(lv, elem, node)
    case OrderedMap(elem) => DecodeMap(lv, elem, node)
    case UnorderedMap(elem) => DecodeMap(lv, elem, node)
  }

  function DecodeSeq<L(==, !new)>(lv: Leaves<L>, elem: Type, node: Node): Option<Value<L>>
    decreases elem, 2, 0
  {
    if Items(node).None? then None
    else match DecodeItems(lv, elem, Items(node).value)
         case Some(vs) => Some(SeqValue(vs))
         case None => None
  }

  function DecodeSet<L(==, !new)>(lv: Leaves<L>, elem: Type, node: Node): Option<Value<L>>
    decreases elem, 2, 0
  {
    if Items(node).None? then None
    else match DecodeItems(lv, elem, Items(node).value)
         case Some(vs) => Some(SetValue(set v | v in vs))
         case None => None
  }

  function DecodeMap<L(==, !new)>(lv: Leaves<L>, elem: Type, node: Node): Option<Value<L>>
    decreases elem, 2, 0
  {
    if Entries(node).None? then None
    else match DecodeEntries(lv, elem, Entries(node).value)
         case Some(m) => Some(MapValue(m))
         case None => None
  }

  // ------------------------------------------------------------ round trip

  lemma AllItemsDecode<L(!new)>(lv: Leaves<L>, elem: Type, nodes: seq<Node>, vs: seq<Value<L>>)
    requires |vs| == |nodes| && forall i | 0 <= i < |nodes| :: Decode(lv, elem, nodes[i]) == Some(vs[i])
    ensures DecodeItems(lv, elem, nodes) == Some(vs)
  {
    var r := DecodeItems(lv, elem, nodes);
    assert r.Some?;
    assert r.value == vs;
  }

  lemma EmptyDecodes<L(!new)>(lv: Leaves<L>, elem: Type)
    ensures DecodeSeq(lv, elem, Null) == Some(SeqValue([]))
    ensures DecodeSet(lv, elem, Null) == Some(SetValue({}))
    ensures DecodeMap(lv, elem, Null) == Some(MapValue(map[]))
  {
    assert DecodeItems(lv, elem, []) == Some([]);
    assert DecodeEntries(lv, elem, []) == Some(map[]);
    assert (set v: Value<L> | v in []) == {};
  }

  lemma {:induction false} DecodesItems<L(!new)>(lv: Leaves<L>, elem: Type, vs: seq<Value<L>>, node: Node)
    requires RoundTrips(lv) && node.Sequence? && EncodesItems(lv, vs, node)
    requires forall v | v in vs :: HasType(v, elem)
    ensures DecodeItems(lv, elem, node.items) == Some(vs)
    decreases node, 0
  {
    forall i | 0 <= i < |vs| ensures Decode(lv, elem, node.items[i]) == Some(vs[i]) {
      assert vs[i] in vs;
      EncodeThenDecode(lv, vs[i], elem, node.items[i]);
    }
    AllItemsDecode(lv, elem, node.items, vs);
  }

  lemma {:induction false} DecodesEntries<L(!new)>(lv: Leaves<L>, elem: Type, m: map<string, Value<L>>,
      entries: seq<Entry>)
    requires forall i | 0 <= i < |entries| ::
               entries[i].key in m && Decode(lv, elem, entries[i].value) == Some(m[entries[i].key])
    ensures var r := DecodeEntries(lv, elem, entries);
            && r.Some? && r.value.Keys == (set e | e in entries :: e.key)
            && forall k | k in r.value :: k in m && r.value[k] == m[k]
    decreases |entries|
  {
    if entries != [] {
      var front, last := entries[..|entries| - 1], entries[|entries| - 1];
      DecodesEntries(lv, elem, m, front);
      assert entries == front + [last];
    }
  }

  lemma KeysOfPairs<X>(m: map<string, X>, entries: seq<Entry>)
    requires forall i | 0 <= i < |entries| :: entries[i].key in m
    requires forall k | k in m :: exists i :: 0 <= i < |entries| && entries[i].key == k
    ensures (set e | e in entries :: e.key) == m.Keys
  {
    forall k | k in m ensures k in (set e | e in entries :: e.key) {
      var i :| 0 <= i < |entries| && entries[i].key == k;
      assert entries[i] in entries;
    }
  }

  /** The entries of an encoded map convert to its values. */
  lemma {:induction false} EntriesConvert<L(!new)>(lv: Leaves<L>, elem: Type, m: map<string, Value<L>>, node: Node)
    requires RoundTrips(lv) && node.Mapping?
    requires forall k | k in m :: HasType(m[k], elem)
    requires forall i | 0 <= i < |node.entries| ::
               node.entries[i].key in m && Encodes(lv, m[node.entries[i].key], node.entries[i].value)
    ensures forall i | 0 <= i < |node.entries| ::
              Decode(lv, elem, node.entries[i].value) == Some(m[node.entries[i].key])
    decreases node, 0
  {
    hide HasType, RoundTrips, Decode, Encodes;
    forall i | 0 <= i < |node.entries|
      ensures Decode(lv, elem, node.entries[i].value) == Some(m[node.entries[i].key])
    {
      EncodeThenDecode(lv, m[node.entries[i].key], elem, node.entries[i].value);
    }
  }

  lemma MapEncoding<L(!new)>(lv: Leaves<L>, v: Value<L>, node: Node)
    requires v.MapValue? && v.entries != map[] && Encodes(lv, v, node)
    ensures node.Mapping?
    ensures forall i | 0 <= i < |node.entries| ::
              node.entries[i].key in v.entries && Encodes(lv, v.entries[node.entries[i].key], node.entries[i].value)
    ensures forall k | k in v.entries :: exists i :: 0 <= i < |node.entries| && node.entries[i].key == k
  {}

  lemma {:induction false} DecodesMap<L(!new)>(lv: Leaves<L>, elem: Type, v: Value<L>, node: Node)
    requires RoundTrips(lv) && v.MapValue? && Encodes(lv, v, node) && v.entries != map[]
    requires forall k | k in v.entries :: HasType(v.entries[k], elem)
    ensures DecodeMap(lv, elem, node) == Some(v)
    decreases node, 1
  {
    hide Decode, DecodeEntries, HasType, RoundTrips, Encodes;
    MapEncoding(lv, v, node);
    EntriesConvert(lv, elem, v.entries, node);
    DecodesEntries(lv, elem, v.entries, node.entries);
    KeysOfPairs(v.entries, node.entries);
    assert DecodeEntries(lv, elem, node.entries).value == v.entries;
  }

  /** Any encoding of a value, however its sets and maps are iterated, decodes to the
      value again: for every nesting of containers over leaves that round trip. */
  lemma {:induction false} EncodeThenDecode<L(!new)>(lv: Leaves<L>, v: Value<L>, ty: Type, node: Node)
    requires RoundTrips(lv) && HasType(v, ty) && Encodes(lv, v, node)
    ensures Decode(lv, ty, node) == Some(v)
    decreases node, 2
  {
    match v
    case LeafValue(leaf) =>
    case SeqValue(items) =>
      if items == [] { EmptyDecodes(lv, ty.elem); } else { DecodesItems(lv, ty.elem, items, node); }
    case SetValue(members) =>
      if members == {} {
        EmptyDecodes(lv, ty.elem);
      } else {
        var es :| Enumerates(es, members) && EncodesItems(lv, es, node);
        DecodesItems(lv, ty.elem, es, node);
        assert (set e | e in es) == members;
      }
    case MapValue(entries) =>
      if entries == map[] { EmptyDecodes(lv, ty.elem); } else { DecodesMap(lv, ty.elem, v, node); }
  }

  // ---------------------------------------------------- entries with one key

  /** Entry `i` is the first with its key. */
  predicate IsFirst(entries: seq<Entry>, i: int) {
    0 <= i < |entries| && forall j | 0 <= j < i :: entries[j].key != entries[i].key
  }

  lemma FirstInFront(front: seq<Entry>, last: Entry, i: int)
    ensures i < |front| ==> (IsFirst(front + [last], i) <==> IsFirst(front, i))
    ensures IsFirst(front + [last], |front|) <==> forall j | 0 <= j < |front| :: front[j].key != last.key
  {
    var entries := front + [last];
    assert forall j | 0 <= j < |front| :: entries[j] == front[j];
  }

  /** For any node: decoding a map fails exactly when some entry does not convert, and
      otherwise holds, under each key, what the first entry with that key converts to. */
  lemma {:induction false} DecodeKeepsTheFirst<L(!new)>(lv: Leaves<L>, ty: Type, entries: seq<Entry>)
    ensures DecodeEntries(lv, ty, entries).None? <==> exists e | e in entries :: Decode(lv, ty, e.value).None?
    ensures var r := DecodeEntries(lv, ty, entries);
            r.Some? ==>
              && (forall k :: k in r.value <==> exists e | e in entries :: e.key == k)
              && (forall i | IsFirst(entries, i) ::
                    entries[i].key in r.value && Decode(lv, ty, entries[i].value) == Some(r.value[entries[i].key]))
    decreases |entries|
  {
    if entries != [] {
      var front, last := entries[..|entries| - 1], entries[|entries| - 1];
      DecodeKeepsTheFirst(lv, ty, front);
      assert entries == front + [last];
      forall i | IsFirst(entries, i) && i < |front| ensures IsFirst(front, i) { FirstInFront(front, last, i); }
      FirstInFront(front, last, |front|);
      hide Decode;
    }
  }

  // ----------------------------------------------- what nodes stand for, by shape

  /** A sequence is written item by item in order, and an empty container as Null. */
  lemma SequenceShape<L(!new)>(lv: Leaves<L>, v: Value<L>, node: Node)
    requires Encodes(lv, v, node) && !v.LeafValue?
    ensures node == Null <==> v == SeqValue([]) || v == SetValue({}) || v == MapValue(map[])
    ensures v.SeqValue? && v.items != [] ==>
              node.Sequence? && |node.items| == |v.items| && forall i | 0 <= i < |v.items| ::
                Encodes(lv, v.items[i], node.items[i])
  {
    if v.SetValue? && v.members != {} {
      SetShape(lv, v, node);
      hide Encodes;
    } else if v.MapValue? && v.entries != map[] {
      MapShape(lv, v, node);
      hide Encodes;
    }
  }

  /** A map is written entry by entry under its keys. */
  lemma MapShape<L(!new)>(lv: Leaves<L>, v: Value<L>, node: Node)
    requires v.MapValue? && v.entries != map[] && Encodes(lv, v, node)
    ensures node.Mapping?
    ensures forall e | e in node.entries :: e.key in v.entries && Encodes(lv, v.entries[e.key], e.value)
    ensures forall k | k in v.entries :: exists e :: e in node.entries && e.key == k
  {
    MapEncoding(lv, v, node);
    hide Encodes;
    forall k | k in v.entries ensures exists e :: e in node.entries && e.key == k {
      var i :| 0 <= i < |node.entries| && node.entries[i].key == k;
      assert node.entries[i] in node.entries;
    }
  }

  /** A set is written member by member, each once. */
  lemma SetShape<L(!new)>(lv: Leaves<L>, v: Value<L>, node: Node)
    requires v.SetValue? && v.members != {} && Encodes(lv, v, node)
    ensures node.Sequence? && |node.items| == |v.members|
    ensures forall n | n in node.items :: exists x :: x in v.members && Encodes(lv, x, n)
    ensures forall x | x in v.members :: exists n :: n in node.items && Encodes(lv, x, n)
  {
    var es :| Enumerates(es, v.members) && EncodesItems(lv, es, node);
    EnumerationSize(es, v.members);
    hide Encodes;
    forall n | n in node.items ensures exists x :: x in v.members && Encodes(lv, x, n) {
      var i :| 0 <= i < |node.items| && node.items[i] == n;
      assert Encodes(lv, es[i], node.items[i]) && es[i] in v.members;
    }
    forall x | x in v.members ensures exists n :: n in node.items && Encodes(lv, x, n) {
      var i :| 0 <= i < |es| && es[i] == x;
      assert Encodes(lv, es[i], node.items[i]) && node.items[i] in node.items;
    }
  }

  lemma {:induction false} EnumerationSize<X>(es: seq<X>, s: set<X>)
    requires Enumerates(es, s)
    ensures |es| == |s|
  {
    if es == [] {
      assert s == {};
    } else {
      var front, last := es[..|es| - 1], es[|es| - 1];
      assert es == front + [last];
      EnumerationSize(front, s - {last});
      assert s == (s - {last}) + {last};
    }
  }

  /** A vector or a list is read from the items of a sequence node, in order, if all of them
      convert; Null and a scalar read as empty; a map with entries does not convert. */
  lemma SequencesAreRead<L(!new)>(lv: Leaves<L>, elem: Type, ty: Type, nodes: seq<Node>, vs: seq<Value<L>>,
                                  entries: seq<Entry>, text: string)
    requires ty in {Vector(elem), List(elem)}
    ensures Decode(lv, ty, Sequence(nodes)) == Some(SeqValue(vs)) <==>
            |vs| == |nodes| && forall i | 0 <= i < |nodes| :: Decode(lv, elem, nodes[i]) == Some(vs[i])
    ensures Decode(lv, ty, Sequence(nodes)).None? <==> exists n :: n in nodes && Decode(lv, elem, n).None?
    ensures Decode(lv, ty, Null) == Decode(lv, ty, Scalar(text)) == Some(SeqValue([]))
    ensures entries != [] ==> Decode(lv, ty, Mapping(entries)).None?
  {
    ItemsConvertIff(lv, elem, nodes, vs);
    EmptyDecodes(lv, elem);
  }

  lemma ItemsConvertIff<L(!new)>(lv: Leaves<L>, elem: Type, nodes: seq<Node>, vs: seq<Value<L>>)
    ensures DecodeItems(lv, elem, nodes) == Some(vs) <==>
            |vs| == |nodes| && forall i | 0 <= i < |nodes| :: Decode(lv, elem, nodes[i]) == Some(vs[i])
    ensures DecodeItems(lv, elem, nodes).None? <==> exists n :: n in nodes && Decode(lv, elem, n).None?
  {
    if |vs| == |nodes| && forall i | 0 <= i < |nodes| :: Decode(lv, elem, nodes[i]) == Some(vs[i]) {
      AllItemsDecode(lv, elem, nodes, vs);
    }
    hide Decode, DecodeItems;
    if n :| n in nodes && Decode(lv, elem, n).None? {
      var i :| 0 <= i < |nodes| && nodes[i] == n;
    }
  }

  /** A set is read in the same way, and forgets order and repetition. */
  lemma SetsAreRead<L(!new)>(lv: Leaves<L>, elem: Type, ty: Type, node: Node)
    requires ty in {OrderedSet(elem), UnorderedSet(elem)}
    ensures var vs, r := Decode(lv, Vector(elem), node), Decode(lv, ty, node);
            if vs.None? then r.None?
            else
              && vs.value.SeqValue? && r.Some? && r.value.SetValue?
              && forall v :: v in r.value.members <==> v in vs.value.items
  {
    assert Decode(lv, Vector(elem), node) == DecodeSeq(lv, elem, node);
    assert Decode(lv, ty, node) == DecodeSet(lv, elem, node);
    hide Decode;
  }

  /** A map is read from the entries of a map node: under each key what its first entry
      converts to; one that does not convert makes the whole fail, as does a list with items. */
  lemma MapsAreRead<L(!new)>(lv: Leaves<L>, elem: Type, ty: Type, entries: seq<Entry>, items: seq<Node>, text: string)
    requires ty in {OrderedMap(elem), UnorderedMap(elem)}
    ensures var r := Decode(lv, ty, Mapping(entries));
            && (r.None? <==> exists e :: e in entries && Decode(lv, elem, e.value).None?)
            && (r.Some? ==>
                  && r.value.MapValue?
                  && (forall k :: k in r.value.entries <==> exists e :: e in entries && e.key == k)
                  && (forall i | IsFirst(entries, i) :: entries[i].key in r.value.entries
                        && Decode(lv, elem, entries[i].value) == Some(r.value.entries[entries[i].key])))
    ensures Decode(lv, ty, Null) == Decode(lv, ty, Scalar(text)) == Some(MapValue(map[]))
    ensures items != [] ==> Decode(lv, ty, Sequence(items)).None?
  {
    DecodeKeepsTheFirst(lv, elem, entries);
    EmptyDecodes(lv, elem);
  }

  // ------------------------------------------- the converters as the loops they are

  method EncodeValue<L(==, !new)>(lv: Leaves<L>, v: Value<L>) returns (node: Node)
    ensures Encodes(lv, v, node)
    decreases v, 1
  {
    match v {
      case LeafValue(leaf) => node := lv.encode(leaf);
      case SeqValue(items) =>
        var nodes := [];
        for i := 0 to |items|
          invariant |nodes| == i && forall j | 0 <= j < i :: Encodes(lv, items[j], nodes[j])
        {
          var child := EncodeValue(lv, items[i]);
          nodes := nodes + [child];
        }
        node := if nodes == [] then Null else Sequence(nodes);
      case SetValue(members) => node := EncodeSet(lv, v);
      case MapValue(entries) => node := EncodeMap(lv, v);
    }
  }

  method EncodeSet<L(==, !new)>(lv: Leaves<L>, v: Value<L>) returns (node: Node)
    requires v.SetValue?
    ensures Encodes(lv, v, node)
    decreases v, 0
  {
    var rest, nodes: seq<Node> := v.members, [];
    ghost var es: seq<Value<L>> := [];
    while rest != {}
      invariant rest <= v.members && |nodes| == |es| && |es| + |rest| == |v.members|
      invariant forall e | e in es :: e in v.members && e !in rest
      invariant forall e | e in v.members && e !in rest :: e in es
      invariant forall i, j | 0 <= i < j < |es| :: es[i] != es[j]
      invariant forall i | 0 <= i < |es| :: Encodes(lv, es[i], nodes[i])
      decreases |rest|
    {
      var e :| e in rest;
      var child := EncodeValue(lv, e);
      es, nodes, rest := es + [e], nodes + [child], rest - {e};
    }
    node := if nodes == [] then Null else Sequence(nodes);
    if v.members != {} {
      var e :| e in v.members;
      assert e in es && Enumerates(es, v.members) && EncodesItems(lv, es, node);
    }
  }

  /** `pairs` encode exactly the entries of `m` whose keys are not in `rest`. */
  ghost predicate EncodesPairs<L(!new)>(lv: Leaves<L>, m: map<string, Value<L>>, rest: set<string>, pairs: seq<Entry>) {
    && (forall i | 0 <= i < |pairs| ::
          pairs[i].key in m && pairs[i].key !in rest && Encodes(lv, m[pairs[i].key], pairs[i].value))
    && (forall k | k in m && k !in rest :: exists i :: 0 <= i < |pairs| && pairs[i].key == k)
    && (forall i, j | 0 <= i < j < |pairs| :: pairs[i].key != pairs[j].key)
  }

  lemma OneMorePair<L(!new)>(lv: Leaves<L>, m: map<string, Value<L>>, rest: set<string>, pairs: seq<Entry>, e: Entry)
    requires EncodesPairs(lv, m, rest, pairs) && e.key in rest && e.key in m && Encodes(lv, m[e.key], e.value)
    ensures EncodesPairs(lv, m, rest - {e.key}, pairs + [e])
  {
    var pairs' := pairs + [e];
    forall x | x in m && x !in rest - {e.key} ensures exists i :: 0 <= i < |pairs'| && pairs'[i].key == x {
      if x == e.key {
        assert pairs'[|pairs|].key == x;
      } else {
        var i :| 0 <= i < |pairs| && pairs[i].key == x;
        assert pairs'[i].key == x;
      }
    }
  }

  method EncodeMap<L(==, !new)>(lv: Leaves<L>, v: Value<L>) returns (node: Node)
    requires v.MapValue?
    ensures Encodes(lv, v, node)
    decreases v, 0
  {
    var rest, pairs: seq<Entry> := v.entries.Keys, [];
    while rest != {}
      invariant rest <= v.entries.Keys && |pairs| + |rest| == |v.entries.Keys|
      invariant EncodesPairs(lv, v.entries, rest, pairs)
      decreases |rest|
    {
      var k :| k in rest;
      var child := EncodeValue(lv, v.entries[k]);
      OneMorePair(lv, v.entries, rest, pairs, Entry(k, child));
      pairs, rest := pairs + [Entry(k, child)], rest - {k};
    }
    node := if pairs == [] then Null else Mapping(pairs);
    if v.entries != map[] {
      var k :| k in v.entries;
      assert exists i :: 0 <= i < |pairs| && pairs[i].key == k;
    }
  }

  method DecodeValue<L(==, !new)>(lv: Leaves<L>, ty: Type, node: Node) returns (r: Option<Value<L>>)
    ensures r == Decode(lv, ty, node)
    decreases ty, 2
  {
    match ty {
      case Leaf =>
        var l := lv.decode(node);
        r := match l case Some(x) => Some(LeafValue(x)) case None => None;
      case Vector(elem) =>
        var vs := DecodeEach(lv, elem, node);
        r := match vs case Some(x) => Some(SeqValue(x)) case None => None;
      case List(elem) =>
        var vs := DecodeEach(lv, elem, node);
        r := match vs case Some(x) => Some(SeqValue(x)) case None => None;
      case OrderedSet(elem) => r := DecodeIntoSet(lv, elem, node);
      case UnorderedSet(elem) => r := DecodeIntoSet(lv, elem, node);
      case OrderedMap(elem) => r := DecodeIntoMap(lv, elem, node);
      case UnorderedMap(elem) => r := DecodeIntoMap(lv, elem, node);
    }
  }

  /** Converts the elements in order, and stops at the first that does not convert. */
  method DecodeEach<L(==, !new)>(lv: Leaves<L>, elem: Type, node: Node) returns (r: Option<seq<Value<L>>>)
    ensures r == if Items(node).None? then None else DecodeItems(lv, elem, Items(node).value)
    decreases elem, 3
  {
    if Items(node).None? { return None; }
    var nodes, vs := Items(node).value, [];
    for i := 0 to |nodes|
      invariant |vs| == i && forall j | 0 <= j < i :: Decode(lv, elem, nodes[j]) == Some(vs[j])
    {
      var v := DecodeValue(lv, elem, nodes[i]);
      if v.None? {
        assert Decode(lv, elem, nodes[i]).None?;
        return None;
      }
      vs := vs + [v.value];
    }
    AllItemsDecode(lv, elem, nodes, vs);
    r := Some(vs);
  }

  method DecodeIntoSet<L(==, !new)>(lv: Leaves<L>, elem: Type, node: Node) returns (r: Option<Value<L>>)
    ensures r == DecodeSet(lv, elem, node)
    decreases elem, 4
  {
    var vs := DecodeEach(lv, elem, node);
    if vs.None? { return None; }
    var members := InsertAll(vs.value);
    r := Some(SetValue(members));
  }

  method InsertAll<X(==)>(vs: seq<X>) returns (members: set<X>)
    ensures members == set v | v in vs
  {
    members := {};
    for i := 0 to |vs|
      invariant forall v | v in members :: v in vs
      invariant forall j | 0 <= j < i :: vs[j] in members
    {
      members := members + {vs[i]};
    }
  }

  method DecodeIntoMap<L(==, !new)>(lv: Leaves<L>, elem: Type, node: Node) returns (r: Option<Value<L>>)
    ensures r == DecodeMap(lv, elem, node)
    decreases elem, 3
  {
    if Entries(node).None? { return None; }
    var entries := Entries(node).value;
    var m: map<string, Value<L>> := map[];
    for i := 0 to |entries|
      invariant DecodeEntries(lv, elem, entries[..i]) == Some(m)
    {
      var v := DecodeValue(lv, elem, entries[i].value);
      assert entries[..i + 1][..i] == entries[..i];
      if v.None? {
        EntryFails(lv, elem, entries, i);
        return None;
      }
      if entries[i].key !in m {
        m := m[entries[i].key := v.value];
      }
    }
    assert entries[..|entries|] == entries;
    r := Some(MapValue(m));
  }

  lemma {:induction false} EntryFails<L(!new)>(lv: Leaves<L>, elem: Type, entries: seq<Entry>, i: nat)
    requires i < |entries| && Decode(lv, elem, entries[i].value).None?
    ensures DecodeEntries(lv, elem, entries).None?
    decreases |entries|
  {
    if i < |entries| - 1 {
      EntryFails(lv, elem, entries[..|entries| - 1], i);
    }
  }
}
