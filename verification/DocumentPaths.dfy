/** The nodes of a document and the names they are listed under, said without the listing:
    a node is reached by a path, and named by the keys along it (chord/config.cpp:12-69). */
module DocumentPaths {
  import opened ConfigLoad
  import opened Configs
  import opened ConfigVars
  import ListenerKeys
  import opened Options
  import opened Sequences
  import opened Yaml

  /** At each map on the way, the position of the entry taken. */
  type Path = seq<nat>

  function At(root: Node, path: Path): Option<Node>
    decreases |path|
  {
    if path == [] then Some(root)
    else if root.Mapping? && path[0] < |root.entries| then At(root.entries[path[0]].value, path[1..])
    else None
  }

  /** The keys along a path. */
  function KeysAlong(root: Node, path: Path): seq<string>
    requires At(root, path).Some?
    decreases |path|
  {
    if path == [] then []
    else [root.entries[path[0]].key] + KeysAlong(root.entries[path[0]].value, path[1..])
  }

  function Join(keys: seq<string>): string {
    if keys == [] then "" else if |keys| == 1 then keys[0] else Join(keys[..|keys| - 1]) + "." + keys[|keys| - 1]
  }

  /** The keys joined by dots, leading empty keys left out. */
  function DottedName(keys: seq<string>): string {
    if keys != [] && keys[0] == "" then DottedName(keys[1..]) else Join(keys)
  }

  /** Document order: a node before its children, and these in the order of the entries. */
  predicate Before(p: Path, q: Path) {
    q != [] && (p == [] || p[0] < q[0] || (p[0] == q[0] && Before(p[1..], q[1..])))
  }

  // ----------------------------------------------------------------- names

  lemma {:induction false} JoinIsNotEmpty(keys: seq<string>)
    requires keys != [] && keys[0] != ""
    ensures Join(keys) != ""
  {
    if |keys| > 1 {
      assert keys[..|keys| - 1][0] == keys[0];
      JoinIsNotEmpty(keys[..|keys| - 1]);
    }
  }

  /** One key further down: after a dot, unless nothing stands before it. */
  lemma {:induction false} OneKeyFurther(keys: seq<string>, key: string)
    ensures DottedName([]) == ""
    ensures DottedName(keys + [key]) == if DottedName(keys) == "" then key else DottedName(keys) + "." + key
  {
    var all := keys + [key];
    if keys == [] {
      assert all == [key] && [key][1..] == [];
    } else {
      assert all[0] == keys[0];
      if keys[0] == "" {
        assert all[1..] == keys[1..] + [key];
        OneKeyFurther(keys[1..], key);
      } else {
        assert all[..|all| - 1] == keys;
        JoinIsNotEmpty(keys);
      }
    }
  }

  /** The keys without the leading empty ones are joined by single dots. */
  lemma {:induction false} NamesAreKeysAndDots(empty: nat, key: string, keys: seq<string>)
    requires key != ""
    ensures DottedName(seq(empty, _ => "") + [key] + keys) == key + DotsBefore(keys)
  {
    var lead := seq(empty, _ => "");
    if empty > 0 {
      NamesAreKeysAndDots(empty - 1, key, keys);
      assert (lead + [key] + keys)[1..] == seq(empty - 1, _ => "") + [key] + keys;
    } else {
      assert lead + [key] + keys == [key] + keys;
      JoinStarting(key, keys);
    }
  }

  function DotsBefore(keys: seq<string>): string {
    if keys == [] then "" else "." + keys[0] + DotsBefore(keys[1..])
  }

  lemma {:induction false} JoinStarting(key: string, keys: seq<string>)
    ensures Join([key] + keys) == key + DotsBefore(keys)
  {
    if keys == [] {
      assert [key] + keys == [key] && key + "" == key;
    } else {
      var front, last := keys[..|keys| - 1], keys[|keys| - 1];
      JoinStarting(key, front);
      assert ([key] + keys)[..|keys|] == [key] + front;
      DotsSnoc(front, last);
      assert keys == front + [last];
      assert key + DotsBefore(front) + "." + last == key + (DotsBefore(front) + ("." + last));
    }
  }

  lemma {:induction false} DotsSnoc(keys: seq<string>, key: string)
    ensures DotsBefore(keys + [key]) == DotsBefore(keys) + ("." + key)
  {
    if keys == [] {
      assert keys + [key] == [key] && [key][1..] == [];
      assert "." + key + "" == "." + key && "" + ("." + key) == "." + key;
    } else {
      DotsSnoc(keys[1..], key);
      assert (keys + [key])[0] == keys[0] && (keys + [key])[1..] == keys[1..] + [key];
      var head, rest := "." + keys[0], DotsBefore(keys[1..]);
      assert head + (rest + ("." + key)) == head + rest + ("." + key);
    }
  }

  // --------------------------------------------------------- the listing

  /** All paths, in document order. */
  function Paths(node: Node): seq<Path>
    decreases node, 1
  {
    [[]] + if node.Mapping? then PathsBelow(node.entries, 0) else []
  }

  function PathsBelow(entries: seq<Entry>, k: nat): seq<Path>
    decreases entries, 0
  {
    if entries == [] then [] else Under(k, Paths(entries[0].value)) + PathsBelow(entries[1..], k + 1)
  }

  function Under(k: nat, paths: seq<Path>): (r: seq<Path>)
    ensures |r| == |paths| && forall i | 0 <= i < |paths| :: r[i] == [k] + paths[i]
  {
    seq(|paths|, i requires 0 <= i < |paths| => [k] + paths[i])
  }

  /** Entry `i` of the listing is the node at path `i`, under the name that its keys make
      when they follow `above`. */
  ghost predicate IsListingOf(l: Listing, paths: seq<Path>, root: Node, above: seq<string>) {
    && |l| == |paths|
    && forall i | 0 <= i < |l| ::
         At(root, paths[i]) == Some(l[i].1) && l[i].0 == DottedName(above + KeysAlong(root, paths[i]))
  }

  lemma {:induction false} FlattenListsPaths(prefix: string, node: Node, above: seq<string>)
    requires prefix == DottedName(above)
    ensures IsListingOf(Flatten(prefix, node), Paths(node), node, above)
    decreases node, 1
  {
    assert above + [] == above;
    if node.Mapping? {
      EntriesListPaths(prefix, node, 0, above);
      assert node.entries[0..] == node.entries;
      hide At, KeysAlong, DottedName, FlattenEntries, PathsBelow;
      var l, ps := FlattenEntries(prefix, node.entries), PathsBelow(node.entries, 0);
      ListingCons(prefix, l, ps, node, above);
    } else {
      hide DottedName;
      assert At(node, []) == Some(node) && KeysAlong(node, []) == [];
    }
  }

  lemma ListingCons(prefix: string, l: Listing, ps: seq<Path>, node: Node, above: seq<string>)
    requires prefix == DottedName(above) && IsListingOf(l, ps, node, above)
    ensures IsListingOf([(prefix, node)] + l, [[]] + ps, node, above)
  {
    assert above + [] == above;
    assert At(node, []) == Some(node) && KeysAlong(node, []) == [];
    hide DottedName, At, KeysAlong;
  }

  lemma {:induction false} EntriesListPaths(prefix: string, node: Node, k: nat, above: seq<string>)
    requires node.Mapping? && k <= |node.entries| && prefix == DottedName(above)
    ensures IsListingOf(FlattenEntries(prefix, node.entries[k..]), PathsBelow(node.entries[k..], k), node, above)
    decreases node, 0, |node.entries| - k
  {
    var rest := node.entries[k..];
    if rest != [] {
      var e := node.entries[k];
      assert rest[0] == e && rest[1..] == node.entries[k + 1..];
      EntriesListPaths(prefix, node, k + 1, above);
      var name := ChildName(prefix, e.key);
      OneKeyFurther(above, e.key);
      assert name == DottedName(above + [e.key]);
      FlattenListsPaths(name, e.value, above + [e.key]);
      hide DottedName, At, KeysAlong, Flatten, Paths, FlattenEntries, PathsBelow, ChildName;
      ListingUnder(Flatten(name, e.value), Paths(e.value), node, k, above);
      var a, b := Flatten(name, e.value), FlattenEntries(prefix, rest[1..]);
      var ps, qs := Under(k, Paths(e.value)), PathsBelow(rest[1..], k + 1);
      ListingAppend(a, b, ps, qs, node, above);
      Unfolds(prefix, rest, k);
    } else {
      Unfolds(prefix, rest, k);
    }
  }

  lemma Unfolds(prefix: string, entries: seq<Entry>, k: nat)
    ensures FlattenEntries(prefix, entries) ==
            if entries == [] then []
            else Flatten(ChildName(prefix, entries[0].key), entries[0].value) + FlattenEntries(prefix, entries[1..])
    ensures PathsBelow(entries, k) ==
            if entries == [] then [] else Under(k, Paths(entries[0].value)) + PathsBelow(entries[1..], k + 1)
  {}

  lemma ListingUnder(l: Listing, paths: seq<Path>, node: Node, k: nat, above: seq<string>)
    requires node.Mapping? && k < |node.entries|
    requires IsListingOf(l, paths, node.entries[k].value, above + [node.entries[k].key])
    ensures IsListingOf(l, Under(k, paths), node, above)
  {
    var e, down := node.entries[k], Under(k, paths);
    hide DottedName;
    forall i | 0 <= i < |l|
      ensures At(node, down[i]) == Some(l[i].1) && l[i].0 == DottedName(above + KeysAlong(node, down[i]))
    {
      assert down[i][1..] == paths[i];
      assert KeysAlong(node, down[i]) == [e.key] + KeysAlong(e.value, paths[i]);
      Associative(above, [e.key], KeysAlong(e.value, paths[i]));
    }
  }

  lemma ListingAppend(a: Listing, b: Listing, ps: seq<Path>, qs: seq<Path>, node: Node, above: seq<string>)
    requires IsListingOf(a, ps, node, above) && IsListingOf(b, qs, node, above)
    ensures IsListingOf(a + b, ps + qs, node, above)
  {
    hide At, KeysAlong, DottedName;
  }

  /** Every path is there. */
  lemma {:induction false} EveryPathIsListed(node: Node, path: Path)
    requires At(node, path).Some?
    ensures path in Paths(node)
    decreases |path|
  {
    if path == [] {
      assert Paths(node)[0] == [];
    } else {
      var k := path[0];
      EveryPathIsListed(node.entries[k].value, path[1..]);
      assert node.entries[0..] == node.entries;
      PathIsBelow(node.entries, 0, k, path[1..]);
      assert path == [k] + path[1..];
    }
  }

  lemma {:induction false} PathIsBelow(entries: seq<Entry>, first: nat, k: nat, path: Path)
    requires k < |entries| && path in Paths(entries[k].value)
    ensures [first + k] + path in PathsBelow(entries, first)
    decreases k
  {
    if k == 0 {
      var paths := Paths(entries[0].value);
      var i :| 0 <= i < |paths| && paths[i] == path;
      assert Under(first, paths)[i] == [first] + path;
    } else {
      assert entries[1..][k - 1] == entries[k];
      PathIsBelow(entries[1..], first + 1, k - 1, path);
    }
  }

  ghost predicate InOrder(paths: seq<Path>) {
    forall i, j | 0 <= i < j < |paths| :: Before(paths[i], paths[j])
  }

  lemma {:induction false} PathsInOrder(node: Node)
    ensures InOrder(Paths(node))
    decreases node, 1
  {
    if node.Mapping? {
      BelowInOrder(node.entries, 0);
    }
  }

  lemma {:induction false} BelowInOrder(entries: seq<Entry>, k: nat)
    ensures InOrder(PathsBelow(entries, k))
    ensures forall i | 0 <= i < |PathsBelow(entries, k)| ::
              PathsBelow(entries, k)[i] != [] && PathsBelow(entries, k)[i][0] >= k
    decreases entries, 0
  {
    if entries != [] {
      PathsInOrder(entries[0].value);
      BelowInOrder(entries[1..], k + 1);
      hide Paths, PathsBelow, Before;
      Unfolds("", entries, k);
      var ps, qs := Paths(entries[0].value), PathsBelow(entries[1..], k + 1);
      UnderInOrder(k, ps);
      var up := Under(k, ps);
      forall i, j | 0 <= i < |up| && 0 <= j < |qs| ensures Before(up[i], qs[j]) {
        FirstDecides(up[i], qs[j]);
      }
    } else {
      Unfolds("", entries, k);
    }
  }

  lemma FirstDecides(p: Path, q: Path)
    requires p != [] && q != [] && p[0] < q[0]
    ensures Before(p, q)
  {}

  lemma UnderInOrder(k: nat, paths: seq<Path>)
    requires InOrder(paths)
    ensures InOrder(Under(k, paths))
  {
    var up := Under(k, paths);
    forall i, j | 0 <= i < j < |up| ensures Before(up[i], up[j]) {
      assert up[i][1..] == paths[i] && up[j][1..] == paths[j];
    }
  }

  lemma {:induction false} BeforeIsStrict(p: Path, q: Path)
    ensures !(Before(p, q) && Before(q, p)) && !Before(p, p)
    ensures Before(p, q) || Before(q, p) || p == q
  {
    if p != [] && q != [] {
      BeforeIsStrict(p[1..], q[1..]);
      assert p == [p[0]] + p[1..] && q == [q[0]] + q[1..];
    }
    if p != [] { BeforeIsStrict(p[1..], p[1..]); }
  }

  /** One entry for each node of the document, in document order, under the dotted name of
      the keys that lead to it. */
  ghost predicate ListsAll(root: Node, l: Listing, paths: seq<Path>) {
    && |l| == |paths|
    && (forall i | 0 <= i < |l| ::
          At(root, paths[i]) == Some(l[i].1) && l[i].0 == DottedName(KeysAlong(root, paths[i])))
    && (forall p :: At(root, p).Some? <==> p in paths)
    && (forall i, j | 0 <= i < j < |paths| :: Before(paths[i], paths[j]))
  }

  /** The listing of a document is just that, whatever the document. */
  lemma EveryNodeIsListedOnce(root: Node) returns (paths: seq<Path>)
    ensures ListsAll(root, Flatten("", root), paths)
  {
    paths := Paths(root);
    FlattenListsPaths("", root, []);
    PathsInOrder(root);
    forall p ensures At(root, p).Some? <==> p in paths {
      if At(root, p).Some? { EveryPathIsListed(root, p); }
    }
    hide At, KeysAlong, DottedName, Flatten, Paths;
    assert forall i | 0 <= i < |paths| :: [] + KeysAlong(root, paths[i]) == KeysAlong(root, paths[i]);
  }

  // ----------------------------------------------------------- valid names

  /** The letters of a valid name: `d`, `9` and upper case are not among them. */
  lemma LetterOfNamesIff(c: char)
    ensures c in ALPHABET <==>
            ('a' <= c <= 'z' && c != 'd') || '0' <= c <= '8' || c == '.' || c == '_'
  {}

  /** What `ListAllMember` lists: one entry for each node with a valid name, in document
      order. */
  ghost predicate ListsTheValid(root: Node, l: Listing, paths: seq<Path>) {
    && |l| == |paths|
    && (forall i | 0 <= i < |l| ::
          At(root, paths[i]) == Some(l[i].1) && l[i].0 == DottedName(KeysAlong(root, paths[i])))
    && (forall p :: p in paths <==> At(root, p).Some? && IsValidName(DottedName(KeysAlong(root, p))))
    && (forall i, j | 0 <= i < j < |paths| :: Before(paths[i], paths[j]))
  }

  /** The positions of the entries that are kept. */
  function KeptAt(l: Listing): (r: seq<nat>)
    ensures forall k | 0 <= k < |r| :: r[k] < |l| && IsValidName(l[r[k]].0)
    ensures forall j, k | 0 <= j < k < |r| :: r[j] < r[k]
  {
    if l == [] then []
    else KeptAt(l[..|l| - 1]) + if IsValidName(l[|l| - 1].0) then [|l| - 1] else []
  }

  lemma {:induction false} KeptAtAll(l: Listing, i: nat)
    requires i < |l| && IsValidName(l[i].0)
    ensures i in KeptAt(l)
  {
    if i < |l| - 1 {
      KeptAtAll(l[..|l| - 1], i);
    } else {
      assert KeptAt(l)[|KeptAt(l)| - 1] == i;
    }
  }

  lemma KeptSnoc(l: Listing)
    requires l != []
    ensures KeptAt(l) == KeptAt(l[..|l| - 1]) + if IsValidName(l[|l| - 1].0) then [|l| - 1] else []
  {}

  lemma {:induction false} KeptIsListed(l: Listing)
    ensures |KeepValid(l)| == |KeptAt(l)|
    ensures forall k | 0 <= k < |KeptAt(l)| :: KeepValid(l)[k] == l[KeptAt(l)[k]]
  {
    hide KeptAt, KeepValid, IsValidName;
    if l != [] {
      var front := l[..|l| - 1];
      KeptIsListed(front);
      FilterSnoc(l);
      KeptSnoc(l);
      forall k | 0 <= k < |KeptAt(front)| ensures KeepValid(l)[k] == l[KeptAt(l)[k]] {
        assert KeptAt(l)[k] == KeptAt(front)[k];
      }
    } else {
      KeptNothing();
    }
  }

  lemma KeptNothing()
    ensures KeepValid([]) == [] && KeptAt([]) == []
  {}

  function PathsKept(l: Listing, all: seq<Path>): (r: seq<Path>)
    requires |l| == |all|
    ensures |r| == |KeptAt(l)| && forall k | 0 <= k < |r| :: r[k] == all[KeptAt(l)[k]]
  {
    seq(|KeptAt(l)|, k requires 0 <= k < |KeptAt(l)| => all[KeptAt(l)[k]])
  }

  lemma KeptIff(root: Node, l: Listing, all: seq<Path>, p: Path)
    requires ListsAll(root, l, all)
    ensures p in PathsKept(l, all) <==> At(root, p).Some? && IsValidName(DottedName(KeysAlong(root, p)))
  {
    hide KeysAlong, DottedName, IsValidName, Before, KeptAt, At;
    if p in PathsKept(l, all) {
      var k :| 0 <= k < |PathsKept(l, all)| && PathsKept(l, all)[k] == p;
      assert IsValidName(l[KeptAt(l)[k]].0);
    }
    if At(root, p).Some? && IsValidName(DottedName(KeysAlong(root, p))) {
      var i :| 0 <= i < |all| && all[i] == p;
      KeptAtAll(l, i);
      var k :| 0 <= k < |KeptAt(l)| && KeptAt(l)[k] == i;
      assert PathsKept(l, all)[k] == p;
    }
  }

  lemma KeptInOrder(l: Listing, all: seq<Path>)
    requires |l| == |all| && forall i, j | 0 <= i < j < |all| :: Before(all[i], all[j])
    ensures var r := PathsKept(l, all); forall i, j | 0 <= i < j < |r| :: Before(r[i], r[j])
  {
    hide Before, KeptAt;
  }

  lemma KeptMatches(root: Node, l: Listing, all: seq<Path>)
    requires ListsAll(root, l, all)
    ensures var r, kept := PathsKept(l, all), KeepValid(l);
            && |kept| == |r|
            && forall k | 0 <= k < |r| ::
                 At(root, r[k]) == Some(kept[k].1) && kept[k].0 == DottedName(KeysAlong(root, r[k]))
  {
    hide At, KeysAlong, DottedName, KeepValid, IsValidName, Before, KeptAt;
    KeptIsListed(l);
    var r, kept := PathsKept(l, all), KeepValid(l);
    forall k | 0 <= k < |r|
      ensures At(root, r[k]) == Some(kept[k].1) && kept[k].0 == DottedName(KeysAlong(root, r[k]))
    {
      assert r[k] == all[KeptAt(l)[k]] && kept[k] == l[KeptAt(l)[k]];
    }
  }

  /** Whatever the document, and though it does not look below an invalid name, the listing
      holds just the nodes with valid names. */
  lemma EveryValidNodeIsListedOnce(root: Node) returns (paths: seq<Path>)
    ensures ListsTheValid(root, KeepValid(Flatten("", root)), paths)
  {
    hide At, KeysAlong, DottedName, KeepValid, Flatten, IsValidName, Before, KeptAt, PathsKept;
    var all := EveryNodeIsListedOnce(root);
    var l := Flatten("", root);
    paths := PathsKept(l, all);
    KeptMatches(root, l, all);
    forall p ensures p in paths <==> At(root, p).Some? && IsValidName(DottedName(KeysAlong(root, p))) {
      KeptIff(root, l, all, p);
    }
    KeptInOrder(l, all);
  }

  // ------------------------------------------------------------- loading

  /** The node at `p` is called `name` and converts to `v`: a scalar's own text, or else the
      text of the whole node. */
  ghost predicate Gives<T>(root: Node, name: string, convert: Converter<T>, p: Path, v: T) {
    && At(root, p).Some? && DottedName(KeysAlong(root, p)) == name
    && var node := At(root, p).value;
       convert(if node.Scalar? then Raw(node.text) else Dumped(node)) == Some(v)
  }

  lemma {:induction false} LastConvertingAt<T>(l: Listing, name: string, convert: Converter<T>)
    ensures var last := LastConverting(l, name, convert);
            if last.None? then forall i | 0 <= i < |l| && l[i].0 == name :: convert(ToText(l[i].1)).None?
            else exists i :: 0 <= i < |l| && l[i].0 == name && convert(ToText(l[i].1)) == last
                   && forall j | i < j < |l| && l[j].0 == name :: convert(ToText(l[j].1)).None?
  {
    if l != [] {
      var front, e := l[..|l| - 1], l[|l| - 1];
      LastConvertingAt(front, name, convert);
      hide ToText;
      var last := LastConverting(l, name, convert);
      if e.0 == name && convert(ToText(e.1)).Some? {
        assert l[|l| - 1].0 == name && convert(ToText(l[|l| - 1].1)) == last;
      } else if last.Some? {
        var i :| 0 <= i < |front| && front[i].0 == name && convert(ToText(front[i].1)) == last
          && forall j | i < j < |front| && front[j].0 == name :: convert(ToText(front[j].1)).None?;
        assert l[i].0 == name && convert(ToText(l[i].1)) == last;
        assert forall j | i < j < |front| :: l[j] == front[j];
      } else {
        assert forall i | 0 <= i < |front| :: l[i] == front[i];
      }
    }
  }

  lemma GivesAsListed<T>(root: Node, l: Listing, paths: seq<Path>, name: string, convert: Converter<T>, i: nat, v: T)
    requires i < |l| == |paths|
    requires At(root, paths[i]) == Some(l[i].1) && l[i].0 == DottedName(KeysAlong(root, paths[i]))
    ensures Gives(root, name, convert, paths[i], v) <==> l[i].0 == name && convert(ToText(l[i].1)) == Some(v)
  {}

  lemma GiverIsListed<T>(root: Node, l: Listing, paths: seq<Path>, name: string, convert: Converter<T>, q: Path, v: T)
    returns (j: nat)
    requires ListsAll(root, l, paths) && Gives(root, name, convert, q, v)
    ensures j < |l| == |paths| && paths[j] == q && l[j].0 == name && convert(ToText(l[j].1)) == Some(v)
  {
    j :| 0 <= j < |paths| && paths[j] == q;
    GivesAsListed(root, l, paths, name, convert, j, v);
  }

  lemma LastToGive<T(!new)>(root: Node, l: Listing, paths: seq<Path>, name: string, convert: Converter<T>)
    requires ListsAll(root, l, paths)
    ensures var last := LastConverting(l, name, convert);
            if last.None? then forall p, v :: !Gives(root, name, convert, p, v)
            else exists p :: Gives(root, name, convert, p, last.value)
                   && forall q, v | Gives(root, name, convert, q, v) :: q == p || Before(q, p)
  {
    LastConvertingAt(l, name, convert);
    hide LastConverting, At, KeysAlong, DottedName, ToText, Gives, Before;
    var last := LastConverting(l, name, convert);
    if last.None? {
      forall q, v: T ensures !Gives(root, name, convert, q, v) {
        if Gives(root, name, convert, q, v) {
          var j := GiverIsListed(root, l, paths, name, convert, q, v);
        }
      }
    } else {
      var i :| 0 <= i < |l| && l[i].0 == name && convert(ToText(l[i].1)) == last
        && forall j | i < j < |l| && l[j].0 == name :: convert(ToText(l[j].1)).None?;
      GivesAsListed(root, l, paths, name, convert, i, last.value);
      forall q, v: T | Gives(root, name, convert, q, v) ensures q == paths[i] || Before(q, paths[i]) {
        var j := GiverIsListed(root, l, paths, name, convert, q, v);
      }
    }
  }

  lemma LoadKeepsIds<T>(vars: Vars<T>, root: Node, converts: map<string, Converter<T>>, name: string)
    requires vars.Keys == converts.Keys && name in vars
    ensures Load(vars, root, converts)[name].lastId == vars[name].lastId
  {
    var l := KeepValid(Flatten("", root));
    LoadAllByVariable(vars, l, converts, name);
    FeedTakesTheLast(vars[name], l, name, converts[name]);
  }

  /** What loading a document does to the variable `name`: if no node of that name converts,
      nothing at all; otherwise the value becomes that of the last one in document order. */
  lemma LoadTakesTheLastOfTheDocument<T(!new)>(vars: Vars<T>, root: Node, converts: map<string, Converter<T>>,
                                              name: string)
    requires vars.Keys == converts.Keys && name in vars && IsValidName(name) && name != ""
    ensures var r, convert := Load(vars, root, converts)[name], converts[name];
            && r.keys == vars[name].keys && r.lastId == vars[name].lastId
            && if forall p, v :: !Gives(root, name, convert, p, v) then r == vars[name]
               else exists p :: Gives(root, name, convert, p, r.val)
                      && forall q, v | Gives(root, name, convert, q, v) :: q == p || Before(q, p)
  {
    var paths := EveryNodeIsListedOnce(root);
    LoadSetsTheLastConvertingValue(vars, root, converts, name);
    LoadKeepsIds(vars, root, converts, name);
    LastToGive(root, Flatten("", root), paths, name, converts[name]);
    hide Load, Flatten, LastConverting, At, KeysAlong, DottedName, Before, IsValidName, Gives;
  }

  /** The `fromString` calls a listing makes on the variable `name`. */
  function CallsFor<T>(l: Listing, name: string): seq<Op<Text, T>> {
    if l == [] then []
    else
      var e := l[|l| - 1];
      CallsFor(l[..|l| - 1], name) + if e.0 == name then [FromString(ToText(e.1))] else []
  }

  lemma {:induction false} FeedIsTheCalls<T(!new)>(s: VarState<T>, l: Listing, name: string, convert: Converter<T>)
    requires name != "" && IsValidName(name)
    ensures Feed(s, KeepValid(l), name, convert) == ConfigVars.Run(s, CallsFor(l, name), convert)
  {
    hide KeepValid, ConfigVars.Run, IsValidName, ToLower;
    if l == [] {
      NothingToCall(s, name, convert);
    } else {
      var front, e := l[..|l| - 1], l[|l| - 1];
      FeedIsTheCalls(s, front, name, convert);
      FilterSnoc(l);
      var kept, calls: seq<Op<Text, T>> := KeepValid(front), CallsFor(front, name);
      assert (kept + [e])[..|kept|] == kept;
      if IsValidName(e.0) { LowerCasingIsIdentity(e.0); }
      ListenerKeys.RunSnoc(s, calls, FromString(ToText(e.1)), convert);
      assert calls + [] == calls;
    }
  }

  lemma NothingToCall<T(!new)>(s: VarState<T>, name: string, convert: Converter<T>)
    ensures Feed(s, KeepValid([]), name, convert) == ConfigVars.Run(s, CallsFor([], name), convert)
  {}

  /** To a variable and its listeners, loading a document is a `fromString` call for each
      node of its name, in document order. */
  lemma LoadCallsFromStringForEachNode<T(!new)>(vars: Vars<T>, root: Node, converts: map<string, Converter<T>>,
                                                name: string)
    requires vars.Keys == converts.Keys && name in vars && IsValidName(name) && name != ""
    ensures Load(vars, root, converts)[name] ==
            ConfigVars.Run(vars[name], CallsFor(Flatten("", root), name), converts[name])
  {
    var l := Flatten("", root);
    LoadAllByVariable(vars, KeepValid(l), converts, name);
    FeedIsTheCalls(vars[name], l, name, converts[name]);
  }

  /** The section `system` of `bin/conf/test.yml`, cut down to its port. */
  const PORT := Scalar("9900")
  const SYSTEM := Mapping([Entry("port", PORT)])
  const DOCUMENT := Mapping([Entry("system", SYSTEM)])

  lemma PathToThePort()
    ensures At(DOCUMENT, [0, 0]) == Some(Scalar("9900"))
    ensures DottedName(KeysAlong(DOCUMENT, [0, 0])) == "system.port"
  {
    assert [0, 0][1..] == [0] && [0][1..] == [];
    assert At(SYSTEM, [0]) == Some(PORT) && KeysAlong(SYSTEM, [0]) == ["port"];
    assert KeysAlong(DOCUMENT, [0, 0]) == ["system", "port"];
    OneKeyFurther(["system"], "port");
    OneKeyFurther([], "system");
    assert ["system"] + ["port"] == ["system", "port"] && [] + ["system"] == ["system"];
    assert "system" + "." + "port" == "system.port";
  }

  /** The port of that section is the variable `system.port`. */
  lemma ThePortIsLoaded<T(!new)>(vars: Vars<T>, converts: map<string, Converter<T>>)
    requires vars.Keys == converts.Keys && "system.port" in vars
    requires converts["system.port"](Raw("9900")).Some?
    ensures Load(vars, DOCUMENT, converts)["system.port"].val == converts["system.port"](Raw("9900")).value
  {
    var port, convert := "system.port", converts["system.port"];
    hide At, Load, IsValidName, DottedName, Before, KeysAlong, DOCUMENT;
    TheNameIsValid();
    PathToThePort();
    LoadTakesTheLastOfTheDocument(vars, DOCUMENT, converts, port);
    var val := Load(vars, DOCUMENT, converts)[port].val;
    assert Gives(DOCUMENT, port, convert, [0, 0], convert(Raw("9900")).value);
    var p :| Gives(DOCUMENT, port, convert, p, val)
      && forall q, v | Gives(DOCUMENT, port, convert, q, v) :: q == p || Before(q, p);
    OnlyThreeNodes(p);
    BeforeIsStrict([0, 0], p);
  }

  lemma OnlyThreeNodes(p: Path)
    requires At(DOCUMENT, p).Some?
    ensures p == [0, 0] || Before(p, [0, 0])
  {
    if |p| > 1 {
      assert At(SYSTEM, p[1..]).Some? && p[1..][1..] == p[2..];
      assert At(PORT, p[2..]).Some?;
      assert p == [p[0], p[1]];
    } else if |p| == 1 {
      assert [0, 0][1..] == [0] && p[1..] == [];
    }
  }

  lemma TheNameIsValid()
    ensures IsValidName("system.port")
  {
    var name := "system.port";
    forall i | 0 <= i < |name| ensures name[i] in ALPHABET { LetterOfNamesIff(name[i]); }
  }
}
