/** `ListAllMember` and `Config::LoadFromYaml` (chord/config.cpp:12-69): flattening a
    document with pruning, and loading it as a fold over the listed nodes. */
module ConfigLoad {
  import opened Sequences
  import opened Yaml

  // ----------------------------------------------------------- valid names

  /** The literal of chord/config.cpp:15 and chord/config.h:442: no `d`, no `9`, no
      upper case. */
  const ALPHABET: string := "abcefghijklmnopqrstuvwxyz._012345678"

  predicate IsValidName(name: string) {
    forall i | 0 <= i < |name| :: name[i] in ALPHABET
  }

  function ToLowerChar(c: char): char {
    if 'A' <= c <= 'Z' then c + 32 as char else c
  }

  function ToLower(s: string): (r: string)
    ensures |r| == |s| && forall i | 0 <= i < |s| :: r[i] == ToLowerChar(s[i])
  {
    seq(|s|, i requires 0 <= i < |s| => ToLowerChar(s[i]))
  }

  /** Lower-casing is the identity on every name that survives the filter. */
  lemma LowerCasingIsIdentity(name: string)
    requires IsValidName(name)
    ensures ToLower(name) == name
  {
    forall i | 0 <= i < |name| ensures ToLowerChar(name[i]) == name[i] {
      NoUpperCase(name[i]);
    }
  }

  lemma NoUpperCase(c: char)
    requires c in ALPHABET
    ensures !('A' <= c <= 'Z')
  {}

  // ------------------------------------------------------------ flattening

  type Listing = seq<(string, Node)>

  function ChildName(prefix: string, key: string): string {
    if prefix == "" then key else prefix + "." + key
  }

  /** Every node of the document under its dotted name, valid or not. */
  function Flatten(prefix: string, node: Node): Listing
    decreases node, 1
  {
    [(prefix, node)] + if node.Mapping? then FlattenEntries(prefix, node.entries) else []
  }

  function FlattenEntries(prefix: string, entries: seq<Entry>): Listing
    decreases entries, 0
  {
    if entries == [] then []
    else Flatten(ChildName(prefix, entries[0].key), entries[0].value) + FlattenEntries(prefix, entries[1..])
  }

  function KeepValid(l: Listing): (r: Listing)
    ensures forall i | 0 <= i < |r| :: r[i] in l && IsValidName(r[i].0)
  {
    if l == [] then []
    else (if IsValidName(l[0].0) then [l[0]] else []) + KeepValid(l[1..])
  }

  lemma {:induction false} KeepValidAppend(a: Listing, b: Listing)
    ensures KeepValid(a + b) == KeepValid(a) + KeepValid(b)
  {
    if a == [] {
      assert a + b == b;
    } else {
      assert (a + b)[1..] == a[1..] + b;
      KeepValidAppend(a[1..], b);
    }
  }

  lemma ChildOfInvalidIsInvalid(prefix: string, key: string)
    requires !IsValidName(prefix)
    ensures !IsValidName(ChildName(prefix, key))
  {
    var i :| 0 <= i < |prefix| && prefix[i] !in ALPHABET;
    assert ChildName(prefix, key)[i] == prefix[i];
  }

  lemma {:induction false} InvalidSubtreeIsDropped(prefix: string, node: Node)
    requires !IsValidName(prefix)
    ensures KeepValid(Flatten(prefix, node)) == []
    decreases node, 1
  {
    if node.Mapping? {
      InvalidEntriesAreDropped(prefix, node.entries);
      assert ([(prefix, node)] + FlattenEntries(prefix, node.entries))[1..] == FlattenEntries(prefix, node.entries);
    } else {
      assert Flatten(prefix, node) == [(prefix, node)];
    }
  }

  lemma {:induction false} InvalidEntriesAreDropped(prefix: string, entries: seq<Entry>)
    requires !IsValidName(prefix)
    ensures KeepValid(FlattenEntries(prefix, entries)) == []
    decreases entries, 0
  {
    if entries != [] {
      ChildOfInvalidIsInvalid(prefix, entries[0].key);
      InvalidSubtreeIsDropped(ChildName(prefix, entries[0].key), entries[0].value);
      InvalidEntriesAreDropped(prefix, entries[1..]);
      KeepValidAppend(Flatten(ChildName(prefix, entries[0].key), entries[0].value),
          FlattenEntries(prefix, entries[1..]));
    }
  }

  lemma {:induction false} FlattenAppend(prefix: string, a: seq<Entry>, b: seq<Entry>)
    ensures FlattenEntries(prefix, a + b) == FlattenEntries(prefix, a) + FlattenEntries(prefix, b)
    decreases |a|
  {
    hide Flatten;
    if a == [] {
      assert a + b == b;
    } else {
      assert (a + b)[1..] == a[1..] + b && (a + b)[0] == a[0];
      FlattenAppend(prefix, a[1..], b);
      Associative(Flatten(ChildName(prefix, a[0].key), a[0].value), FlattenEntries(prefix, a[1..]),
          FlattenEntries(prefix, b));
    }
  }

  /** What has been listed once the first `k` entries of a map have been visited. */
  function Listed(prefix: string, node: Node, k: nat): Listing
    requires node.Mapping? && k <= |node.entries|
  {
    [(prefix, node)] + KeepValid(FlattenEntries(prefix, node.entries[..k]))
  }

  lemma ListOneMore(prefix: string, node: Node, k: nat)
    requires node.Mapping? && k < |node.entries|
    ensures var e := node.entries[k];
            Listed(prefix, node, k + 1) ==
                Listed(prefix, node, k) + KeepValid(Flatten(ChildName(prefix, e.key), e.value))
  {
    var e, before := node.entries[k], node.entries[..k];
    assert node.entries[..k + 1] == before + [e];
    FlattenAppend(prefix, before, [e]);
    var child := Flatten(ChildName(prefix, e.key), e.value);
    assert FlattenEntries(prefix, [e]) == child + FlattenEntries(prefix, []) == child;
    KeepValidAppend(FlattenEntries(prefix, before), child);
  }

  lemma ListedAll(prefix: string, node: Node)
    requires IsValidName(prefix)
    ensures KeepValid(Flatten(prefix, node)) ==
            if node.Mapping? then Listed(prefix, node, |node.entries|) else [(prefix, node)]
  {
    if node.Mapping? {
      assert node.entries[..|node.entries|] == node.entries;
      KeepValidAppend([(prefix, node)], FlattenEntries(prefix, node.entries));
    }
  }

  /** `ListAllMember`: appends to `output`, and does not look below an invalid name. */
  method ListAllMember(prefix: string, node: Node, output: Listing) returns (r: Listing)
    ensures r == output + KeepValid(Flatten(prefix, node))
    decreases node
  {
    if exists i | 0 <= i < |prefix| :: prefix[i] !in ALPHABET {
      InvalidSubtreeIsDropped(prefix, node);
      return output;
    }
    ListedAll(prefix, node);
    hide KeepValid, Flatten, FlattenEntries, Listed;
    r := output + [(prefix, node)];
    if node.Mapping? {
      ListedNothing(prefix, node);
      for k := 0 to |node.entries|
        invariant r == output + Listed(prefix, node, k)
      {
        ListOneMore(prefix, node, k);
        var e := node.entries[k];
        Associative(output, Listed(prefix, node, k), KeepValid(Flatten(ChildName(prefix, e.key), e.value)));
        r := ListAllMember(ChildName(prefix, e.key), e.value, r);
      }
    }
  }

  lemma ListedNothing(prefix: string, node: Node)
    requires node.Mapping?
    ensures Listed(prefix, node, 0) == [(prefix, node)]
  {}
}
