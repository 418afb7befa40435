/**
 The keystore and selector trees. A keystore entry is a node with an entry field and a selector is any value
 that is not a map; both are named by the dotted path of map keys that leads to them.
 */
module KeystoreTree {
  import opened Options
  import opened ConfigTree
  import opened Sorting
  import opened KeySpelling
  import opened Flattening

  /** The key tree a struct accepts; a non-struct field is a leaf without fields. */
  datatype Schema = Schema(typ: string, fields: seq<(string, Schema)>)

  const TEXT := Schema("string", [])
  const KEY_SOURCE := Schema("KeySourceConfig", [("file", TEXT), ("value", TEXT)])
  const PASSWORD_SOURCE := Schema("PasswordSourceConfig", [("env", TEXT), ("file", TEXT)])
  const PKCS12_SOURCE := Schema("PKCS12SourceConfig", [("file", TEXT), ("value", TEXT), ("password", PASSWORD_SOURCE)])
  const KEY_ENTRY := Schema("KeyPairConfig",
                           [("public", KEY_SOURCE), ("private", KEY_SOURCE), ("secret", KEY_SOURCE),
                            ("pkcs12", PKCS12_SOURCE)])

  /** The schema of a key, matched as the decoder matches a field name. */
  function FieldOf(fold: Fold, fields: seq<(string, Schema)>, key: string): Option<Schema>
  {
    if fields == [] then None
    else if SameSegment(fold, fields[0].0, key) then Some(fields[0].1)
    else FieldOf(fold, fields[1..], key)
  }

  /** `checkAgainstSchema`: no key the struct tags do not name, and no value of the wrong shape. */
  predicate FitsSchema(fold: Fold, n: Node, s: Schema)
    decreases n
  {
    if n.Null? || n == Typed(s.typ) then true
    else if s.fields == [] then !n.Tree?
    else
      n.Tree? && forall k | k in n.kids ::
        var f := FieldOf(fold, s.fields, k); f.Some? && FitsSchema(fold, n.kids[k], f.value)
  }

  predicate HasEntryField(fold: Fold, kids: map<string, Node>) {
    exists k :: k in kids && FieldOf(fold, KEY_ENTRY.fields, k).Some?
  }

  /** `checkEntry`: an entry's children are its fields, each fitting its struct. */
  predicate EntryFits(fold: Fold, kids: map<string, Node>) {
    forall k | k in kids ::
      var f := FieldOf(fold, KEY_ENTRY.fields, k); f.Some? && FitsSchema(fold, kids[k], f.value)
  }

  // ----- what the walks read

  /** `readKeyNode`'s reading: a typed entry, a null or an empty map is an entry as it stands; a map with an
      entry field is an entry if it fits its struct; any other map is a namespace. */
  function ReadKey(fold: Fold, n: Node): Reading {
    if n == Typed(KEY_ENTRY.typ) then Entry(n)
    else if n.Null? then Entry(Tree(map[]))
    else if !n.Tree? then Refused
    else if HasEntryField(fold, n.kids) then (if EntryFits(fold, n.kids) then Entry(n) else Refused)
    else if n.kids == map[] then Entry(n)
    else Namespace
  }

  /** The selector walk's reading: an empty map is neither a selector nor a namespace. */
  function ReadSelector(n: Node): Reading {
    if !n.Tree? then Entry(n) else if n.kids == map[] then Refused else Namespace
  }

  function KeyReader(fold: Fold): (r: Reader)
    ensures forall n :: r(n) == ReadKey(fold, n)
  {
    n => ReadKey(fold, n)
  }

  function SelectorReader(): (r: Reader)
    ensures forall n :: r(n) == ReadSelector(n)
  {
    n => ReadSelector(n)
  }

  // ----- the walks

  /** `checkTreeKey`: refuses a key that is not one name segment. */
  method CheckTreeKey(key: string) returns (ok: bool)
    ensures ok <==> SegmentOk(key)
  {
    if key == "" {
      return false;
    }
    return '.' !in key;
  }

  /** Walks the keys of a namespace in sorted order, adding to `out`; None is a refusal. */
  method WalkKeys(fold: Fold, node: Node, prefix: string, out: Names) returns (r: Option<Names>)
    requires node.Tree?
    ensures r.Some? <==> Accepts(KeyReader(fold), node)
    ensures r.Some? ==> Adds(prefix, Flat(KeyReader(fold), node), out, r.value)
    decreases node, 1
  {
    var keys := SortedKeys(node.kids.Keys);
    var now := out;
    ghost var done := {};
    WalkStarts(KeyReader(fold), node, prefix, out);
    for i := 0 to |keys|
      invariant forall k :: k in done <==> k in keys[..i]
      invariant Walked(KeyReader(fold), node, prefix, out, done, now)
    {
      var key := keys[i];
      r := WalkKey(fold, node, key, prefix, now, out, done);
      if r.None? {
        return;
      }
      now, done := r.value, done + {key};
      assert keys[..i + 1] == keys[..i] + [key];
    }
    assert keys[..|keys|] == keys;
    WalkEnds(KeyReader(fold), node, prefix, out, done, now);
    return Some(now);
  }

  /** One round of the walk: the key must be a segment and its node readable. */
  method WalkKey(fold: Fold, node: Node, key: string, prefix: string, now: Names, ghost out: Names,
                 ghost done: set<string>)
    returns (r: Option<Names>)
    requires node.Tree? && key in node.kids && key !in done
    requires Walked(KeyReader(fold), node, prefix, out, done, now)
    ensures r.None? ==> !Accepts(KeyReader(fold), node)
    ensures r.Some? ==> Walked(KeyReader(fold), node, prefix, out, done + {key}, r.value)
    decreases node, 0
  {
    var segment := CheckTreeKey(key);
    if !segment {
      WalkRefuses(KeyReader(fold), node, key);
      return None;
    }
    r := ReadKeyNode(fold, JoinName(prefix, key), node.kids[key], now);
    if r.None? {
      WalkRefuses(KeyReader(fold), node, key);
    } else {
      WalkGoesOn(KeyReader(fold), node, prefix, out, done, now, key, r.value);
    }
  }

  method ReadKeyNode(fold: Fold, name: string, child: Node, out: Names) returns (r: Option<Names>)
    ensures r.Some? <==> NodeAccepted(KeyReader(fold), child)
    ensures r.Some? ==> Adds(name, FlatNode(KeyReader(fold), child), out, r.value)
    decreases child, 2
  {
    ghost var read := KeyReader(fold);
    if read(child).Entry? {
      AddsEntry(read, child, name, out);
    }
    if child == Typed(KEY_ENTRY.typ) {
      return Some(out[name := child]);
    }
    var sub := if child.Null? then Tree(map[]) else child;
    if !sub.Tree? {
      return None;
    }
    if HasEntryField(fold, sub.kids) {
      if !EntryFits(fold, sub.kids) {
        return None;
      }
      return Some(out[name := sub]);
    }
    if sub.kids == map[] {
      return Some(out[name := sub]);
    }
    r := WalkKeys(fold, sub, name, out);
    if r.Some? {
      AddsNamespace(read, sub, name, out, r.value);
    }
  }

  /** `readKeyTree`: refused, or the entries by dotted name. Every stored value is the node the tree has at its name,
      a null as an empty map; and nesting the names again is the tree that was read, null entries as empty ones. */
  method ReadKeyTree(fold: Fold, tree: Node) returns (r: Option<Names>)
    requires tree.Tree?
    ensures r.Some? <==> Accepts(KeyReader(fold), tree)
    ensures r.Some? ==> Naming("", Flat(KeyReader(fold), tree), r.value)
    ensures r.Some? ==> forall name | name in r.value :: StoredAsRead(tree, Split(name), r.value[name])
    ensures r.Some? ==> [] !in BySegments(r.value) && Unflatten(BySegments(r.value)) == Normal(KeyReader(fold), tree)
  {
    r := WalkKeys(fold, tree, "", map[]);
    if r.Some? {
      AddsToEmpty("", Flat(KeyReader(fold), tree), r.value);
      NamingRoundTrip(KeyReader(fold), tree, r.value);
      forall name | name in r.value ensures StoredAsRead(tree, Split(name), r.value[name]) {
        KeyIsStoredAsRead(fold, tree, r.value, name);
      }
    }
  }

  /** `v` is the node at `p`, or an empty map for a null. */
  predicate StoredAsRead(tree: Node, p: seq<string>, v: Node) {
    NodeAt(tree, p).Some? && v == if NodeAt(tree, p).value.Null? then Tree(map[]) else NodeAt(tree, p).value
  }

  lemma KeyIsStoredAsRead(fold: Fold, tree: Node, out: Names, name: string)
    requires Accepts(KeyReader(fold), tree) && Naming("", Flat(KeyReader(fold), tree), out) && name in out
    ensures StoredAsRead(tree, Split(name), out[name])
  {
    NamedFromNode(KeyReader(fold), tree, out, name);
    var n := NodeAt(tree, Split(name)).value;
    assert ReadKey(fold, n) == Entry(out[name]);
    KeyNodeIs(fold, n);
  }

  /** No key is dropped: below, at or above every node of an accepted tree an entry is stored. */
  lemma NoKeyIsDropped(fold: Fold, tree: Node, out: Names, p: seq<string>) returns (q: seq<string>)
    requires Accepts(KeyReader(fold), tree) && Naming("", Flat(KeyReader(fold), tree), out)
    requires p != [] && NodeAt(tree, p).Some?
    ensures Dotted("", q) in out && (q <= p || p <= q)
  {
    q := NothingDropped(KeyReader(fold), tree, p);
    assert q in Flat(KeyReader(fold), tree);
  }

  // ----- which nodes are what, in the keystore's own words

  predicate IsOneOf(fold: Fold, names: seq<string>, key: string) {
    exists i :: 0 <= i < |names| && SameSegment(fold, names[i], key)
  }

  /** A key's material: a file or a value, each a single value. */
  predicate SourceFits(fold: Fold, n: Node) {
    || n.Null? || n == Typed("KeySourceConfig")
    || (n.Tree? && forall k | k in n.kids :: IsOneOf(fold, ["file", "value"], k) && !n.kids[k].Tree?)
  }

  predicate PasswordFits(fold: Fold, n: Node) {
    || n.Null? || n == Typed("PasswordSourceConfig")
    || (n.Tree? && forall k | k in n.kids :: IsOneOf(fold, ["env", "file"], k) && !n.kids[k].Tree?)
  }

  predicate BundleFits(fold: Fold, n: Node) {
    || n.Null? || n == Typed("PKCS12SourceConfig")
    || (n.Tree? && forall k | k in n.kids ::
          if IsOneOf(fold, ["file", "value"], k) then !n.kids[k].Tree?
          else IsOneOf(fold, ["password"], k) && PasswordFits(fold, n.kids[k]))
  }

  predicate ChildFits(fold: Fold, key: string, n: Node) {
    if IsOneOf(fold, ["public", "private", "secret"], key) then SourceFits(fold, n)
    else IsOneOf(fold, ["pkcs12"], key) && BundleFits(fold, n)
  }

  /** A map that sets a field of an entry. */
  predicate SetsField(fold: Fold, n: Node) {
    n.Tree? && exists k :: k in n.kids && IsOneOf(fold, ["public", "private", "secret", "pkcs12"], k)
  }

  lemma LeafFits(fold: Fold, n: Node)
    ensures FitsSchema(fold, n, TEXT) <==> !n.Tree?
  {
  }

  lemma FieldsOfTwo(fold: Fold, a: string, b: string, s: Schema, t: Schema, key: string)
    ensures FieldOf(fold, [(a, s), (b, t)], key) ==
            if SameSegment(fold, a, key) then Some(s) else if SameSegment(fold, b, key) then Some(t) else None
  {
    FieldsAfter(fold, (a, s), [(b, t)], key);
    FieldsAfter(fold, (b, t), [], key);
    assert [(a, s), (b, t)] == [(a, s)] + [(b, t)] && [(b, t)] == [(b, t)] + [];
  }

  lemma FieldsAfter(fold: Fold, first: (string, Schema), rest: seq<(string, Schema)>, key: string)
    ensures FieldOf(fold, [first] + rest, key) ==
            if SameSegment(fold, first.0, key) then Some(first.1) else FieldOf(fold, rest, key)
  {
    assert ([first] + rest)[1..] == rest;
  }

  lemma TwoNames(fold: Fold, a: string, b: string, key: string)
    ensures IsOneOf(fold, [a, b], key) <==> SameSegment(fold, a, key) || SameSegment(fold, b, key)
  {
    var names := [a, b];
    assert names[0] == a && names[1] == b;
  }

  lemma OneName(fold: Fold, a: string, key: string)
    ensures IsOneOf(fold, [a], key) <==> SameSegment(fold, a, key)
  {
    assert [a][0] == a;
  }

  lemma SourceFitsIff(fold: Fold, n: Node)
    ensures FitsSchema(fold, n, KEY_SOURCE) <==> SourceFits(fold, n)
  {
    if n.Tree? {
      forall k | k in n.kids
        ensures var f := FieldOf(fold, KEY_SOURCE.fields, k);
                (f.Some? && FitsSchema(fold, n.kids[k], f.value)) <==>
                IsOneOf(fold, ["file", "value"], k) && !n.kids[k].Tree?
      {
        FieldsOfTwo(fold, "file", "value", TEXT, TEXT, k);
        TwoNames(fold, "file", "value", k);
        LeafFits(fold, n.kids[k]);
      }
    }
  }

  lemma PasswordFitsIff(fold: Fold, n: Node)
    ensures FitsSchema(fold, n, PASSWORD_SOURCE) <==> PasswordFits(fold, n)
  {
    if n.Tree? {
      forall k | k in n.kids
        ensures var f := FieldOf(fold, PASSWORD_SOURCE.fields, k);
                (f.Some? && FitsSchema(fold, n.kids[k], f.value)) <==>
                IsOneOf(fold, ["env", "file"], k) && !n.kids[k].Tree?
      {
        FieldsOfTwo(fold, "env", "file", TEXT, TEXT, k);
        TwoNames(fold, "env", "file", k);
        LeafFits(fold, n.kids[k]);
      }
    }
  }

  lemma BundleField(fold: Fold, key: string)
    ensures FieldOf(fold, PKCS12_SOURCE.fields, key) ==
            if IsOneOf(fold, ["file", "value"], key) then Some(TEXT)
            else if IsOneOf(fold, ["password"], key) then Some(PASSWORD_SOURCE) else None
  {
    FieldsAfter(fold, ("file", TEXT), [("value", TEXT), ("password", PASSWORD_SOURCE)], key);
    assert PKCS12_SOURCE.fields == [("file", TEXT)] + [("value", TEXT), ("password", PASSWORD_SOURCE)];
    FieldsOfTwo(fold, "value", "password", TEXT, PASSWORD_SOURCE, key);
    TwoNames(fold, "file", "value", key);
    OneName(fold, "password", key);
  }

  lemma BundleFitsIff(fold: Fold, n: Node)
    ensures FitsSchema(fold, n, PKCS12_SOURCE) <==> BundleFits(fold, n)
  {
    if n.Tree? {
      forall k | k in n.kids
        ensures var f := FieldOf(fold, PKCS12_SOURCE.fields, k);
                (f.Some? && FitsSchema(fold, n.kids[k], f.value)) <==>
                if IsOneOf(fold, ["file", "value"], k) then !n.kids[k].Tree?
                else IsOneOf(fold, ["password"], k) && PasswordFits(fold, n.kids[k])
      {
        BundleField(fold, k);
        LeafFits(fold, n.kids[k]);
        PasswordFitsIff(fold, n.kids[k]);
      }
    }
  }

  lemma EntryField(fold: Fold, key: string)
    ensures FieldOf(fold, KEY_ENTRY.fields, key) ==
            if IsOneOf(fold, ["public", "private", "secret"], key) then Some(KEY_SOURCE)
            else if IsOneOf(fold, ["pkcs12"], key) then Some(PKCS12_SOURCE) else None
    ensures FieldOf(fold, KEY_ENTRY.fields, key).Some? <==>
            IsOneOf(fold, ["public", "private", "secret", "pkcs12"], key)
  {
    var last := [("secret", KEY_SOURCE), ("pkcs12", PKCS12_SOURCE)];
    FieldsOfTwo(fold, "secret", "pkcs12", KEY_SOURCE, PKCS12_SOURCE, key);
    FieldsAfter(fold, ("private", KEY_SOURCE), last, key);
    FieldsAfter(fold, ("public", KEY_SOURCE), [("private", KEY_SOURCE)] + last, key);
    assert KEY_ENTRY.fields == [("public", KEY_SOURCE)] + ([("private", KEY_SOURCE)] + last);
    OneName(fold, "pkcs12", key);
    var three, four := ["public", "private", "secret"], ["public", "private", "secret", "pkcs12"];
    assert three[0] == "public" && three[1] == "private" && three[2] == "secret";
    assert four[0] == "public" && four[1] == "private" && four[2] == "secret" && four[3] == "pkcs12";
  }

  lemma ChildFitsIff(fold: Fold, key: string, n: Node)
    ensures var f := FieldOf(fold, KEY_ENTRY.fields, key);
            (f.Some? && FitsSchema(fold, n, f.value)) <==> ChildFits(fold, key, n)
  {
    EntryField(fold, key);
    SourceFitsIff(fold, n);
    BundleFitsIff(fold, n);
  }

  /** Which nodes below `keystore.keys` are entries, namespaces and refusals. */
  lemma KeyNodeIs(fold: Fold, n: Node)
    ensures ReadKey(fold, n).Namespace? <==> n.Tree? && n.kids != map[] && !SetsField(fold, n)
    ensures ReadKey(fold, n).Refused? <==>
            if n.Tree? then SetsField(fold, n) && !forall k | k in n.kids :: ChildFits(fold, k, n.kids[k])
            else !n.Null? && n != Typed("KeyPairConfig")
    ensures ReadKey(fold, n).Entry? ==> ReadKey(fold, n).stored == if n.Null? then Tree(map[]) else n
  {
    if n.Tree? {
      forall k | k in n.kids
        ensures FieldOf(fold, KEY_ENTRY.fields, k).Some? <==>
                IsOneOf(fold, ["public", "private", "secret", "pkcs12"], k)
      {
        EntryField(fold, k);
      }
      forall k | k in n.kids
        ensures var f := FieldOf(fold, KEY_ENTRY.fields, k);
                (f.Some? && FitsSchema(fold, n.kids[k], f.value)) <==> ChildFits(fold, k, n.kids[k])
      {
        ChildFitsIff(fold, k, n.kids[k]);
      }
    }
  }

  method WalkSelectors(node: Node, prefix: string, out: Names) returns (r: Option<Names>)
    requires node.Tree?
    ensures r.Some? <==> Accepts(SelectorReader(), node)
    ensures r.Some? ==> Adds(prefix, Flat(SelectorReader(), node), out, r.value)
    decreases node, 2
  {
    var keys := SortedKeys(node.kids.Keys);
    var now := out;
    ghost var done := {};
    WalkStarts(SelectorReader(), node, prefix, out);
    for i := 0 to |keys|
      invariant forall k :: k in done <==> k in keys[..i]
      invariant Walked(SelectorReader(), node, prefix, out, done, now)
    {
      var key := keys[i];
      r := WalkSelector(node, key, prefix, now, out, done);
      if r.None? {
        return;
      }
      now, done := r.value, done + {key};
      assert keys[..i + 1] == keys[..i] + [key];
    }
    assert keys[..|keys|] == keys;
    WalkEnds(SelectorReader(), node, prefix, out, done, now);
    return Some(now);
  }

  /** One round of the walk: the key must be a segment and its node a leaf or a non-empty map. */
  method WalkSelector(node: Node, key: string, prefix: string, now: Names, ghost out: Names, ghost done: set<string>)
    returns (r: Option<Names>)
    requires node.Tree? && key in node.kids && key !in done
    requires Walked(SelectorReader(), node, prefix, out, done, now)
    ensures r.None? ==> !Accepts(SelectorReader(), node)
    ensures r.Some? ==> Walked(SelectorReader(), node, prefix, out, done + {key}, r.value)
    decreases node, 1
  {
    var segment := CheckTreeKey(key);
    if !segment {
      WalkRefuses(SelectorReader(), node, key);
      return None;
    }
    r := ReadSelectorNode(JoinName(prefix, key), node.kids[key], now);
    if r.None? {
      WalkRefuses(SelectorReader(), node, key);
    } else {
      WalkGoesOn(SelectorReader(), node, prefix, out, done, now, key, r.value);
    }
  }

  method ReadSelectorNode(name: string, child: Node, now: Names) returns (r: Option<Names>)
    ensures r.Some? <==> NodeAccepted(SelectorReader(), child)
    ensures r.Some? ==> Adds(name, FlatNode(SelectorReader(), child), now, r.value)
    decreases child, 3
  {
    ghost var read := SelectorReader();
    assert read(child) == ReadSelector(child);
    if !child.Tree? {
      AddsEntry(read, child, name, now);
      return Some(now[name := child]);
    }
    if child.kids == map[] {
      return None;
    }
    r := WalkSelectors(child, name, now);
    if r.Some? {
      AddsNamespace(read, child, name, now, r.value);
    }
  }

  /** Which nodes below `messaging.seal.active` are selectors, namespaces and refusals. */
  lemma SelectorNodeIs(n: Node)
    ensures ReadSelector(n).Refused? <==> n == Tree(map[])
    ensures ReadSelector(n).Namespace? <==> n.Tree? && n.kids != map[]
    ensures ReadSelector(n).Entry? ==> ReadSelector(n) == Entry(n)
  {
  }

  /** `readSelectorTree`: every entry is stored as it stands, so the round trip is exact. */
  method ReadSelectorTree(tree: Node) returns (r: Option<Names>)
    requires tree.Tree?
    ensures r.Some? <==> Accepts(SelectorReader(), tree)
    ensures r.Some? ==> Naming("", Flat(SelectorReader(), tree), r.value)
    ensures r.Some? ==> [] !in BySegments(r.value) && Unflatten(BySegments(r.value)) == tree
  {
    r := WalkSelectors(tree, "", map[]);
    if r.Some? {
      AddsToEmpty("", Flat(SelectorReader(), tree), r.value);
      NamingRoundTrip(SelectorReader(), tree, r.value);
      SelectorsAreNormal(tree);
    }
  }

  lemma {:induction false} SelectorsAreNormal(t: Node)
    requires t.Tree?
    ensures Normal(SelectorReader(), t) == t
    decreases t
  {
    forall k | k in t.kids && ReadSelector(t.kids[k]).Namespace?
      ensures Normal(SelectorReader(), t.kids[k]) == t.kids[k]
    {
      SelectorsAreNormal(t.kids[k]);
    }
    assert Normal(SelectorReader(), t).kids == t.kids;
  }
}
