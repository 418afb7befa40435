/**
 The presence doors: which operator-delivered paths a key names in the merged tree. Over a tree the spelling
 check accepted, a leaf key has exactly one delivery when an operator supplied it, and none otherwise.
 */
module Presence {
  import opened Options
  import opened ConfigTree
  import opened Sorting
  import opened ConfigSource
  import opened KeySpelling

  /** One spelling under which a key was delivered, with the raw value the merged tree keeps there. */
  datatype Delivery = Delivery(path: string, raw: Tree)

  /** `pathMatches`: segment by segment under the fold, and below the key only when asked. */
  predicate PathMatches(fold: Fold, key: seq<string>, path: seq<string>, under: bool) {
    && (if under then |key| <= |path| else |key| == |path|)
    && forall i | 0 <= i < |key| :: SameSegment(fold, key[i], path[i])
  }

  /** What the loaded tree answers for a name. */
  type Lookup = string -> Option<Tree>

  /** koanf's lookup: it knows a node by its keys joined with dots; of two nodes known alike it finds either. */
  ghost predicate Looks(t: Tree, look: Lookup) {
    forall name ::
      match look(name)
      case Some(n) => exists q :: q != [] && Join(q) == name && At(t, q) == Some(n)
      case None => forall q | q != [] && Join(q) == name :: At(t, q).None?
  }

  predicate Found(fold: Fold, s: Source, look: Lookup, key: string, under: bool, d: Delivery) {
    && d.path in s.delivered
    && PathMatches(fold, Split(key), Split(d.path), under)
    && look(d.path) == Some(d.raw)
  }

  predicate SortedByPath(ds: seq<Delivery>) {
    forall i, j | 0 <= i < j < |ds| :: Less(ds[i].path, ds[j].path)
  }

  method Deliveries(fold: Fold, s: Source, look: Lookup, key: string, under: bool) returns (found: seq<Delivery>)
    ensures SortedByPath(found)
    ensures forall d :: d in found <==> Found(fold, s, look, key, under, d)
  {
    found := [];
    var want := Split(key);
    var paths := SortedKeys(s.delivered);
    for i := 0 to |paths|
      invariant SortedByPath(found)
      invariant forall d | d in found :: exists j :: 0 <= j < i && paths[j] == d.path
      invariant forall d :: d in found <==> d.path in paths[..i] && Found(fold, s, look, key, under, d)
    {
      var path := paths[i];
      var at := look(path);
      if PathMatches(fold, want, Split(path), under) && at.Some? {
        found := found + [Delivery(path, at.value)];
      }
      assert paths[..i + 1] == paths[..i] + [path];
    }
    assert paths[..|paths|] == paths;
  }

  /** The raw value at the spelling under which the leaf key was delivered. */
  method DeliveredValue(fold: Fold, s: Source, look: Lookup, key: string) returns (raw: Option<Tree>)
    ensures raw.None? <==> forall d :: !Found(fold, s, look, key, false, d)
    ensures raw.Some? ==>
              exists d :: Found(fold, s, look, key, false, d) && d.raw == raw.value &&
                          forall e | Found(fold, s, look, key, false, e) :: e == d || Less(d.path, e.path)
  {
    var found := Deliveries(fold, s, look, key, false);
    if found == [] {
      return None;
    }
    raw := Some(found[0].raw);
    assert found[0] in found;
    forall e | Found(fold, s, look, key, false, e) ensures e == found[0] || Less(found[0].path, e.path) {
      assert e in found;
    }
  }

  /** In a tree without case twins, two nodes whose paths fold together are one node. */
  lemma {:induction false} TwinFreePathsAgree(fold: Fold, t: Tree, p: seq<string>, q: seq<string>)
    requires NoTwins(fold, t) && At(t, p).Some? && At(t, q).Some? && PathMatches(fold, p, q, false)
    ensures p == q
    decreases |p|
  {
    if p != [] {
      assert SameSegment(fold, p[0], q[0]);
      forall i | 0 <= i < |p[1..]| ensures SameSegment(fold, p[1..][i], q[1..][i]) {
        assert SameSegment(fold, p[i + 1], q[i + 1]);
      }
      TwinFreePathsAgree(fold, t.kids[p[0]], p[1..], q[1..]);
      assert p == [p[0]] + p[1..] && q == [q[0]] + q[1..];
    }
  }

  /** No node is known by the name of another readable path; a tree without dots in its keys is always so. */
  ghost predicate ReadsBack(t: Tree) {
    forall q | q != [] && At(t, q).Some? :: Split(Join(q)) == q || !Readable(Split(Join(q)))
  }

  lemma DotFreeReadsBack(t: Tree)
    requires AllKeys(t, k => DotFree(k))
    ensures ReadsBack(t)
  {
    forall q | q != [] && At(t, q).Some? ensures Split(Join(q)) == q {
      PathKeysOk(t, q, k => DotFree(k));
      SplitOfJoin(q);
    }
  }

  /** There a readable name is looked up by splitting it. */
  lemma LooksBySplitting(t: Tree, look: Lookup, name: string)
    requires Looks(t, look) && ReadsBack(t) && Readable(Split(name))
    ensures look(name) == At(t, Split(name))
  {
    JoinOfSplit(name);
    if look(name).Some? {
      var q :| q != [] && Join(q) == name && At(t, q) == look(name);
      assert Split(Join(q)) == q;
    }
  }

  /** Over a tree that passed the spelling check and reads back, any spelling of a leaf finds at most one delivery,
      under the leaf's own name. */
  lemma OnlyOwnNameIsFound(fold: Fold, s: Source, look: Lookup, key: string, p: seq<string>, d: Delivery)
    requires NoTwins(fold, s.tree) && Looks(s.tree, look) && ReadsBack(s.tree)
    requires Readable(p) && LeafAt(s.tree, p) && PathMatches(fold, Split(key), p, false)
    ensures Found(fold, s, look, key, false, d) <==>
            d == Delivery(Dotted("", p), At(s.tree, p).value) && d.path in s.delivered
  {
    SplitOfDotted(p);
    LooksBySplitting(s.tree, look, Dotted("", p));
    if Found(fold, s, look, key, false, d) {
      var q := Split(d.path);
      forall i | 0 <= i < |p| ensures SameSegment(fold, p[i], q[i]) {
        assert SameSegment(fold, Split(key)[i], p[i]) && SameSegment(fold, Split(key)[i], q[i]);
      }
      assert Readable(q) by {
        assert SameSegment(fold, p[0], q[0]);
        SplitIsDotFree(d.path);
      }
      LooksBySplitting(s.tree, look, d.path);
      TwinFreePathsAgree(fold, s.tree, p, q);
      assert d.path != "" && d.path[0] != '.';
      DottedOfSplit(d.path);
    }
  }

  /** End to end, for any keys in the layers: what a lookup of a leaf finds, and when. */
  lemma LeafDeliveriesIff(fold: Fold, defaults: Tree, layers: seq<Layer>, look: Lookup, key: string, p: seq<string>,
                          d: Delivery)
    requires var s := Load(defaults, layers); NoTwins(fold, s.tree) && Looks(s.tree, look) && ReadsBack(s.tree)
    requires LeafAt(Load(defaults, layers).tree, p) && Readable(p) && PathMatches(fold, Split(key), p, false)
    ensures Found(fold, Load(defaults, layers), look, key, false, d) <==>
            && d.path == Dotted("", p)
            && Some(d.raw) == At(Load(defaults, layers).tree, p)
            && (|| Origin(layers, p).Some?
                || exists i, q :: 0 <= i < |layers| && Passes(defaults, layers, i, q) && q != p && Alias(q) == p)
  {
    OnlyOwnNameIsFound(fold, Load(defaults, layers), look, key, p, d);
    WronglyDelivered(defaults, layers, p);
  }

  /** Unless a layer misnames, looking up any spelling of a leaf finds exactly one delivery carrying the last operator
      layer's value, and none for a default. */
  lemma LeafHasOneDelivery(fold: Fold, defaults: Tree, layers: seq<Layer>, look: Lookup, key: string, p: seq<string>,
                           d: Delivery)
    requires Rooted(defaults, layers) && Clean(defaults) && !Misnaming(layers)
    requires var s := Load(defaults, layers); NoTwins(fold, s.tree) && Looks(s.tree, look) && ReadsBack(s.tree)
    requires LeafAt(Load(defaults, layers).tree, p) && Readable(p) && PathMatches(fold, Split(key), p, false)
    ensures Found(fold, Load(defaults, layers), look, key, false, d) <==>
            && Origin(layers, p).Some?
            && d.path == Dotted("", p)
            && Some(d.raw) == At(layers[Origin(layers, p).value].tree, p)
  {
    OnlyOwnNameIsFound(fold, Load(defaults, layers), look, key, p, d);
    DeliveredIffOperators(defaults, layers, p);
    FinalLeafValue(defaults, layers, p);
  }

  /** A leaf's own name always finds it: once when an operator supplied it, and not otherwise. */
  lemma OwnKeyFindsLeaf(fold: Fold, defaults: Tree, layers: seq<Layer>, look: Lookup, p: seq<string>, d: Delivery)
    requires Rooted(defaults, layers) && Clean(defaults) && !Misnaming(layers)
    requires var s := Load(defaults, layers); NoTwins(fold, s.tree) && Looks(s.tree, look) && ReadsBack(s.tree)
    requires LeafAt(Load(defaults, layers).tree, p) && Readable(p)
    ensures Found(fold, Load(defaults, layers), look, Dotted("", p), false, d) <==>
            && Origin(layers, p).Some?
            && d == Delivery(Dotted("", p), At(Load(defaults, layers).tree, p).value)
  {
    SplitOfDotted(p);
    assert PathMatches(fold, Split(Dotted("", p)), p, false);
    LeafHasOneDelivery(fold, defaults, layers, look, Dotted("", p), p, d);
    FinalLeafValue(defaults, layers, p);
  }

  /** Asked for what lies under it, a key finds every delivered leaf below; asked for itself alone, none of those. */
  lemma LeavesBelowAreFound(fold: Fold, s: Source, look: Lookup, p: seq<string>, n: nat)
    requires Looks(s.tree, look) && ReadsBack(s.tree) && Readable(p) && LeafAt(s.tree, p) && 0 < n < |p|
    requires Dotted("", p) in s.delivered
    ensures var key, d := Dotted("", p[..n]), Delivery(Dotted("", p), At(s.tree, p).value);
            Found(fold, s, look, key, true, d) && !Found(fold, s, look, key, false, d)
  {
    SplitOfDotted(p);
    SplitOfDotted(p[..n]);
    LooksBySplitting(s.tree, look, Dotted("", p));
  }
}
