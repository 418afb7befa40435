/**
 Layered configuration with recorded presence. The framework's defaults load silently; every operator layer
 merges over what is there and records, after the merge has decided, the dotted path of each of its leaves
 that survived. The presence doors then answer from that record and the merged tree.
 */
module ConfigSource {
  import opened Options
  import opened ConfigTree

  // ----- merge and record

  /** Merges `s` over `d`. Both merges recurse where both sides are maps and otherwise let `s` win; the
      guarded one, used for the environment, keeps a map against an incoming non-map. */
  function Merge(guarded: bool, s: Tree, d: Tree): Tree
    decreases s
  {
    if s.Map? && d.Map? then
      Map(map k | k in s.kids.Keys + d.kids.Keys ::
            if k !in s.kids then d.kids[k]
            else if k !in d.kids then s.kids[k]
            else Merge(guarded, s.kids[k], d.kids[k]))
    else if guarded && d.Map? then d
    else s
  }

  /** The names recorded for one key of a layer: `s` is the layer's node, `d` the merged tree's. */
  function RecordNode(s: Tree, d: Option<Tree>, path: string): set<string>
    decreases s
  {
    var destIsMap := d.Some? && d.value.Map?;
    if s.Map? then
      if destIsMap then
        set k, q | k in s.kids && q in RecordNode(s.kids[k], Child(d.value, k), JoinName(path, k)) :: q
      else {}
    else if destIsMap then {}
    else {path}
  }

  function Child(t: Tree, k: string): Option<Tree> {
    if t.Map? && k in t.kids then Some(t.kids[k]) else None
  }

  datatype Layer = Layer(tree: Tree, guarded: bool)

  datatype Source = Source(tree: Tree, delivered: set<string>)

  function LoadLayer(s: Source, l: Layer): Source {
    var merged := Merge(l.guarded, l.tree, s.tree);
    Source(merged, s.delivered + RecordNode(l.tree, Some(merged), ""))
  }

  /** Defaults first and unrecorded, then the operator's layers in order. */
  function Load(defaults: Tree, layers: seq<Layer>): Source {
    if layers == [] then Source(defaults, {})
    else LoadLayer(Load(defaults, layers[..|layers| - 1]), layers[|layers| - 1])
  }

  /** Every layer, like the defaults, is a map at its root. */
  predicate Rooted(defaults: Tree, layers: seq<Layer>) {
    defaults.Map? && forall i | 0 <= i < |layers| :: layers[i].tree.Map?
  }

  // ----- what one merge does to a leaf

  /** A leaf of the merged tree is the incoming layer's where that layer has a leaf there, else the old one. */
  lemma {:induction false} MergedLeaf(g: bool, s: Tree, d: Tree, p: seq<string>)
    requires LeafAt(Merge(g, s, d), p)
    ensures LeafAt(s, p) ==> At(Merge(g, s, d), p) == At(s, p)
    ensures !LeafAt(s, p) ==> LeafAt(d, p) && At(Merge(g, s, d), p) == At(d, p)
    decreases |p|
  {
    if p != [] && s.Map? && d.Map? && p[0] in s.kids && p[0] in d.kids {
      MergedLeaf(g, s.kids[p[0]], d.kids[p[0]], p[1..]);
    }
  }

  /** The guarded merge never turns a map node into anything else. */
  lemma {:induction false} GuardedMergeKeepsMaps(s: Tree, d: Tree, p: seq<string>)
    requires MapAt(d, p)
    ensures MapAt(Merge(true, s, d), p)
    decreases |p|
  {
    if p != [] && s.Map? && p[0] in s.kids {
      GuardedMergeKeepsMaps(s.kids[p[0]], d.kids[p[0]], p[1..]);
    }
  }

  lemma {:induction false} MergeWithSelf(g: bool, t: Tree)
    ensures Merge(g, t, t) == t
    decreases t
  {
    if t.Map? {
      forall k | k in t.kids ensures Merge(g, t.kids[k], t.kids[k]) == t.kids[k] {
        MergeWithSelf(g, t.kids[k]);
      }
      assert Merge(g, t, t).kids == t.kids;
    }
  }

  /** Loading the same layer twice in a row changes nothing. */
  lemma {:induction false} MergeIsIdempotent(g: bool, s: Tree, d: Tree)
    ensures Merge(g, s, Merge(g, s, d)) == Merge(g, s, d)
    decreases s
  {
    if s.Map? && d.Map? {
      var m := Merge(g, s, d);
      forall k | k in s.kids ensures Merge(g, s.kids[k], m.kids[k]) == m.kids[k] {
        if k in d.kids {
          MergeIsIdempotent(g, s.kids[k], d.kids[k]);
        } else {
          MergeWithSelf(g, s.kids[k]);
        }
      }
      assert Merge(g, s, m).kids == m.kids;
    } else {
      MergeWithSelf(g, s);
      MergeWithSelf(g, d);
    }
  }

  // ----- what one layer records

  /** The recorded names are the composed names of the layer's leaves that are leaves of the merged tree. */
  lemma {:induction false} RecordedNames(g: bool, s: Tree, d: Tree, path: string, q: string)
    ensures q in RecordNode(s, Some(Merge(g, s, d)), path) <==>
            exists p :: LeafAt(s, p) && LeafAt(Merge(g, s, d), p) && Dotted(path, p) == q
    decreases s
  {
    var m := Merge(g, s, d);
    if !s.Map? {
      assert LeafAt(s, []) && Dotted(path, []) == path && (LeafAt(m, []) <==> !m.Map?);
      assert forall p :: LeafAt(s, p) ==> p == [];
    } else if m.Map? {
      if q in RecordNode(s, Some(m), path) {
        var k :| k in s.kids && q in RecordNode(s.kids[k], Child(m, k), JoinName(path, k));
        RecordedBelow(g, s, d, path, q, k);
        var p' :| LeafAt(s.kids[k], p') && LeafAt(m.kids[k], p') && Dotted(JoinName(path, k), p') == q;
        var p := [k] + p';
        assert LeafAt(s, p) && LeafAt(m, p) && Dotted(path, p) == q;
      }
      if p :| LeafAt(s, p) && LeafAt(m, p) && Dotted(path, p) == q {
        RecordedBelow(g, s, d, path, q, p[0]);
        assert LeafAt(s.kids[p[0]], p[1..]) && LeafAt(m.kids[p[0]], p[1..]);
      }
    }
  }

  lemma RecordedBelow(g: bool, s: Tree, d: Tree, path: string, q: string, k: string)
    requires s.Map? && Merge(g, s, d).Map? && k in s.kids
    ensures var m := Merge(g, s, d);
            && k in m.kids
            && (q in RecordNode(s.kids[k], Child(m, k), JoinName(path, k)) <==>
                exists p :: LeafAt(s.kids[k], p) && LeafAt(m.kids[k], p) && Dotted(JoinName(path, k), p) == q)
    decreases s, 0
  {
    if d.Map? && k in d.kids {
      RecordedNames(g, s.kids[k], d.kids[k], JoinName(path, k), q);
    } else {
      MergeWithSelf(g, s.kids[k]);
      RecordedNames(g, s.kids[k], s.kids[k], JoinName(path, k), q);
    }
  }

  // ----- provenance over every sequence of layers

  /** The last operator layer that holds a leaf at `p`. */
  function Origin(layers: seq<Layer>, p: seq<string>): (o: Option<nat>)
    ensures o.Some? ==> o.value < |layers| && LeafAt(layers[o.value].tree, p)
    ensures forall i | 0 <= i < |layers| && LeafAt(layers[i].tree, p) :: o.Some? && i <= o.value
  {
    if layers == [] then None
    else if LeafAt(layers[|layers| - 1].tree, p) then Some(|layers| - 1)
    else Origin(layers[..|layers| - 1], p)
  }

  /** Precedence: a leaf of the final tree carries the value of the last operator layer holding a leaf at
      that very path, and the default's value when none does. */
  lemma {:induction false} FinalLeafValue(defaults: Tree, layers: seq<Layer>, p: seq<string>)
    requires LeafAt(Load(defaults, layers).tree, p)
    ensures match Origin(layers, p)
            case Some(i) => At(Load(defaults, layers).tree, p) == At(layers[i].tree, p)
            case None => At(Load(defaults, layers).tree, p) == At(defaults, p)
  {
    if layers != [] {
      var front, l := layers[..|layers| - 1], layers[|layers| - 1];
      MergedLeaf(l.guarded, l.tree, Load(defaults, front).tree, p);
      if !LeafAt(l.tree, p) {
        FinalLeafValue(defaults, front, p);
      }
    }
  }

  // ----- what the layers do to a path, read off their keys alone

  /** A leaf of `t` sits at `q` or above it. */
  predicate LeafAbove(t: Tree, q: seq<string>) {
    !t.Map? || (q != [] && q[0] in t.kids && LeafAbove(t.kids[q[0]], q[1..]))
  }

  /** The merge has a map at `q` where the layer has one, or where there was one and the layer does not replace it. */
  lemma {:induction false} MergedMap(g: bool, s: Tree, d: Tree, q: seq<string>)
    ensures MapAt(Merge(g, s, d), q) <==> MapAt(s, q) || (MapAt(d, q) && (g || !LeafAbove(s, q)))
    decreases |q|
  {
    if q != [] && s.Map? && d.Map? && q[0] in s.kids && q[0] in d.kids {
      MergedMap(g, s.kids[q[0]], d.kids[q[0]], q[1..]);
    }
  }

  /** The layer leaves what is at `p` alone. */
  predicate Spares(l: Layer, p: seq<string>) {
    At(l.tree, p).None? && (l.guarded || !LeafAbove(l.tree, p))
  }

  /** Exactly which leaves a merge has: the layer's, unless guarded away by a map, and the spared old ones. */
  lemma {:induction false} MergedLeafIff(l: Layer, d: Tree, p: seq<string>)
    ensures LeafAt(Merge(l.guarded, l.tree, d), p) <==>
            || (LeafAt(l.tree, p) && !(l.guarded && MapAt(d, p)))
            || (LeafAt(d, p) && Spares(l, p))
    decreases |p|
  {
    var s := l.tree;
    if p != [] && s.Map? && d.Map? && p[0] in s.kids && p[0] in d.kids {
      MergedLeafIff(Layer(s.kids[p[0]], l.guarded), d.kids[p[0]], p[1..]);
    }
  }

  /** Whether a map is at `q` once the layers are loaded. */
  predicate HoldsMap(defaults: Tree, layers: seq<Layer>, q: seq<string>) {
    if layers == [] then MapAt(defaults, q)
    else
      var l := layers[|layers| - 1];
      MapAt(l.tree, q) || (HoldsMap(defaults, layers[..|layers| - 1], q) && (l.guarded || !LeafAbove(l.tree, q)))
  }

  lemma {:induction false} LoadedMap(defaults: Tree, layers: seq<Layer>, q: seq<string>)
    ensures MapAt(Load(defaults, layers).tree, q) <==> HoldsMap(defaults, layers, q)
  {
    if layers != [] {
      var front, l := layers[..|layers| - 1], layers[|layers| - 1];
      LoadedMap(defaults, front, q);
      MergedMap(l.guarded, l.tree, Load(defaults, front).tree, q);
    }
  }

  lemma {:induction false} HoldsMapGrows(d: Tree, e: Tree, layers: seq<Layer>, q: seq<string>)
    requires MapAt(d, q) ==> MapAt(e, q)
    ensures HoldsMap(d, layers, q) ==> HoldsMap(e, layers, q)
  {
    if layers != [] {
      HoldsMapGrows(d, e, layers[..|layers| - 1], q);
    }
  }

  /** Layer `i` delivers a leaf at `q`: it has one there, and no map in its way when it is guarded. */
  predicate Passes(defaults: Tree, layers: seq<Layer>, i: nat, q: seq<string>)
    requires i < |layers|
  {
    LeafAt(layers[i].tree, q) && (layers[i].guarded ==> !HoldsMap(defaults, layers[..i], q))
  }

  ghost predicate Recorded(defaults: Tree, layers: seq<Layer>, q: seq<string>) {
    exists i :: 0 <= i < |layers| && Passes(defaults, layers, i, q)
  }

  lemma RecordedSplits(defaults: Tree, layers: seq<Layer>, q: seq<string>)
    requires layers != []
    ensures Recorded(defaults, layers, q) <==>
            Recorded(defaults, layers[..|layers| - 1], q) || Passes(defaults, layers, |layers| - 1, q)
  {
    var front := layers[..|layers| - 1];
    forall i | 0 <= i < |front| ensures Passes(defaults, front, i, q) <==> Passes(defaults, layers, i, q) {
      assert front[..i] == layers[..i];
    }
  }

  /** A layer's leaf is in the tree merged from it exactly when it passes. */
  lemma PassesIsMerged(defaults: Tree, layers: seq<Layer>, q: seq<string>)
    requires layers != [] && LeafAt(layers[|layers| - 1].tree, q)
    ensures LeafAt(Load(defaults, layers).tree, q) <==> Passes(defaults, layers, |layers| - 1, q)
  {
    var front, l := layers[..|layers| - 1], layers[|layers| - 1];
    MergedLeafIff(l, Load(defaults, front).tree, q);
    LoadedMap(defaults, front, q);
  }

  /** The presence set is exactly the composed names of the leaves the layers deliver. */
  lemma {:induction false} DeliveredNames(defaults: Tree, layers: seq<Layer>, name: string)
    ensures name in Load(defaults, layers).delivered <==>
            exists q :: Recorded(defaults, layers, q) && Dotted("", q) == name
  {
    if layers != [] {
      var front, l := layers[..|layers| - 1], layers[|layers| - 1];
      DeliveredNames(defaults, front, name);
      RecordedNames(l.guarded, l.tree, Load(defaults, front).tree, "", name);
      forall q ensures Recorded(defaults, layers, q) <==>
                       Recorded(defaults, front, q) || (LeafAt(l.tree, q) && LeafAt(Load(defaults, layers).tree, q))
      {
        RecordedSplits(defaults, layers, q);
        if LeafAt(l.tree, q) {
          PassesIsMerged(defaults, layers, q);
        }
      }
    }
  }

  /** On segment paths the record is exact: a final leaf was recorded just when its value is an operator's. */
  lemma {:induction false} FinalLeafRecorded(defaults: Tree, layers: seq<Layer>, p: seq<string>)
    requires LeafAt(Load(defaults, layers).tree, p)
    ensures Recorded(defaults, layers, p) <==> Origin(layers, p).Some?
  {
    if layers != [] {
      var front, l := layers[..|layers| - 1], layers[|layers| - 1];
      RecordedSplits(defaults, layers, p);
      MergedLeaf(l.guarded, l.tree, Load(defaults, front).tree, p);
      if LeafAt(l.tree, p) {
        PassesIsMerged(defaults, layers, p);
      } else {
        FinalLeafRecorded(defaults, front, p);
      }
    }
  }

  /** The final leaves no operator supplied are the defaults' leaves that every layer spares. */
  lemma {:induction false} DefaultLeafIff(defaults: Tree, layers: seq<Layer>, p: seq<string>)
    ensures LeafAt(Load(defaults, layers).tree, p) && Origin(layers, p).None? <==>
            LeafAt(defaults, p) && forall j | 0 <= j < |layers| :: Spares(layers[j], p)
  {
    if layers != [] {
      var front, l := layers[..|layers| - 1], layers[|layers| - 1];
      DefaultLeafIff(defaults, front, p);
      MergedLeafIff(l, Load(defaults, front).tree, p);
      assert (forall j | 0 <= j < |layers| :: Spares(layers[j], p)) <==>
             (forall j | 0 <= j < |front| :: Spares(front[j], p)) && Spares(l, p) by {
        assert forall j | 0 <= j < |front| :: front[j] == layers[j];
      }
    }
  }

  // ----- names that read as another path

  /** The path under which the name recorded for `q` is read. */
  function Alias(q: seq<string>): seq<string> {
    Split(Dotted("", q))
  }

  lemma NamedAlike(p: seq<string>, q: seq<string>)
    requires Readable(p)
    ensures Dotted("", q) == Dotted("", p) <==> Alias(q) == p
  {
    SplitOfDotted(p);
    var name := Dotted("", q);
    if Split(name) == p {
      assert name != "" && name[0] != '.';
      DottedOfSplit(name);
    }
  }

  /** Where a final leaf's presence comes from, whatever keys the layers carry: an operator supplied it, or a layer
      delivers another leaf whose name reads as it. */
  lemma WronglyDelivered(defaults: Tree, layers: seq<Layer>, p: seq<string>)
    requires LeafAt(Load(defaults, layers).tree, p) && Readable(p)
    ensures Dotted("", p) in Load(defaults, layers).delivered <==>
            || Origin(layers, p).Some?
            || exists i, q :: 0 <= i < |layers| && Passes(defaults, layers, i, q) && q != p && Alias(q) == p
  {
    DeliveredNames(defaults, layers, Dotted("", p));
    FinalLeafRecorded(defaults, layers, p);
    forall q ensures Dotted("", q) == Dotted("", p) <==> Alias(q) == p {
      NamedAlike(p, q);
    }
    if q :| Recorded(defaults, layers, q) && Dotted("", q) == Dotted("", p) && q != p {
      var i :| 0 <= i < |layers| && Passes(defaults, layers, i, q);
    }
    if i, q :| 0 <= i < |layers| && Passes(defaults, layers, i, q) && Alias(q) == p {
      assert Recorded(defaults, layers, q);
    }
  }

  /** No leaf of the layer is read as a leaf elsewhere: its name reads as itself, or as no readable path. */
  ghost predicate Harmless(l: Layer) {
    forall q | LeafAt(l.tree, q) :: Alias(q) == q || !Readable(Alias(q))
  }

  ghost predicate AllHarmless(layers: seq<Layer>) {
    forall i | 0 <= i < |layers| :: Harmless(layers[i])
  }

  /** Presence reads right at every leaf. */
  ghost predicate ReadsRight(defaults: Tree, layers: seq<Layer>) {
    forall p | LeafAt(Load(defaults, layers).tree, p) ::
      Dotted("", p) in Load(defaults, layers).delivered <==> Origin(layers, p).Some?
  }

  const NOTHING := Map(map[])

  /** Layer `i` delivers `q`, whose name reads as another path that every layer leaves to the defaults. */
  ghost predicate Misnames(layers: seq<Layer>, i: nat, q: seq<string>)
    requires i < |layers|
  {
    && Passes(NOTHING, layers, i, q)
    && Alias(q) != q && Readable(Alias(q))
    && forall j | 0 <= j < |layers| :: Spares(layers[j], Alias(q))
  }

  ghost predicate Misnaming(layers: seq<Layer>) {
    exists i, q :: 0 <= i < |layers| && Misnames(layers, i, q)
  }

  /** The provenance theorem. Unless a layer delivers a leaf under the name of a path left to the defaults, a leaf of
      the final tree reads as delivered exactly when an operator layer supplied its value, whatever the number, order
      and kind of the layers. */
  lemma DeliveredIffOperators(defaults: Tree, layers: seq<Layer>, p: seq<string>)
    requires Rooted(defaults, layers) && Clean(defaults) && LeafAt(Load(defaults, layers).tree, p)
    requires !Misnaming(layers)
    ensures Dotted("", p) in Load(defaults, layers).delivered <==> Origin(layers, p).Some?
  {
    if Origin(layers, p).Some? {
      FinalLeafRecorded(defaults, layers, p);
      DeliveredNames(defaults, layers, Dotted("", p));
    } else {
      DefaultLeafIff(defaults, layers, p);
      CleanPathsAreReadable(defaults, p);
      WronglyDelivered(defaults, layers, p);
      if i, q :| 0 <= i < |layers| && Passes(defaults, layers, i, q) && q != p && Alias(q) == p {
        HoldsMapGrows(NOTHING, defaults, layers[..i], q);
        assert Misnames(layers, i, q);
      }
    }
  }

  lemma HarmlessNeverMisnames(layers: seq<Layer>)
    requires AllHarmless(layers)
    ensures !Misnaming(layers)
  {
    assert forall i | 0 <= i < |layers| :: Harmless(layers[i]);
  }

  /** Exactly which layers can be loaded over any clean defaults without a default ever reading as delivered. */
  lemma ReadsRightIff(layers: seq<Layer>)
    requires forall i | 0 <= i < |layers| :: layers[i].tree.Map?
    ensures (forall defaults: Tree | defaults.Map? && Clean(defaults) :: ReadsRight(defaults, layers)) <==>
            !Misnaming(layers)
  {
    if i, q :| 0 <= i < |layers| && Misnames(layers, i, q) {
      MisnamedDefault(layers, i, q);
    } else {
      forall defaults: Tree | defaults.Map? && Clean(defaults) ensures ReadsRight(defaults, layers) {
        forall p | LeafAt(Load(defaults, layers).tree, p)
          ensures Dotted("", p) in Load(defaults, layers).delivered <==> Origin(layers, p).Some?
        {
          DeliveredIffOperators(defaults, layers, p);
        }
      }
    }
  }

  /** The clean defaults that a misnamed delivery makes read wrong: the one leaf it is read as. */
  lemma MisnamedDefault(layers: seq<Layer>, i: nat, q: seq<string>)
    requires forall j | 0 <= j < |layers| :: layers[j].tree.Map?
    requires i < |layers| && Misnames(layers, i, q)
    ensures exists defaults: Tree :: defaults.Map? && Clean(defaults) && !ReadsRight(defaults, layers)
  {
    var p := Alias(q);
    var defaults := Spine(p, 0);
    SpineLeaf(p, 0);
    SpineIsClean(p, 0);
    DefaultLeafIff(defaults, layers, p);
    assert Passes(defaults, layers, i, q) by {
      if MapAt(defaults, q) {
        SpineMaps(p, 0, q);
        SplitOfDotted(q);
      }
      HoldsMapGrows(defaults, NOTHING, layers[..i], q);
    }
    WronglyDelivered(defaults, layers, p);
    assert !ReadsRight(defaults, layers);
  }

  /** The same for a single layer: one of its leaves reads as a path it leaves to the defaults. */
  ghost predicate MisnamesOne(l: Layer, q: seq<string>) {
    LeafAt(l.tree, q) && Alias(q) != q && Readable(Alias(q)) && Spares(l, Alias(q))
  }

  lemma OneLayerReadsRightIff(l: Layer)
    requires l.tree.Map?
    ensures (forall defaults: Tree | defaults.Map? && Clean(defaults) :: ReadsRight(defaults, [l])) <==>
            !exists q :: MisnamesOne(l, q)
  {
    var layers := [l];
    ReadsRightIff(layers);
    assert layers[..0] == [];
    forall q ensures Misnames(layers, 0, q) <==> MisnamesOne(l, q) {
      assert q != [] ==> !MapAt(NOTHING, q);
    }
  }

  /** The tree with a single leaf, at `p`. */
  function Spine(p: seq<string>, v: int): Tree {
    if p == [] then Scalar(v) else Map(map[p[0] := Spine(p[1..], v)])
  }

  lemma {:induction false} SpineLeaf(p: seq<string>, v: int)
    ensures At(Spine(p, v), p) == Some(Scalar(v))
  {
    if p != [] {
      SpineLeaf(p[1..], v);
    }
  }

  lemma {:induction false} SpineIsClean(p: seq<string>, v: int)
    requires forall i | 0 <= i < |p| :: DotFree(p[i])
    ensures AllKeys(Spine(p, v), k => DotFree(k))
  {
    if p != [] {
      SpineIsClean(p[1..], v);
    }
  }

  lemma {:induction false} SpineMaps(p: seq<string>, v: int, q: seq<string>)
    requires At(Spine(p, v), q).Some?
    ensures q <= p
  {
    if q != [] {
      SpineMaps(p[1..], v, q[1..]);
    }
  }

  // ----- the two failing families

  /** Exactly which single top-level scalars are safe to deliver: those whose key has no dot, or starts with one.
      A quoted YAML key `a.b` makes the default at a, then b, read as delivered. */
  lemma SafeRootKeys(k: string, v: int, g: bool)
    ensures (forall defaults: Tree | defaults.Map? && Clean(defaults) ::
               ReadsRight(defaults, [Layer(Map(map[k := Scalar(v)]), g)]))
            <==> (DotFree(k) || k[0] == '.')
  {
    var l := Layer(Map(map[k := Scalar(v)]), g);
    OneLayerReadsRightIff(l);
    AliasOfKey(k);
    if q :| MisnamesOne(l, q) {
      SingleLeaf(k, v, q);
    }
    if !DotFree(k) && k[0] != '.' {
      assert l.tree.kids[k] == Scalar(v) && LeafAt(l.tree, [k]);
      assert Alias([k])[0] != k;
      assert MisnamesOne(l, [k]);
    }
  }

  lemma SingleLeaf(k: string, v: int, q: seq<string>)
    requires LeafAt(Map(map[k := Scalar(v)]), q)
    ensures q == [k]
  {
    assert q[0] == k && At(Scalar(v), q[1..]).Some?;
  }

  lemma AliasOfKey(k: string)
    ensures Alias([k]) == [k] <==> DotFree(k)
    ensures Readable(Alias([k])) <==> k != "" && k[0] != '.'
    ensures forall i | 0 <= i < |Alias([k])| :: DotFree(Alias([k])[i])
  {
    assert Dotted("", [k]) == Dotted(k, []) == k;
    SplitIsDotFree(k);
    if DotFree(k) {
      SplitDotFree(k);
    }
  }

  /** The path without its leading empty segments. */
  function Stripped(q: seq<string>): (r: seq<string>)
    requires q != []
    ensures r != []
  {
    if q[0] == "" && |q| > 1 then Stripped(q[1..]) else q
  }

  /** Without dots in its keys a path is read as itself less its leading empty segments, which the record drops. */
  lemma {:induction false} AliasOfDotFree(q: seq<string>)
    requires q != [] && forall i | 0 <= i < |q| :: DotFree(q[i])
    ensures Alias(q) == Stripped(q)
  {
    if q[0] == "" && |q| > 1 {
      assert Dotted("", q) == Dotted("", q[1..]);
      AliasOfDotFree(q[1..]);
    } else if q[0] == "" {
      assert q == [""] && Dotted("", q) == Dotted("", []);
    } else {
      SplitOfDotted(q);
    }
  }

  /** An environment layer, whose names are split at every dot, is harmless exactly when no leaf other than an
      all-empty path sits below an empty top-level key: `_` is harmless, `_APP_NAME` is not. */
  lemma DotFreeLayerHarmlessIff(l: Layer)
    requires l.tree.Map? && AllKeys(l.tree, k => DotFree(k))
    ensures Harmless(l) <==> forall q | LeafAt(l.tree, q) :: q[0] == "" ==> Stripped(q) == [""]
  {
    forall q | LeafAt(l.tree, q)
      ensures (Alias(q) == q || !Readable(Alias(q))) <==> (q[0] == "" ==> Stripped(q) == [""])
    {
      PathKeysOk(l.tree, q, k => DotFree(k));
      AliasOfDotFree(q);
      StrippedHead(q);
      assert q[0] != "" ==> Stripped(q) == q;
      assert forall i | 0 <= i < |Stripped(q)| :: Stripped(q)[i] in Stripped(q);
    }
  }

  lemma {:induction false} StrippedHead(q: seq<string>)
    requires q != []
    ensures Stripped(q) == [""] || Stripped(q)[0] != ""
    ensures forall s | s in Stripped(q) :: s in q
  {
    if q[0] == "" && |q| > 1 {
      StrippedHead(q[1..]);
    }
  }

  /** An empty top-level key vanishes from the names composed below it, so whatever it holds reads as the
      delivery of the framework's own keys: `"": {app: {name: x}}` makes the default app.name read delivered. */
  lemma EmptyRootKeyMisreports(defaults: Tree, l: Layer, p: seq<string>)
    requires defaults.Map? && l.tree.Map? && Readable(p) && LeafAt(defaults, p) && Spares(l, p)
    requires LeafAt(l.tree, [""] + p) && !MapAt(defaults, [""] + p)
    ensures LeafAt(Load(defaults, [l]).tree, p) && At(Load(defaults, [l]).tree, p) == At(defaults, p)
    ensures Origin([l], p).None? && Dotted("", p) in Load(defaults, [l]).delivered
  {
    var layers, q := [l], [""] + p;
    assert forall j | 0 <= j < |layers| :: Spares(layers[j], p);
    DefaultLeafIff(defaults, layers, p);
    FinalLeafValue(defaults, layers, p);
    assert q[1..] == p && Dotted("", q) == Dotted("", p);
    SplitOfDotted(p);
    assert layers[..0] == [] && Passes(defaults, layers, 0, q);
    WronglyDelivered(defaults, layers, p);
  }

  // ----- the mutating code

  /** The merge as it runs: `dest` is updated key by key, in whatever order the map yields. */
  method MergeInto(guarded: bool, src: Tree, dest: Tree) returns (out: Tree)
    requires src.Map? && dest.Map?
    ensures out == Merge(guarded, src, dest)
    decreases src
  {
    var kids := dest.kids;
    var todo := src.kids.Keys;
    while todo != {}
      invariant todo <= src.kids.Keys
      invariant kids.Keys == dest.kids.Keys + (src.kids.Keys - todo)
      invariant forall k | k in kids ::
                  kids[k] == if k in todo || k !in src.kids then dest.kids[k] else Merge(guarded, src, dest).kids[k]
      decreases todo
    {
      var key :| key in todo;
      var srcVal := src.kids[key];
      var destIsMap := key in kids && kids[key].Map?;
      if !srcVal.Map? {
        if !(guarded && destIsMap) {
          kids := kids[key := srcVal];
        }
      } else if destIsMap {
        var merged := MergeInto(guarded, srcVal, kids[key]);
        kids := kids[key := merged];
      } else {
        kids := kids[key := srcVal];
      }
      todo := todo - {key};
    }
    assert kids == Merge(guarded, src, dest).kids;
    out := Map(kids);
  }

  /** A loaded tree paired with its presence set. */
  class ConfigStore {
    var tree: Tree
    var delivered: set<string>

    ghost function View(): Source
      reads this
    {
      Source(tree, delivered)
    }

    constructor (defaults: Tree)
      ensures View() == Load(defaults, [])
    {
      tree, delivered := defaults, {};
    }

    /** Merge first, record afterwards, so a dropped scalar is never recorded. */
    method LoadRecording(src: Tree, guarded: bool)
      requires src.Map? && tree.Map?
      modifies this
      ensures View() == LoadLayer(old(View()), Layer(src, guarded))
      ensures tree.Map?
    {
      tree := MergeInto(guarded, src, tree);
      Record(src, tree, "");
    }

    method Record(src: Tree, dest: Tree, prefix: string)
      requires src.Map? && dest.Map?
      modifies this`delivered
      ensures delivered == old(delivered) + RecordNode(src, Some(dest), prefix)
      decreases src
    {
      var todo := src.kids.Keys;
      while todo != {}
        invariant todo <= src.kids.Keys
        invariant delivered == old(delivered) + RecordKeys(src, dest, prefix, src.kids.Keys - todo)
        decreases todo
      {
        var key :| key in todo;
        var path := JoinName(prefix, key);
        var destIsMap := key in dest.kids && dest.kids[key].Map?;
        ghost var done := src.kids.Keys - todo;
        assert RecordKeys(src, dest, prefix, done + {key})
            == RecordKeys(src, dest, prefix, done) + RecordNode(src.kids[key], Child(dest, key), path);
        if src.kids[key].Map? {
          if destIsMap {
            Record(src.kids[key], dest.kids[key], path);
          }
        } else if !destIsMap {
          delivered := delivered + {path};
        }
        todo := todo - {key};
        assert src.kids.Keys - todo == done + {key};
      }
      assert src.kids.Keys - todo == src.kids.Keys;
    }
  }

  ghost function RecordKeys(src: Tree, dest: Tree, prefix: string, keys: set<string>): set<string>
    requires src.Map? && keys <= src.kids.Keys
  {
    set k, q | k in keys && q in RecordNode(src.kids[k], Child(dest, k), JoinName(prefix, k)) :: q
  }
}
