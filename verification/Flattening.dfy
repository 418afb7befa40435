/**
 Flattening nested maps into dotted names, for any rule that tells the nodes a walk stores from the ones it
 descends into. Nothing may be dropped in silence: when a walk succeeds, unflattening gives the tree back.
 */
module Flattening {
  import opened Options
  import opened ConfigTree

  /** A decoded value: a null, a single value, a sequence, a value already of Go type `typ`, or a map. */
  datatype Node = Null | Value(v: string) | Sequence(n: nat) | Typed(typ: string) | Tree(kids: map<string, Node>)

  /** How a walk reads one node: an entry it stores, a namespace it descends into, or a refusal. */
  datatype Reading = Entry(stored: Node) | Namespace | Refused

  type Reader = Node -> Reading

  type Paths = map<seq<string>, Node>

  type Names = map<string, Node>

  /** Only a non-empty map is a namespace. */
  ghost predicate Proper(read: Reader) {
    forall n :: read(n).Namespace? ==> n.Tree? && n.kids != map[]
  }

  /** A key read as one name segment. */
  predicate SegmentOk(key: string) {
    key != "" && DotFree(key)
  }

  /** The trees a walk reads to the end. */
  ghost predicate Accepts(read: Reader, t: Node)
    decreases t, 0
  {
    t.Tree? && forall k | k in t.kids :: SegmentOk(k) && NodeAccepted(read, t.kids[k])
  }

  ghost predicate NodeAccepted(read: Reader, n: Node)
    decreases n, 1
  {
    match read(n)
    case Entry(_) => true
    case Namespace => Accepts(read, n)
    case Refused => false
  }

  // ----- entries by path

  /** The paths of the entries below a namespace. */
  ghost function EntryPaths(read: Reader, t: Node): set<seq<string>>
    decreases t, 0
  {
    if t.Tree? then set k, q | k in t.kids && q in NodePaths(read, t.kids[k]) :: [k] + q else {}
  }

  ghost function NodePaths(read: Reader, n: Node): set<seq<string>>
    decreases n, 1
  {
    match read(n)
    case Entry(_) => {[]}
    case Namespace => EntryPaths(read, n)
    case Refused => {}
  }

  /** What is stored for the entry at `p`. */
  ghost function StoredAt(read: Reader, n: Node, p: seq<string>): Node {
    if p == [] then
      var r := read(n); if r.Entry? then r.stored else n
    else if n.Tree? && p[0] in n.kids then StoredAt(read, n.kids[p[0]], p[1..])
    else Null
  }

  /** The entries of a tree by path of segments. */
  ghost function Flat(read: Reader, t: Node): Paths {
    map p | p in EntryPaths(read, t) :: StoredAt(read, t, p)
  }

  /** The entries at and below one node. */
  ghost function FlatNode(read: Reader, n: Node): Paths {
    map q | q in NodePaths(read, n) :: StoredAt(read, n, q)
  }

  /** The tree with what each entry is stored as. */
  ghost function Normal(read: Reader, t: Node): Node
    requires t.Tree?
    decreases t
  {
    Tree(map k | k in t.kids ::
           match read(t.kids[k])
           case Entry(stored) => stored
           case Namespace => if t.kids[k].Tree? then Normal(read, t.kids[k]) else Null
           case Refused => t.kids[k])
  }

  lemma EntryPathSplits(read: Reader, t: Node, p: seq<string>)
    ensures p in EntryPaths(read, t) <==>
            t.Tree? && p != [] && p[0] in t.kids && p[1..] in NodePaths(read, t.kids[p[0]])
  {
    if p != [] {
      assert p == [p[0]] + p[1..];
    }
  }

  /** Every segment of an entry's path is non-empty and dot-free. */
  lemma {:induction false} EntryPathsReadable(read: Reader, t: Node, p: seq<string>)
    requires Accepts(read, t) && p in EntryPaths(read, t)
    ensures p != [] && forall i | 0 <= i < |p| :: SegmentOk(p[i])
    decreases t
  {
    EntryPathSplits(read, t, p);
    if read(t.kids[p[0]]).Namespace? {
      EntryPathsReadable(read, t.kids[p[0]], p[1..]);
      assert forall i | 0 < i < |p| :: p[i] == p[1..][i - 1];
    }
  }

  /** No entry sits above another. */
  lemma {:induction false} EntryPathsPrefixFree(read: Reader, t: Node, p: seq<string>, q: seq<string>)
    requires t.Tree? && p in EntryPaths(read, t) && q in EntryPaths(read, t) && p <= q
    ensures p == q
    decreases t
  {
    EntryPathSplits(read, t, p);
    EntryPathSplits(read, t, q);
    assert p == [p[0]] + p[1..] && q == [q[0]] + q[1..];
    if read(t.kids[p[0]]).Namespace? {
      EntryPathsPrefixFree(read, t.kids[p[0]], p[1..], q[1..]);
    }
  }

  // ----- the inverse

  ghost function MaxLength(paths: set<seq<string>>): (n: nat)
    ensures forall p | p in paths :: |p| <= n
    ensures paths != {} ==> exists p :: p in paths && |p| == n
  {
    if paths == {} then 0
    else
      var p :| p in paths;
      var rest := MaxLength(paths - {p});
      if |p| < rest then rest else |p|
  }

  ghost function Heads(m: Paths): set<string>
    requires [] !in m
  {
    set p | p in m :: p[0]
  }

  /** The entries below `k`. */
  ghost function Tails(m: Paths, k: string): Paths
    requires [] !in m
    ensures [k] !in m ==> [] !in Tails(m, k)
  {
    assert [k] + [] == [k];
    map q | q in (set p | p in m && p[0] == k :: p[1..]) && [k] + q in m :: m[[k] + q]
  }

  /** Rebuilds the nested tree from flat entries: a path that is an entry is a leaf, every other first
      segment a namespace. */
  ghost function Unflatten(m: Paths): Node
    requires [] !in m
    decreases MaxLength(m.Keys)
  {
    Tree(map k | k in Heads(m) ::
           if [k] in m then m[[k]]
           else (TailsAreShorter(m, k); Unflatten(Tails(m, k))))
  }

  lemma TailsAreShorter(m: Paths, k: string)
    requires [] !in m && k in Heads(m)
    ensures MaxLength(Tails(m, k).Keys) < MaxLength(m.Keys)
  {
    var paths := Tails(m, k).Keys;
    if paths != {} {
      var q :| q in paths && |q| == MaxLength(paths);
      assert [k] + q in m;
    }
  }

  lemma UnflattenAt(m: Paths, k: string)
    requires [] !in m && k in Heads(m)
    ensures k in Unflatten(m).kids
    ensures Unflatten(m).kids[k] == if [k] in m then m[[k]] else Unflatten(Tails(m, k))
  {
  }

  // ----- the round trip on paths

  lemma {:induction false} EntryBelow(read: Reader, t: Node, k: string) returns (q: seq<string>)
    requires Proper(read) && Accepts(read, t) && k in t.kids
    ensures q in NodePaths(read, t.kids[k]) && [k] + q in EntryPaths(read, t)
    decreases t
  {
    if read(t.kids[k]).Entry? {
      q := [];
    } else {
      assert NodeAccepted(read, t.kids[k]);
      var j :| j in t.kids[k].kids;
      q := EntryBelow(read, t.kids[k], j);
      q := [j] + q;
    }
  }

  lemma HeadsOfFlat(read: Reader, t: Node)
    requires Proper(read) && Accepts(read, t)
    ensures [] !in Flat(read, t)
    ensures Heads(Flat(read, t)) == t.kids.Keys
  {
    var m := Flat(read, t);
    EntryPathSplits(read, t, []);
    forall k ensures k in Heads(m) <==> k in t.kids {
      HeadOfFlat(read, t, k);
    }
  }

  lemma HeadOfFlat(read: Reader, t: Node, k: string)
    requires Proper(read) && Accepts(read, t) && [] !in Flat(read, t)
    ensures k in Heads(Flat(read, t)) <==> k in t.kids
  {
    if k in t.kids {
      var q := EntryBelow(read, t, k);
      var p := [k] + q;
      assert p in Flat(read, t) && p[0] == k;
    }
    if k in Heads(Flat(read, t)) {
      var p :| p in Flat(read, t) && p[0] == k;
      EntryPathSplits(read, t, p);
    }
  }

  /** Flattening loses and invents nothing: unflattening gives the tree back. */
  lemma {:induction false} UnflattenOfFlat(read: Reader, t: Node)
    requires Proper(read) && Accepts(read, t)
    ensures [] !in Flat(read, t)
    ensures Unflatten(Flat(read, t)) == Normal(read, t)
    decreases t, 1
  {
    HeadsOfFlat(read, t);
    var u, n := Unflatten(Flat(read, t)), Normal(read, t);
    assert u.kids.Keys == n.kids.Keys;
    forall k | k in t.kids ensures u.kids[k] == n.kids[k] {
      UnflattenKey(read, t, k);
    }
    assert u.kids == n.kids;
  }

  lemma UnflattenKey(read: Reader, t: Node, k: string)
    requires Proper(read) && Accepts(read, t) && k in t.kids
    requires [] !in Flat(read, t) && k in Heads(Flat(read, t))
    ensures Unflatten(Flat(read, t)).kids[k] == Normal(read, t).kids[k]
    decreases t, 0
  {
    SingleSegmentEntry(read, t, k);
    UnflattenAt(Flat(read, t), k);
    if read(t.kids[k]).Namespace? {
      assert NodeAccepted(read, t.kids[k]);
      TailsOfFlat(read, t, k);
      UnflattenOfFlat(read, t.kids[k]);
    }
  }

  lemma SingleSegmentEntry(read: Reader, t: Node, k: string)
    requires Accepts(read, t) && k in t.kids
    ensures read(t.kids[k]).Namespace? ==> [k] !in Flat(read, t)
    ensures !read(t.kids[k]).Namespace? ==> [k] in Flat(read, t) && Flat(read, t)[[k]] == Normal(read, t).kids[k]
  {
    assert NodeAccepted(read, t.kids[k]);
    EntryPathSplits(read, t, [k]);
    assert [k][1..] == [];
    if read(t.kids[k]).Namespace? {
      EntryPathSplits(read, t.kids[k], []);
    } else {
      assert StoredAt(read, t, [k]) == StoredAt(read, t.kids[k], []);
    }
  }

  lemma TailsOfFlat(read: Reader, t: Node, k: string)
    requires t.Tree? && k in t.kids && read(t.kids[k]).Namespace? && [] !in Flat(read, t)
    ensures Tails(Flat(read, t), k) == Flat(read, t.kids[k])
  {
    var m := Flat(read, t);
    forall q ensures q in Tails(m, k) <==> q in EntryPaths(read, t.kids[k]) {
      var p := [k] + q;
      EntryPathSplits(read, t, p);
      assert p[1..] == q;
      assert p in m ==> p[0] == k;
    }
    forall q | q in Tails(m, k) ensures Tails(m, k)[q] == StoredAt(read, t.kids[k], q) {
      assert ([k] + q)[1..] == q;
    }
  }

  // ----- entries by name

  /** Distinct paths get distinct names below `prefix`. */
  ghost predicate NamesDistinct(prefix: string, m: Paths) {
    forall p, q | p in m && q in m && Dotted(prefix, p) == Dotted(prefix, q) :: p == q
  }

  /** `out` holds exactly the entries of `m`, under their names below `prefix`. */
  ghost predicate Naming(prefix: string, m: Paths, out: Names) {
    && (forall p | p in m :: Dotted(prefix, p) in out && out[Dotted(prefix, p)] == m[p])
    && (forall n | n in out :: IsNamed(prefix, m, n))
  }

  ghost predicate IsNamed(prefix: string, m: Paths, n: string) {
    exists p :: p in m && Dotted(prefix, p) == n
  }

  lemma SameNameSamePath(prefix: string, p: seq<string>, q: seq<string>)
    requires Dotted(prefix, p) == Dotted(prefix, q) && (prefix == "" ==> p != [] && q != [])
    requires (forall i | 0 <= i < |p| :: SegmentOk(p[i])) && (forall i | 0 <= i < |q| :: SegmentOk(q[i]))
    ensures p == q
  {
    if prefix == "" {
      SplitOfDotted(p);
      SplitOfDotted(q);
    } else {
      if p != [] {
        DottedBelow(prefix, p);
        SplitOfJoin(p);
      }
      if q != [] {
        DottedBelow(prefix, q);
        SplitOfJoin(q);
      }
      if p != [] && q != [] {
        var n := |prefix| + 1;
        assert Dotted(prefix, p)[n..] == Join(p) && Dotted(prefix, q)[n..] == Join(q);
      }
    }
  }

  lemma FlatNamesDistinct(read: Reader, t: Node, prefix: string)
    requires Accepts(read, t)
    ensures NamesDistinct(prefix, Flat(read, t))
  {
    forall p, q | p in Flat(read, t) && q in Flat(read, t) && Dotted(prefix, p) == Dotted(prefix, q) ensures p == q {
      EntryPathsReadable(read, t, p);
      EntryPathsReadable(read, t, q);
      SameNameSamePath(prefix, p, q);
    }
  }

  /** The reader's view of a flat map: each name split at its dots. */
  ghost function BySegments(out: Names): Paths {
    map p | p in (set n | n in out :: Split(n)) && Dotted("", p) in out :: out[Dotted("", p)]
  }

  lemma BySegmentsOfNaming(read: Reader, t: Node, out: Names)
    requires Accepts(read, t) && Naming("", Flat(read, t), out)
    ensures BySegments(out) == Flat(read, t)
  {
    var m := Flat(read, t);
    forall p | p in m ensures Split(Dotted("", p)) == p && p in BySegments(out) && BySegments(out)[p] == m[p] {
      EntryPathsReadable(read, t, p);
      SplitOfDotted(p);
      assert Dotted("", p) in out;
    }
    forall n | n in out ensures Split(n) in m {
      assert IsNamed("", m, n);
    }
  }

  /** The round trip on names: splitting the names a walk produced and nesting them again is the input tree. */
  lemma NamingRoundTrip(read: Reader, t: Node, out: Names)
    requires Proper(read) && Accepts(read, t) && Naming("", Flat(read, t), out)
    ensures [] !in BySegments(out) && Unflatten(BySegments(out)) == Normal(read, t)
  {
    BySegmentsOfNaming(read, t, out);
    UnflattenOfFlat(read, t);
  }

  lemma {:induction false} SplitOfConcat(a: string, b: string)
    ensures Split(a + "." + b) == Split(a) + Split(b)
  {
    if a == "" {
      assert a + "." + b == "." + b;
    } else {
      assert (a + "." + b)[1..] == a[1..] + "." + b;
      SplitOfConcat(a[1..], b);
    }
  }

  /** Every segment of every name is non-empty and dot-free, and no name is a dotted prefix of another. */
  lemma NamesArePrefixFree(read: Reader, t: Node, out: Names, m: string, rest: string)
    requires Accepts(read, t) && Naming("", Flat(read, t), out) && m in out
    ensures forall i | 0 <= i < |Split(m)| :: SegmentOk(Split(m)[i])
    ensures m + "." + rest !in out
  {
    assert IsNamed("", Flat(read, t), m);
    var p :| p in Flat(read, t) && Dotted("", p) == m;
    EntryPathsReadable(read, t, p);
    SplitOfDotted(p);
    var longer := m + "." + rest;
    if longer in out {
      assert IsNamed("", Flat(read, t), longer);
      var q :| q in Flat(read, t) && Dotted("", q) == longer;
      EntryPathsReadable(read, t, q);
      SplitOfDotted(q);
      SplitOfConcat(m, rest);
      assert Split(rest) != [] && p <= q && p != q;
      EntryPathsPrefixFree(read, t, p, q);
    }
  }

  // ----- how a walk builds the map

  /** `after` is `before` with the entries of `m` added under their names below `prefix`. */
  ghost predicate Adds(prefix: string, m: Paths, before: Names, after: Names) {
    && (forall p | p in m :: Dotted(prefix, p) in after && after[Dotted(prefix, p)] == m[p])
    && (forall n | n in before :: n in after)
    && (forall n | n in after :: IsNamed(prefix, m, n) || (n in before && after[n] == before[n]))
  }

  lemma AddsToEmpty(prefix: string, m: Paths, out: Names)
    requires Adds(prefix, m, map[], out)
    ensures Naming(prefix, m, out)
  {
  }

  /** The part of a tree a walk has read so far. */
  ghost function Part(t: Node, done: set<string>): Node {
    if t.Tree? then Tree(map k | k in t.kids && k in done :: t.kids[k]) else t
  }

  lemma FlatGrows(read: Reader, t: Node, done: set<string>, k: string, p: seq<string>)
    requires t.Tree? && k in t.kids && k !in done
    ensures var a, b, c := Flat(read, Part(t, done)), FlatNode(read, t.kids[k]), Flat(read, Part(t, done + {k}));
            && (p in c <==> p in a || (p != [] && p[0] == k && p[1..] in b))
            && (p in a ==> p in c && c[p] == a[p])
            && (p in c && p !in a ==> c[p] == b[p[1..]])
  {
    EntryPathSplits(read, Part(t, done), p);
    EntryPathSplits(read, Part(t, done + {k}), p);
  }

  /** Adding the entries below one more key extends what the walk has added so far. */
  lemma AddsCompose(read: Reader, t: Node, done: set<string>, k: string, prefix: string, before: Names, mid: Names,
                    after: Names)
    requires t.Tree? && k in t.kids && k !in done
    requires NamesDistinct(prefix, Flat(read, Part(t, done + {k})))
    requires Adds(prefix, Flat(read, Part(t, done)), before, mid)
    requires Adds(JoinName(prefix, k), FlatNode(read, t.kids[k]), mid, after)
    ensures Adds(prefix, Flat(read, Part(t, done + {k})), before, after)
  {
    var a, b, c := Flat(read, Part(t, done)), FlatNode(read, t.kids[k]), Flat(read, Part(t, done + {k}));
    forall p | p in c ensures Dotted(prefix, p) in after && after[Dotted(prefix, p)] == c[p] {
      FlatGrows(read, t, done, k, p);
      if p in a {
        var n := Dotted(prefix, p);
        if IsNamed(JoinName(prefix, k), b, n) {
          var q := BelowKey(read, t, done, k, prefix, n);
          assert p == [k] + q;
        }
      } else {
        assert Dotted(prefix, p) == Dotted(JoinName(prefix, k), p[1..]);
      }
    }
    forall n | n in after ensures IsNamed(prefix, c, n) || (n in before && after[n] == before[n]) {
      if IsNamed(JoinName(prefix, k), b, n) {
        var q := BelowKey(read, t, done, k, prefix, n);
      } else if IsNamed(prefix, a, n) {
        var p :| p in a && Dotted(prefix, p) == n;
        FlatGrows(read, t, done, k, p);
      }
    }
  }

  lemma BelowKey(read: Reader, t: Node, done: set<string>, k: string, prefix: string, n: string)
    returns (q: seq<string>)
    requires t.Tree? && k in t.kids && k !in done && IsNamed(JoinName(prefix, k), FlatNode(read, t.kids[k]), n)
    ensures q in FlatNode(read, t.kids[k]) && [k] + q in Flat(read, Part(t, done + {k}))
    ensures Dotted(prefix, [k] + q) == n && Dotted(JoinName(prefix, k), q) == n
    ensures Flat(read, Part(t, done + {k}))[[k] + q] == FlatNode(read, t.kids[k])[q]
  {
    q :| q in FlatNode(read, t.kids[k]) && Dotted(JoinName(prefix, k), q) == n;
    var p := [k] + q;
    assert p[1..] == q;
    FlatGrows(read, t, done, k, p);
    EntryPathSplits(read, Part(t, done), p);
  }

  /** How far a walk has come: what it has read is acceptable and `now` holds its entries over `out`. */
  ghost predicate Walked(read: Reader, t: Node, prefix: string, out: Names, done: set<string>, now: Names) {
    Accepts(read, Part(t, done)) && Adds(prefix, Flat(read, Part(t, done)), out, now)
  }

  lemma WalkStarts(read: Reader, t: Node, prefix: string, out: Names)
    requires t.Tree?
    ensures Walked(read, t, prefix, out, {}, out)
  {
    assert Part(t, {}).kids == map[];
    assert Flat(read, Part(t, {})) == map[];
  }

  lemma WalkGoesOn(read: Reader, t: Node, prefix: string, out: Names, done: set<string>, now: Names, k: string,
                   after: Names)
    requires t.Tree? && k in t.kids && k !in done && SegmentOk(k) && NodeAccepted(read, t.kids[k])
    requires Walked(read, t, prefix, out, done, now)
    requires Adds(JoinName(prefix, k), FlatNode(read, t.kids[k]), now, after)
    ensures Walked(read, t, prefix, out, done + {k}, after)
  {
    var whole, part := Part(t, done + {k}), Part(t, done);
    forall j | j in whole.kids ensures SegmentOk(j) && NodeAccepted(read, whole.kids[j]) {
      if j != k {
        assert j in part.kids && part.kids[j] == whole.kids[j];
      }
    }
    FlatNamesDistinct(read, whole, prefix);
    AddsCompose(read, t, done, k, prefix, out, now, after);
  }

  /** One key that is no segment, or whose node is refused, refuses the namespace. */
  lemma WalkRefuses(read: Reader, t: Node, k: string)
    requires t.Tree? && k in t.kids && !(SegmentOk(k) && NodeAccepted(read, t.kids[k]))
    ensures !Accepts(read, t)
  {
  }

  lemma WalkEnds(read: Reader, t: Node, prefix: string, out: Names, done: set<string>, now: Names)
    requires t.Tree? && done == t.kids.Keys && Walked(read, t, prefix, out, done, now)
    ensures Accepts(read, t) && Adds(prefix, Flat(read, t), out, now)
  {
    assert Part(t, done).kids == t.kids;
  }

  lemma AddsEntry(read: Reader, n: Node, name: string, out: Names)
    requires read(n).Entry?
    ensures NodeAccepted(read, n) && Adds(name, FlatNode(read, n), out, out[name := read(n).stored])
  {
    assert FlatNode(read, n) == map[[] := read(n).stored];
    assert Dotted(name, []) == name;
    assert IsNamed(name, FlatNode(read, n), name);
  }

  lemma AddsNamespace(read: Reader, n: Node, name: string, out: Names, after: Names)
    requires read(n).Namespace? && Accepts(read, n) && Adds(name, Flat(read, n), out, after)
    ensures NodeAccepted(read, n) && Adds(name, FlatNode(read, n), out, after)
  {
    assert FlatNode(read, n) == Flat(read, n);
  }

  // ----- entries, said of the tree alone

  /** The node at a path of map keys. */
  function NodeAt(n: Node, p: seq<string>): Option<Node> {
    if p == [] then Some(n)
    else if n.Tree? && p[0] in n.kids then NodeAt(n.kids[p[0]], p[1..])
    else None
  }

  /** What an entry's path holds is stored for the node the tree has there. */
  lemma {:induction false} StoredFromNode(read: Reader, t: Node, p: seq<string>)
    requires p in EntryPaths(read, t)
    ensures NodeAt(t, p).Some?
    ensures read(NodeAt(t, p).value) == Entry(StoredAt(read, t, p))
    decreases t, 0
  {
    EntryPathSplits(read, t, p);
    StoredFromChild(read, t.kids[p[0]], p[1..]);
  }

  lemma {:induction false} StoredFromChild(read: Reader, n: Node, q: seq<string>)
    requires q in NodePaths(read, n)
    ensures NodeAt(n, q).Some?
    ensures read(NodeAt(n, q).value) == Entry(StoredAt(read, n, q))
    decreases n, 1
  {
    if read(n).Namespace? {
      StoredFromNode(read, n, q);
    }
  }

  /** The value under a name is stored for the node the tree has at the name's segments. */
  lemma NamedFromNode(read: Reader, t: Node, out: Names, name: string)
    requires Accepts(read, t) && Naming("", Flat(read, t), out) && name in out
    ensures NodeAt(t, Split(name)).Some?
    ensures read(NodeAt(t, Split(name)).value) == Entry(out[name])
  {
    assert IsNamed("", Flat(read, t), name);
    var p :| p in Flat(read, t) && Dotted("", p) == name;
    EntryPathsReadable(read, t, p);
    SplitOfDotted(p);
    StoredFromNode(read, t, p);
  }

  /** No node is left out: an entry lies at, above or below every node of an accepted tree. */
  lemma {:induction false} NothingDropped(read: Reader, t: Node, p: seq<string>) returns (q: seq<string>)
    requires Proper(read) && Accepts(read, t) && p != [] && NodeAt(t, p).Some?
    ensures q in EntryPaths(read, t) && (q <= p || p <= q)
    decreases t
  {
    var k := p[0];
    var child := t.kids[k];
    if read(child).Entry? {
      q := [k];
      assert q == [k] + [] && [] in NodePaths(read, child);
    } else if |p| == 1 {
      var below := EntryBelow(read, t, k);
      q := [k] + below;
    } else {
      var below := NothingDropped(read, child, p[1..]);
      q := [k] + below;
      assert p == [k] + p[1..];
    }
  }
}
