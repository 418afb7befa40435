/** Configuration trees as koanf holds them, and the dotted names that address their nodes. */
module ConfigTree {
  import opened Options

  /** A YAML value: anything that is not a map is a leaf to the merge, sequences included. */
  datatype Tree = Scalar(v: int) | List(items: seq<Tree>) | Map(kids: map<string, Tree>)

  /** The node at a path of map keys. */
  function At(t: Tree, p: seq<string>): Option<Tree> {
    if p == [] then Some(t)
    else if t.Map? && p[0] in t.kids then At(t.kids[p[0]], p[1..])
    else None
  }

  predicate LeafAt(t: Tree, p: seq<string>) {
    At(t, p).Some? && !At(t, p).value.Map?
  }

  predicate MapAt(t: Tree, p: seq<string>) {
    At(t, p).Some? && At(t, p).value.Map?
  }

  /** Every key of every map node satisfies `ok`; a sequence holds nodes of its own, but no path enters it. */
  ghost predicate AllKeys(t: Tree, ok: string -> bool) {
    t.Map? ==> forall k | k in t.kids :: ok(k) && AllKeys(t.kids[k], ok)
  }

  // ----- dotted names

  predicate DotFree(s: string) {
    '.' !in s
  }

  /** `joinName`, and the path composition of `record`: an empty prefix adds no dot. */
  function JoinName(prefix: string, segment: string): string {
    if prefix == "" then segment else prefix + "." + segment
  }

  /** The name a walk composes for path `p`, one `JoinName` per segment. */
  function Dotted(prefix: string, p: seq<string>): string
    decreases |p|
  {
    if p == [] then prefix else Dotted(JoinName(prefix, p[0]), p[1..])
  }

  /** `strings.Split`, on the dot unless told otherwise. */
  function Split(s: string, sep: char := '.'): (r: seq<string>)
    ensures r != []
  {
    if s == "" then [""]
    else if s[0] == sep then [""] + Split(s[1..], sep)
    else var r := Split(s[1..], sep); [[s[0]] + r[0]] + r[1..]
  }

  /** A path whose dotted name can be read back: dot-free segments under a non-empty first one. */
  predicate Readable(p: seq<string>) {
    p != [] && p[0] != "" && forall i | 0 <= i < |p| :: DotFree(p[i])
  }

  lemma {:induction false} SplitAtDot(a: string, b: string)
    requires DotFree(a)
    ensures Split(a + "." + b) == [a] + Split(b)
  {
    if a == "" {
      assert (a + "." + b)[1..] == b;
    } else {
      assert (a + "." + b)[1..] == a[1..] + "." + b;
      assert a == [a[0]] + a[1..];
      SplitAtDot(a[1..], b);
    }
  }

  lemma {:induction false} SplitDotFree(a: string)
    requires DotFree(a)
    ensures Split(a) == [a]
  {
    if a != "" {
      assert a == [a[0]] + a[1..];
      SplitDotFree(a[1..]);
    }
  }

  /** Segments joined by dots, whatever the segments are. */
  function Join(p: seq<string>): string
    requires p != []
    decreases |p|
  {
    if |p| == 1 then p[0] else p[0] + "." + Join(p[1..])
  }

  lemma {:induction false} DottedBelow(prefix: string, p: seq<string>)
    requires prefix != "" && p != []
    ensures Dotted(prefix, p) == prefix + "." + Join(p)
    decreases |p|
  {
    if |p| > 1 {
      DottedBelow(JoinName(prefix, p[0]), p[1..]);
    }
  }

  lemma {:induction false} SplitOfJoin(p: seq<string>)
    requires p != [] && forall i | 0 <= i < |p| :: DotFree(p[i])
    ensures Split(Join(p)) == p
    decreases |p|
  {
    if |p| == 1 {
      SplitDotFree(p[0]);
    } else {
      SplitOfJoin(p[1..]);
      SplitAtDot(p[0], Join(p[1..]));
    }
  }

  /** A readable path's name splits back into it, so readable paths never share a name. */
  lemma SplitOfDotted(p: seq<string>)
    requires Readable(p)
    ensures Split(Dotted("", p)) == p
  {
    if |p| > 1 {
      DottedBelow(p[0], p[1..]);
    }
    assert Dotted("", p) == Join(p);
    SplitOfJoin(p);
  }

  lemma {:induction false} JoinOfSplit(s: string)
    ensures Join(Split(s)) == s
  {
    if s != "" {
      var r := Split(s[1..]);
      JoinOfSplit(s[1..]);
      assert s == [s[0]] + s[1..];
      if s[0] == '.' {
        assert ([""] + r)[1..] == r;
      } else {
        assert ([[s[0]] + r[0]] + r[1..])[1..] == r[1..];
      }
    }
  }

  /** Reading a name and composing it again gives the name back, unless it starts with a dot. */
  lemma DottedOfSplit(s: string)
    requires s == "" || s[0] != '.'
    ensures Dotted("", Split(s)) == s
  {
    JoinOfSplit(s);
    var p := Split(s);
    if |p| > 1 {
      assert p[0] != "";
      DottedBelow(p[0], p[1..]);
    }
  }

  lemma {:induction false} SplitIsDotFree(s: string)
    ensures forall i | 0 <= i < |Split(s)| :: DotFree(Split(s)[i])
  {
    if s != "" {
      SplitIsDotFree(s[1..]);
    }
  }

  /** Every path of a tree with clean keys is readable. */
  ghost predicate Clean(t: Tree) {
    && AllKeys(t, k => DotFree(k))
    && (t.Map? ==> "" !in t.kids)
  }

  lemma {:induction false} PathKeysOk(t: Tree, p: seq<string>, ok: string -> bool)
    requires AllKeys(t, ok) && At(t, p).Some?
    ensures forall i | 0 <= i < |p| :: ok(p[i])
    decreases |p|
  {
    if p != [] {
      PathKeysOk(t.kids[p[0]], p[1..], ok);
      forall i | 0 <= i < |p| ensures ok(p[i]) {
        if i > 0 {
          assert p[i] == p[1..][i - 1];
        }
      }
    }
  }

  lemma CleanPathsAreReadable(t: Tree, p: seq<string>)
    requires Clean(t) && p != [] && At(t, p).Some?
    ensures Readable(p)
  {
    PathKeysOk(t, p, k => DotFree(k));
  }
}
