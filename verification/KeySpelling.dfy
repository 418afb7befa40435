/**
 Key spelling. Keys are matched by case folding, so the loader refuses a tree in which two sibling keys fold to
 one, or in which a framework section is spelled other than as its name.

 `fold` maps a rune to the representative of its case-fold orbit; nothing is assumed of it beyond leaving the
 lowercase ASCII letters alone where the framework's section names are concerned.
 */
module KeySpelling {
  import opened Options
  import opened ConfigTree
  import opened Sorting

  type Fold = char -> char

  /** `strings.EqualFold`. */
  predicate SameSegment(fold: Fold, a: string, b: string) {
    |a| == |b| && forall i | 0 <= i < |a| :: fold(a[i]) == fold(b[i])
  }

  /** A key with every rune folded. */
  function Folded(fold: Fold, s: string): string {
    seq(|s|, i requires 0 <= i < |s| => fold(s[i]))
  }

  /** Two segments are the same exactly when they fold to one string; so this is an equivalence. */
  lemma SameSegmentIff(fold: Fold, a: string, b: string)
    ensures SameSegment(fold, a, b) <==> Folded(fold, a) == Folded(fold, b)
  {
    if Folded(fold, a) == Folded(fold, b) {
      forall i | 0 <= i < |a| ensures |a| == |b| && fold(a[i]) == fold(b[i]) {
        assert Folded(fold, a)[i] == Folded(fold, b)[i];
      }
      assert |Folded(fold, a)| == |Folded(fold, b)|;
    }
  }

  /** The keys that fold with `rep`, in the given order. */
  function ClassOf(fold: Fold, keys: seq<string>, rep: string): seq<string> {
    if keys == [] then []
    else
      var last := keys[|keys| - 1];
      ClassOf(fold, keys[..|keys| - 1], rep) + (if SameSegment(fold, rep, last) then [last] else [])
  }

  /** `groups` are the equivalence classes of the fold on `keys`, each complete and in order. */
  ghost predicate Classes(fold: Fold, keys: seq<string>, groups: seq<seq<string>>) {
    && (forall g | 0 <= g < |groups| :: groups[g] != [] && groups[g] == ClassOf(fold, keys, groups[g][0]))
    && (forall g, h | 0 <= g < h < |groups| && groups[g] != [] && groups[h] != [] ::
          !SameSegment(fold, groups[g][0], groups[h][0]))
    && (forall k | k in keys :: Grouped(groups, k))
  }

  ghost predicate Grouped(groups: seq<seq<string>>, k: string) {
    exists g :: 0 <= g < |groups| && k in groups[g]
  }

  lemma {:induction false} ClassMembers(fold: Fold, keys: seq<string>, rep: string, k: string)
    ensures k in ClassOf(fold, keys, rep) <==> k in keys && SameSegment(fold, rep, k)
  {
    if keys != [] {
      ClassMembers(fold, keys[..|keys| - 1], rep, k);
      assert keys == keys[..|keys| - 1] + [keys[|keys| - 1]];
    }
  }

  method FoldGroups(fold: Fold, keys: seq<string>) returns (groups: seq<seq<string>>)
    ensures Classes(fold, keys, groups)
  {
    groups := [];
    for n := 0 to |keys|
      invariant Classes(fold, keys[..n], groups)
    {
      var key := keys[n];
      ghost var before := groups;
      assert keys[..n + 1][..n] == keys[..n];
      var i := 0;
      while i < |groups| && !SameSegment(fold, groups[i][0], key)
        invariant i <= |groups|
        invariant forall g | 0 <= g < i :: !SameSegment(fold, groups[g][0], key)
      {
        i := i + 1;
      }
      if i == |groups| {
        groups := groups + [[key]];
        NewClass(fold, keys, n, before);
      } else {
        groups := groups[i := groups[i] + [key]];
      }
      forall k | k in keys[..n + 1] ensures Grouped(groups, k) {
        if k in keys[..n] {
          assert Grouped(before, k);
          var g :| 0 <= g < |before| && k in before[g];
          assert k in groups[g];
        } else {
          assert key in groups[i];
        }
      }
    }
    assert keys[..|keys|] == keys;
  }

  lemma NewClass(fold: Fold, keys: seq<string>, n: nat, groups: seq<seq<string>>)
    requires n < |keys| && Classes(fold, keys[..n], groups)
    requires forall g | 0 <= g < |groups| :: !SameSegment(fold, groups[g][0], keys[n])
    ensures ClassOf(fold, keys[..n + 1], keys[n]) == [keys[n]]
  {
    var key := keys[n];
    assert keys[..n + 1][..n] == keys[..n];
    if ClassOf(fold, keys[..n], key) != [] {
      var k := ClassOf(fold, keys[..n], key)[0];
      ClassMembers(fold, keys[..n], key, k);
      assert Grouped(groups, k);
      var g :| 0 <= g < |groups| && k in groups[g];
      ClassMembers(fold, keys[..n], groups[g][0], k);
      assert SameSegment(fold, groups[g][0], key);
    }
  }

  // ----- case twins

  /** No map node anywhere in the tree, inside sequences included, holds two keys that fold to one. */
  ghost predicate NoTwins(fold: Fold, t: Tree) {
    match t
    case Scalar(_) => true
    case List(items) => forall i | 0 <= i < |items| :: NoTwins(fold, items[i])
    case Map(kids) => NoTwinKeys(fold, kids.Keys) && forall k | k in kids :: NoTwins(fold, kids[k])
  }

  ghost predicate NoTwinKeys(fold: Fold, keys: set<string>) {
    forall a, b | a in keys && b in keys && a != b :: !SameSegment(fold, a, b)
  }

  /** The framework section a key folds to. */
  function SectionNamed(fold: Fold, sections: seq<string>, key: string): (r: Option<string>)
    ensures r.Some? ==> r.value in sections && SameSegment(fold, key, r.value)
    ensures r.None? ==> forall s | s in sections :: !SameSegment(fold, key, s)
  {
    if sections == [] then None
    else if SameSegment(fold, key, sections[0]) then Some(sections[0])
    else SectionNamed(fold, sections[1..], key)
  }

  /** Section names never fold to each other. */
  ghost predicate FoldDistinct(fold: Fold, sections: seq<string>) {
    forall s, t | s in sections && t in sections && SameSegment(fold, s, t) :: s == t
  }

  /** Every root key that folds to a section is spelled as it. */
  ghost predicate SectionsSpelled(fold: Fold, sections: seq<string>, keys: set<string>) {
    forall k, s | k in keys && s in sections && SameSegment(fold, k, s) :: k == s
  }

  /** At the root, a twin group that folds to a section is left to `MisspelledSections`. */
  ghost predicate NoTwinsReported(fold: Fold, sections: seq<string>, t: Tree, root: bool) {
    if !root || !t.Map? then NoTwins(fold, t)
    else
      && (forall a, b | a in t.kids && b in t.kids && a != b && SameSegment(fold, a, b) ::
            exists s :: s in sections && SameSegment(fold, a, s))
      && (forall k | k in t.kids :: NoTwins(fold, t.kids[k]))
  }

  /** The reported groups, depth first in sorted key order. */
  method CaseTwins(fold: Fold, sections: seq<string>, t: Tree, root: bool) returns (errs: seq<seq<string>>)
    ensures errs == [] <==> NoTwinsReported(fold, sections, t, root)
    decreases t
  {
    errs := [];
    match t {
      case Scalar(_) =>
      case List(items) =>
        for i := 0 to |items|
          invariant errs == [] <==> forall j | 0 <= j < i :: NoTwins(fold, items[j])
        {
          var below := CaseTwins(fold, sections, items[i], false);
          errs := errs + below;
        }
      case Map(kids) =>
        var keys := SortedKeys(kids.Keys);
        errs := TwinGroups(fold, sections, keys, root);
        ghost var here := errs;
        for i := 0 to |keys|
          invariant errs == [] <==> here == [] && forall j | 0 <= j < i :: NoTwins(fold, kids[keys[j]])
        {
          var below := CaseTwins(fold, sections, kids[keys[i]], false);
          errs := errs + below;
        }
        assert forall k :: k in kids <==> k in keys;
    }
  }

  method TwinGroups(fold: Fold, sections: seq<string>, keys: seq<string>, root: bool) returns (errs: seq<seq<string>>)
    requires Distinct(keys)
    ensures errs == [] <==>
            forall a, b | a in keys && b in keys && a != b && SameSegment(fold, a, b) ::
              root && exists s :: s in sections && SameSegment(fold, a, s)
    ensures forall e | e in errs :: |e| > 1 && e == ClassOf(fold, keys, e[0])
  {
    errs := [];
    var groups := FoldGroups(fold, keys);
    for g := 0 to |groups|
      invariant errs == [] <==> forall h | 0 <= h < g :: Quiet(fold, sections, groups[h], root)
      invariant forall e | e in errs :: |e| > 1 && e == ClassOf(fold, keys, e[0])
    {
      if |groups[g]| > 1 && (!root || SectionNamed(fold, sections, groups[g][0]).None?) {
        errs := errs + [groups[g]];
      }
    }
    QuietMeans(fold, sections, keys, groups, root);
  }

  ghost predicate Quiet(fold: Fold, sections: seq<string>, group: seq<string>, root: bool) {
    |group| <= 1 || (root && SectionNamed(fold, sections, group[0]).Some?)
  }

  lemma QuietMeans(fold: Fold, sections: seq<string>, keys: seq<string>, groups: seq<seq<string>>, root: bool)
    requires Distinct(keys) && Classes(fold, keys, groups)
    ensures (forall g | 0 <= g < |groups| :: Quiet(fold, sections, groups[g], root)) <==>
            forall a, b | a in keys && b in keys && a != b && SameSegment(fold, a, b) ::
              root && exists s :: s in sections && SameSegment(fold, a, s)
  {
    if forall g | 0 <= g < |groups| :: Quiet(fold, sections, groups[g], root) {
      forall a, b | a in keys && b in keys && a != b && SameSegment(fold, a, b)
        ensures root && exists s :: s in sections && SameSegment(fold, a, s)
      {
        assert Grouped(groups, a);
        var g :| 0 <= g < |groups| && a in groups[g];
        ClassMembers(fold, keys, groups[g][0], a);
        ClassMembers(fold, keys, groups[g][0], b);
        assert a in groups[g] && b in groups[g];
        assert Quiet(fold, sections, groups[g], root);
        var s := SectionNamed(fold, sections, groups[g][0]).value;
        assert SameSegment(fold, a, s);
      }
    } else {
      var g :| 0 <= g < |groups| && !Quiet(fold, sections, groups[g], root);
      var a, b := groups[g][0], groups[g][1];
      ClassIsDistinct(fold, keys, a);
      ClassMembers(fold, keys, a, a);
      ClassMembers(fold, keys, a, b);
      assert a != b && SameSegment(fold, a, b);
    }
  }

  lemma {:induction false} ClassIsDistinct(fold: Fold, keys: seq<string>, rep: string)
    requires Distinct(keys)
    ensures Distinct(ClassOf(fold, keys, rep))
  {
    if keys != [] {
      var front := keys[..|keys| - 1];
      ClassIsDistinct(fold, front, rep);
      var members := ClassOf(fold, front, rep);
      forall i | 0 <= i < |members| ensures members[i] != keys[|keys| - 1] {
        ClassMembers(fold, front, rep, members[i]);
      }
    }
  }

  /** The framework sections that a root key folds to without being spelled as them. */
  method MisspelledSections(fold: Fold, sections: seq<string>, keys: set<string>)
    returns (wrong: map<string, set<string>>)
    requires FoldDistinct(fold, sections)
    ensures wrong == map[] <==> SectionsSpelled(fold, sections, keys)
    ensures forall s, k ::
              s in wrong && k in wrong[s] <==> s in sections && k in keys && k != s && SameSegment(fold, k, s)
  {
    wrong := map[];
    var todo := keys;
    while todo != {}
      invariant todo <= keys
      invariant forall s | s in wrong :: wrong[s] != {}
      invariant forall s, k :: s in wrong && k in wrong[s] <==>
                               s in sections && k in keys && k !in todo && k != s && SameSegment(fold, k, s)
      decreases todo
    {
      var key :| key in todo;
      var section := SectionNamed(fold, sections, key);
      if section.Some? && key != section.value {
        var s := section.value;
        wrong := wrong[s := (if s in wrong then wrong[s] else {}) + {key}];
      }
      todo := todo - {key};
    }
  }

  /** The verdict of `checkKeySpelling`: accepted exactly when no node holds case twins and no root key
      misspells a section. */
  method CheckKeySpelling(fold: Fold, sections: seq<string>, root: Tree) returns (ok: bool)
    requires root.Map? && FoldDistinct(fold, sections)
    ensures ok <==> NoTwins(fold, root) && SectionsSpelled(fold, sections, root.kids.Keys)
  {
    var wrong := MisspelledSections(fold, sections, root.kids.Keys);
    var twins := CaseTwins(fold, sections, root, true);
    ok := wrong == map[] && twins == [];
    if ok {
      forall a, b | a in root.kids && b in root.kids && a != b ensures !SameSegment(fold, a, b) {
        if SameSegment(fold, a, b) {
          var s :| s in sections && SameSegment(fold, a, s);
          assert SameSegment(fold, b, s);
        }
      }
    }
  }

  const CONFIG_SECTIONS := ["app", "server", "database", "databases", "cache", "log", "messaging", "multitenant",
                            "debug", "source", "scheduler", "outbox", "inbox", "keystore", "auth", "observability"]

  predicate Lowercase(s: string) {
    forall i | 0 <= i < |s| :: 'a' <= s[i] <= 'z'
  }

  /** The framework's own section names are fold-distinct under every fold that fixes lowercase ASCII. */
  lemma SectionsAreFoldDistinct(fold: Fold)
    requires forall c | 'a' <= c <= 'z' :: fold(c) == c
    ensures FoldDistinct(fold, CONFIG_SECTIONS)
  {
    forall s | s in CONFIG_SECTIONS ensures Lowercase(s) {}
  }
}
