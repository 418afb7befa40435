/** Lexicographic order on strings, and the sorted key walks the configuration code takes over Go maps. */
module Sorting {

  predicate Less(a: string, b: string) {
    b != [] && (a == [] || a[0] < b[0] || (a[0] == b[0] && Less(a[1..], b[1..])))
  }

  predicate StrictlySorted(s: seq<string>) {
    forall i, j | 0 <= i < j < |s| :: Less(s[i], s[j])
  }

  predicate Distinct(s: seq<string>) {
    forall i, j | 0 <= i < j < |s| :: s[i] != s[j]
  }

  lemma {:induction false} LessTransitive(a: string, b: string, c: string)
    requires Less(a, b) && Less(b, c)
    ensures Less(a, c)
  {
    if a != [] && a[0] == b[0] && b[0] == c[0] {
      LessTransitive(a[1..], b[1..], c[1..]);
    }
  }

  lemma {:induction false} LessTotal(a: string, b: string)
    ensures a == b || Less(a, b) || Less(b, a)
  {
    if a != [] && b != [] && a[0] == b[0] {
      LessTotal(a[1..], b[1..]);
      assert a == [a[0]] + a[1..] && b == [b[0]] + b[1..];
    }
  }

  /** The position at which `x` keeps `s` strictly sorted. */
  method Position(s: seq<string>, x: string) returns (i: nat)
    requires StrictlySorted(s) && x !in s
    ensures i <= |s|
    ensures forall j | 0 <= j < i :: Less(s[j], x)
    ensures forall j | i <= j < |s| :: Less(x, s[j])
  {
    i := 0;
    while i < |s| && Less(s[i], x)
      invariant i <= |s|
      invariant forall j | 0 <= j < i :: Less(s[j], x)
    {
      i := i + 1;
    }
    if i < |s| {
      LessTotal(s[i], x);
      forall j | i < j < |s| ensures Less(x, s[j]) {
        LessTransitive(x, s[i], s[j]);
      }
    }
  }

  /** `slices.Sorted(maps.Keys(m))`. */
  method SortedKeys(keys: set<string>) returns (s: seq<string>)
    ensures StrictlySorted(s) && Distinct(s)
    ensures forall k :: k in s <==> k in keys
  {
    s := [];
    var todo := keys;
    while todo != {}
      invariant todo <= keys && StrictlySorted(s) && Distinct(s)
      invariant forall k :: k in s <==> k in keys && k !in todo
      decreases todo
    {
      var k :| k in todo;
      var i := Position(s, k);
      s := s[..i] + [k] + s[i..];
      todo := todo - {k};
    }
  }
}
