/** Inclusive runs of addresses: sorting them and sweeping them for a gap. */
module AddressSpans {

  datatype Span = Span(lo: nat, hi: nat)

  ghost predicate Hit(spans: seq<Span>, a: nat) {
    exists i :: 0 <= i < |spans| && spans[i].lo <= a <= spans[i].hi
  }

  ghost predicate SortedByLo(s: seq<Span>) {
    forall i, j | 0 <= i < j < |s| :: s[i].lo <= s[j].lo
  }

  lemma OneMoreSpan(spans: seq<Span>, s: Span, a: nat)
    ensures Hit(spans + [s], a) <==> Hit(spans, a) || s.lo <= a <= s.hi
  {
    var more := spans + [s];
    assert more[|spans|] == s;
    assert forall i | 0 <= i < |spans| :: more[i] == spans[i];
  }

  lemma PermutedHit(s: seq<Span>, t: seq<Span>, a: nat)
    requires multiset(s) == multiset(t)
    ensures Hit(s, a) <==> Hit(t, a)
  {
    if i :| 0 <= i < |s| && s[i].lo <= a <= s[i].hi {
      assert s[i] in multiset(t);
    }
    if i :| 0 <= i < |t| && t[i].lo <= a <= t[i].hi {
      assert t[i] in multiset(s);
    }
  }

  method SortByLo(spans: seq<Span>) returns (s: seq<Span>)
    ensures SortedByLo(s) && multiset(s) == multiset(spans)
  {
    s := [];
    for n := 0 to |spans|
      invariant SortedByLo(s) && multiset(s) == multiset(spans[..n])
    {
      assert spans[..n + 1] == spans[..n] + [spans[n]];
      s := Insert(s, spans[n]);
    }
    assert spans[..|spans|] == spans;
  }

  method Insert(s: seq<Span>, x: Span) returns (r: seq<Span>)
    requires SortedByLo(s)
    ensures SortedByLo(r) && multiset(r) == multiset(s) + multiset{x}
  {
    var i := 0;
    while i < |s| && s[i].lo <= x.lo
      invariant i <= |s| && forall j | 0 <= j < i :: s[j].lo <= x.lo
    {
      i := i + 1;
    }
    r := s[..i] + [x] + s[i..];
    InsertedIsSorted(s, x, i);
    assert s == s[..i] + s[i..];
  }

  lemma InsertedIsSorted(s: seq<Span>, x: Span, i: nat)
    requires SortedByLo(s) && i <= |s| && forall j | 0 <= j < i :: s[j].lo <= x.lo
    requires i < |s| ==> x.lo <= s[i].lo
    ensures SortedByLo(s[..i] + [x] + s[i..])
  {
    var r := s[..i] + [x] + s[i..];
    assert forall j | 0 <= j < |r| :: r[j] == if j < i then s[j] else if j == i then x else s[j - 1];
  }

  /** Whether sorted spans run from zero to `top` without a gap. `reach` is the running maximum, so a span
      nested inside an earlier one never pulls it back. */
  method Sweep(s: seq<Span>, top: nat) returns (covers: bool)
    requires s != [] && SortedByLo(s) && forall i | 0 <= i < |s| :: s[i].lo <= s[i].hi <= top
    ensures covers <==> forall a: nat | a <= top :: Hit(s, a)
  {
    if s[0].lo != 0 {
      assert !Hit(s, 0);
      return false;
    }
    var reach := s[0].hi;
    for n := 1 to |s|
      invariant reach <= top
      invariant forall i | 0 <= i < n :: s[i].hi <= reach
      invariant forall a: nat | a <= reach :: Hit(s, a)
    {
      if s[n].lo > reach + 1 {
        assert !Hit(s, reach + 1);
        return false;
      }
      reach := if s[n].hi > reach then s[n].hi else reach;
    }
    covers := reach == top;
    if !covers {
      assert !Hit(s, reach + 1);
    }
  }
}
