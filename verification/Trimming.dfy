/** Cutting leading and trailing characters of a class off a string. */
module Trimming {

  type Class = char -> bool

  function TrimLeft(s: string, cut: Class): (r: string)
    ensures |r| <= |s|
  {
    if s != "" && cut(s[0]) then TrimLeft(s[1..], cut) else s
  }

  function TrimRight(s: string, cut: Class): string {
    if s != "" && cut(s[|s| - 1]) then TrimRight(s[..|s| - 1], cut) else s
  }

  function Trim(s: string, cut: Class): string {
    TrimRight(TrimLeft(s, cut), cut)
  }

  lemma {:induction false} TrimLeftHead(s: string, cut: Class)
    ensures TrimLeft(s, cut) == "" || !cut(TrimLeft(s, cut)[0])
  {
    if s != "" && cut(s[0]) {
      TrimLeftHead(s[1..], cut);
    }
  }

  lemma {:induction false} TrimRightEnds(s: string, cut: Class)
    ensures TrimRight(s, cut) <= s
    ensures TrimRight(s, cut) == "" || !cut(TrimRight(s, cut)[|TrimRight(s, cut)| - 1])
  {
    if s != "" && cut(s[|s| - 1]) {
      TrimRightEnds(s[..|s| - 1], cut);
    }
  }

  lemma TrimIsIdempotent(s: string, cut: Class)
    ensures Trim(Trim(s, cut), cut) == Trim(s, cut)
  {
    TrimLeftHead(s, cut);
    TrimRightEnds(TrimLeft(s, cut), cut);
  }

  lemma {:induction false} TrimLeftKeeps(s: string, cut: Class)
    ensures TrimLeft(s, cut) == s[|s| - |TrimLeft(s, cut)|..]
  {
    if s != "" && cut(s[0]) {
      TrimLeftKeeps(s[1..], cut);
    }
  }

  lemma {:induction false} TrimLeftSkips(lead: string, s: string, cut: Class)
    requires forall i | 0 <= i < |lead| :: cut(lead[i])
    ensures TrimLeft(lead + s, cut) == TrimLeft(s, cut)
  {
    if lead == "" {
      assert lead + s == s;
    } else {
      assert (lead + s)[1..] == lead[1..] + s;
      TrimLeftSkips(lead[1..], s, cut);
    }
  }

  /** What ends in a character that is kept is kept whole. */
  lemma {:induction false} TrimRightKeepsHead(head: string, rest: string, cut: Class)
    requires head != "" && !cut(head[|head| - 1])
    ensures head <= TrimRight(head + rest, cut)
  {
    var s := head + rest;
    if rest == "" {
      assert s == head;
    } else {
      assert s[..|s| - 1] == head + rest[..|rest| - 1];
      TrimRightKeepsHead(head, rest[..|rest| - 1], cut);
    }
  }
}
