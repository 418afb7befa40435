/** The challenge realm: an operator-supplied issuer rendered as the body of an HTTP quoted-string. */
module Realm {
  import opened Octets
  import opened Options

  const QUOTE: Byte := 0x22
  const BACKSLASH: Byte := 0x5C

  predicate IsControl(b: Byte) {
    b < 0x20 || b == 0x7F
  }

  /** What the realm should say: the issuer without its control bytes. */
  function Printable(s: seq<Byte>): seq<Byte> {
    if s == [] then [] else (if s[0] < 0x20 || s[0] == 0x7F then [] else [s[0]]) + Printable(s[1..])
  }

  function Escaped(b: Byte): seq<Byte> {
    if IsControl(b) then [] else if b == QUOTE || b == BACKSLASH then [BACKSLASH, b] else [b]
  }

  function Sanitized(s: seq<Byte>): seq<Byte> {
    if s == [] then [] else Sanitized(s[..|s| - 1]) + Escaped(s[|s| - 1])
  }

  method SanitizeRealm(issuer: seq<Byte>) returns (out: seq<Byte>)
    ensures out == Sanitized(issuer)
    ensures ReadQuoted([QUOTE] + out + [QUOTE]) == Some(Quoted(Printable(issuer), []))
  {
    out := [];
    for i := 0 to |issuer|
      invariant out == Sanitized(issuer[..i])
    {
      var ch := issuer[i];
      if ch < 0x20 || ch == 0x7F {
      } else if ch == QUOTE || ch == BACKSLASH {
        out := out + [BACKSLASH, ch];
      } else {
        out := out + [ch];
      }
      assert issuer[..i + 1][..i] == issuer[..i];
    }
    assert issuer[..|issuer|] == issuer;
    RealmReadsBack(issuer, []);
    assert [QUOTE] + out + [QUOTE] + [] == [QUOTE] + out + [QUOTE];
  }

  // ----- the reader of section 5.6.4 of RFC 9110

  datatype Quoted = Quoted(content: seq<Byte>, rest: seq<Byte>)

  predicate IsVisible(b: Byte) {
    b == 0x09 || 0x20 <= b < 0x7F || 0x80 <= b
  }

  /** The body of a quoted-string: quoted text and quoted pairs up to the closing quote; None when it never
      closes or holds a byte the grammar does not allow. */
  function ReadBody(s: seq<Byte>): Option<Quoted>
    decreases |s|
  {
    if s == [] || !IsVisible(s[0]) then None
    else if s[0] == QUOTE then Some(Quoted([], s[1..]))
    else if s[0] == BACKSLASH then
      if |s| == 1 || !IsVisible(s[1]) then None else Cons(s[1], ReadBody(s[2..]))
    else Cons(s[0], ReadBody(s[1..]))
  }

  function Cons(b: Byte, q: Option<Quoted>): Option<Quoted> {
    if q.Some? then Some(Quoted([b] + q.value.content, q.value.rest)) else None
  }

  function ReadQuoted(s: seq<Byte>): Option<Quoted> {
    if s != [] && s[0] == QUOTE then ReadBody(s[1..]) else None
  }

  lemma {:induction false} SanitizedSplits(b: Byte, s: seq<Byte>)
    ensures Sanitized([b] + s) == Escaped(b) + Sanitized(s)
  {
    if s == [] {
      assert [b] + s == [] + [b];
      SanitizedAppend([], b);
    } else {
      var front, last := s[..|s| - 1], s[|s| - 1];
      assert s == front + [last] && [b] + s == ([b] + front) + [last];
      SanitizedAppend([b] + front, last);
      SanitizedAppend(front, last);
      SanitizedSplits(b, front);
    }
  }

  lemma SanitizedAppend(s: seq<Byte>, b: Byte)
    ensures Sanitized(s + [b]) == Sanitized(s) + Escaped(b)
  {
    assert (s + [b])[..|s|] == s;
  }

  lemma QuoteEnds(rest: seq<Byte>)
    ensures ReadBody([QUOTE] + rest) == Some(Quoted([], rest))
  {
    assert ([QUOTE] + rest)[1..] == rest;
  }

  lemma PrintableSplits(b: Byte, s: seq<Byte>)
    ensures Printable([b] + s) == if IsControl(b) then Printable(s) else [b] + Printable(s)
  {
    assert ([b] + s)[1..] == s;
  }

  lemma {:induction false} BodyReadsBack(issuer: seq<Byte>, rest: seq<Byte>)
    ensures ReadBody(Sanitized(issuer) + ([QUOTE] + rest)) == Some(Quoted(Printable(issuer), rest))
  {
    var close := [QUOTE] + rest;
    if issuer == [] {
      assert Sanitized(issuer) + close == close;
      QuoteEnds(rest);
    } else {
      var b, t := issuer[0], issuer[1..];
      assert issuer == [b] + t;
      SanitizedSplits(b, t);
      PrintableSplits(b, t);
      BodyReadsBack(t, rest);
      OneMoreByte(b, Sanitized(t), close, Quoted(Printable(t), rest));
    }
  }

  lemma OneMoreByte(b: Byte, body: seq<Byte>, close: seq<Byte>, q: Quoted)
    requires ReadBody(body + close) == Some(q)
    ensures ReadBody(Escaped(b) + body + close) ==
            Some(Quoted(if IsControl(b) then q.content else [b] + q.content, q.rest))
  {
    assert Escaped(b) + body + close == Escaped(b) + (body + close);
    EscapedReads(b, body + close);
  }

  lemma EscapedReads(b: Byte, more: seq<Byte>)
    ensures ReadBody(Escaped(b) + more) == if IsControl(b) then ReadBody(more) else Cons(b, ReadBody(more))
  {
    var s := Escaped(b) + more;
    if IsControl(b) {
      assert s == more;
    } else if b == QUOTE || b == BACKSLASH {
      assert s[2..] == more;
    } else {
      assert s[1..] == more;
    }
  }

  /** Whatever the issuer and whatever follows, the reader stops exactly at the closing quote and yields the
      issuer without its control bytes: no issuer can add a challenge parameter or split the header. */
  lemma RealmReadsBack(issuer: seq<Byte>, rest: seq<Byte>)
    ensures ReadQuoted([QUOTE] + Sanitized(issuer) + [QUOTE] + rest) == Some(Quoted(Printable(issuer), rest))
  {
    var s := [QUOTE] + Sanitized(issuer) + [QUOTE] + rest;
    assert s[1..] == Sanitized(issuer) + ([QUOTE] + rest);
    BodyReadsBack(issuer, rest);
  }

  /** No control byte is ever emitted, so the header cannot be split. */
  lemma {:induction false} NoControlIsEmitted(issuer: seq<Byte>, b: Byte)
    requires b in Sanitized(issuer)
    ensures 0x20 <= b && b != 0x7F
  {
    if issuer != [] {
      var n := |issuer| - 1;
      if b in Sanitized(issuer[..n]) {
        NoControlIsEmitted(issuer[..n], b);
      }
    }
  }
}
