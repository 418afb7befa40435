/**
 Coverage told in CIDR notation: nets are an address and a prefix length, and an address is trusted when it shares
 that many leading bits with one of them. Nothing here rests on how masks are measured or addresses normalized.
 */
module CidrPrefixes {
  import opened Options
  import opened AddressSpans
  import opened Octets
  import opened Cidr

  /** A parsed CIDR entry: `net.ParseCIDR` gives a mask as long as its address. */
  datatype Entry = Entry(ip: seq<Byte>, k: nat)

  predicate Valid(e: Entry) {
    (|e.ip| == 4 || |e.ip| == 16) && e.k <= 8 * |e.ip|
  }

  function NetOf(e: Entry): IPNet
    requires Valid(e)
  {
    IPNet(e.ip, CidrMask(e.k, |e.ip|))
  }

  // ----- masks are measured right

  lemma {:induction false} ByteOnesOf(k: nat, from: nat)
    requires 1 <= from <= k <= 8
    ensures ByteOnes(OnesByte(k), from) == Some(k)
    decreases k - from
  {
    if from < k {
      ByteOnesOf(k, from + 1);
    }
  }

  lemma OnesOfMore(m: seq<Byte>, b: Byte)
    ensures MaskOnes(m + [b]) == OnesWith(MaskOnes(m), |m|, b)
  {
    var all := m + [b];
    assert all[..|m|] == m && all[|m|] == b;
  }

  lemma OnesByteIsPositive(j: nat)
    requires 1 <= j <= 8
    ensures OnesByte(j) > 0
  {
    Pow2Grows(8 - j, 7);
    UpByte(1);
    assert Pow2(8) == 2 * Pow2(7);
  }

  lemma ZeroByteMeasures(k: nat, n: nat, m: seq<Byte>)
    requires 0 < n && k <= 8 * (n - 1) && m == CidrMask(k, n - 1) && MaskOnes(m) == Some(k)
    ensures MaskOnes(CidrMask(k, n)) == Some(k)
  {
    assert CidrMask(k, n) == m + [0];
    OnesOfMore(m, 0);
  }

  lemma OnesByteMeasures(k: nat, n: nat, m: seq<Byte>)
    requires 0 < n && 8 * (n - 1) < k <= 8 * n && m == CidrMask(8 * (n - 1), n - 1) && MaskOnes(m) == Some(8 * (n - 1))
    ensures MaskOnes(CidrMask(k, n)) == Some(k)
  {
    var j := k - 8 * (n - 1);
    assert CidrMask(k, n) == m + [OnesByte(j)];
    ByteOnesOf(j, 1);
    OnesByteIsPositive(j);
    OnesOfMore(m, OnesByte(j));
  }

  /** A prefix mask of `k` ones measures as `k` ones. */
  lemma {:induction false} MaskOnesOf(k: nat, n: nat)
    requires k <= 8 * n
    ensures MaskOnes(CidrMask(k, n)) == Some(k)
  {
    if n > 0 {
      var front := if k <= 8 * (n - 1) then k else 8 * (n - 1);
      MaskOnesOf(front, n - 1);
      if k <= 8 * (n - 1) {
        ZeroByteMeasures(k, n, CidrMask(front, n - 1));
      } else {
        OnesByteMeasures(k, n, CidrMask(front, n - 1));
      }
    }
  }

  /** The ones of a prefix mask that are left behind its first `a` bytes. */
  function OnesAfter(k: nat, a: nat): nat {
    if k <= 8 * a then 0 else k - 8 * a
  }

  lemma {:induction false} MaskTail(k: nat, a: nat, b: nat)
    requires k <= 8 * (a + b)
    ensures CidrMask(k, a + b)[a..] == CidrMask(OnesAfter(k, a), b)
  {
    if b > 0 {
      var n := a + b - 1;
      var front := if k <= 8 * n then k else 8 * n;
      MaskTail(front, a, b - 1);
      assert CidrMask(k, a + b)[..n] == CidrMask(front, n);
      assert CidrMask(k, a + b)[a..] == CidrMask(front, n)[a..] + [CidrMask(k, a + b)[n]];
    }
  }

  // ----- which family an address belongs to

  const MAPPED: seq<Byte> := [0, 0, 0, 0, 0, 0, 0, 0, 0, 0, 255, 255]

  /** An address is IPv4 as its four bytes, or as those behind the v4-mapped prefix. */
  lemma To4Iff(ip: seq<Byte>, v: seq<Byte>)
    ensures To4(ip) == Some(v) <==> |v| == 4 && (ip == v || ip == MAPPED + v)
  {
    if |ip| == 16 {
      assert ip == ip[..12] + ip[12..];
    }
    if ip == MAPPED + v {
      assert ip[..12] == MAPPED && ip[12..] == v;
    }
  }

  predicate IsV4(ip: seq<Byte>) {
    |ip| == 4 || (|ip| == 16 && ip[..12] == MAPPED)
  }

  /** The family's bits, the address in it and the prefix length there. */
  function Family(e: Entry): nat {
    if IsV4(e.ip) then 32 else 128
  }

  function Address(e: Entry): seq<Byte>
    requires Valid(e)
  {
    if IsV4(e.ip) then e.ip[|e.ip| - 4..] else e.ip
  }

  function Length(e: Entry): nat
    requires Valid(e)
  {
    if IsV4(e.ip) then OnesAfter(e.k, |e.ip| - 4) else e.k
  }

  lemma NormalizeEntry(e: Entry)
    requires Valid(e)
    ensures Normalize(NetOf(e)) == Prefix(Address(e), Length(e), Family(e))
    ensures |Address(e)| * 8 == Family(e) && Length(e) <= Family(e)
  {
    if IsV4(e.ip) {
      To4Iff(e.ip, Address(e));
      if |e.ip| == 16 {
        MaskTail(e.k, 12, 4);
        assert e.ip == MAPPED + Address(e);
      } else {
        assert e.ip[0..] == e.ip;
      }
      MaskOnesOf(Length(e), 4);
    } else {
      MaskOnesOf(e.k, 16);
    }
  }

  // ----- what an entry trusts

  /** `a` is an address of the entry's family with its leading bits. */
  predicate Shares(e: Entry, bits: nat, a: nat)
    requires Valid(e)
  {
    bits == Family(e) && Length(e) <= bits && Down(a, bits - Length(e)) == Down(Int(Address(e)), bits - Length(e))
  }

  lemma RangeIsPrefix(e: Entry, bits: nat, a: nat)
    requires Valid(e)
    ensures InRange(Some(NetOf(e)), bits, a) <==> Shares(e, bits, a)
  {
    NormalizeEntry(e);
    InRangeIsPrefix(NetOf(e), Normalize(NetOf(e)), bits, a);
  }

  lemma InRangeIsPrefix(n: IPNet, p: Prefix, bits: nat, a: nat)
    requires Normalize(n) == p && p.ones <= p.bits == 8 * |p.ip| && (p.bits == 32 || p.bits == 128)
    ensures InRange(Some(n), bits, a) <==>
            bits == p.bits && Down(a, p.bits - p.ones) == Down(Int(p.ip), p.bits - p.ones)
  {
    SpanIsPrefix(p, a);
  }

  lemma SpanIsPrefix(p: Prefix, a: nat)
    requires p.ones <= p.bits == 8 * |p.ip| && (p.bits == 32 || p.bits == 128)
    ensures SpanOf(p).lo <= a <= SpanOf(p).hi <==> Down(a, p.bits - p.ones) == Down(Int(p.ip), p.bits - p.ones)
  {
    SpanOfFamily(p);
    SpanOfValue(p);
    ClearedRun(Int(p.ip), a, p.bits - p.ones);
  }

  lemma SpanOfValue(p: Prefix)
    requires p.ones <= p.bits == 8 * |p.ip| && (p.bits == 32 || p.bits == 128)
    ensures SpanOf(p).lo == Clear(Int(p.ip), p.bits - p.ones)
    ensures SpanOf(p).hi == SpanOf(p).lo + Pow2(p.bits - p.ones) - 1
  {
    MaskedValue(p.ip, p.ones);
  }

  function Nets(entries: seq<Option<Entry>>): seq<Option<IPNet>>
    requires forall i | 0 <= i < |entries| && entries[i].Some? :: Valid(entries[i].value)
  {
    seq(|entries|, i requires 0 <= i < |entries| =>
      if entries[i].Some? then Some(NetOf(entries[i].value)) else None)
  }

  ghost predicate SharedBySome(entries: seq<Option<Entry>>, bits: nat, a: nat)
    requires forall i | 0 <= i < |entries| && entries[i].Some? :: Valid(entries[i].value)
  {
    exists i :: 0 <= i < |entries| && entries[i].Some? && Shares(entries[i].value, bits, a)
  }

  /** A list covers a family exactly when every integer of the family shares its leading bits with some entry. */
  lemma CoversIffPrefixes(entries: seq<Option<Entry>>, bits: nat)
    requires forall i | 0 <= i < |entries| && entries[i].Some? :: Valid(entries[i].value)
    ensures Covers(Nets(entries), bits) <==> forall a: nat | a < Pow2(bits) :: SharedBySome(entries, bits, a)
  {
    var nets := Nets(entries);
    forall a: nat ensures Covered(nets, bits, a) <==> SharedBySome(entries, bits, a) {
      forall i | 0 <= i < |entries|
        ensures InRange(nets[i], bits, a) <==> entries[i].Some? && Shares(entries[i].value, bits, a)
      {
        if entries[i].Some? {
          RangeIsPrefix(entries[i].value, bits, a);
        }
      }
    }
  }

  /** Containment of an address is sharing its leading bits, v4-mapped entries and any prefix length included. */
  lemma ContainsIffPrefix(e: Entry, addr: seq<Byte>)
    requires Valid(e) && OfFamily(addr, Family(e))
    ensures Contains(NetOf(e), addr) <==> Shares(e, Family(e), Int(addr))
  {
    EntryIsWellShaped(e);
    NormalizeEntry(e);
    RangeIsContainment(NetOf(e), Family(e), addr);
    RangeIsPrefix(e, Family(e), Int(addr));
  }

  lemma EntryIsWellShaped(e: Entry)
    requires Valid(e)
    ensures WellShaped(NetOf(e))
  {
    NormalizeEntry(e);
  }

  /** Coverage is containment of every address of the family, for every list of CIDR entries. */
  lemma EntryCoverageIsContainment(entries: seq<Option<Entry>>, bits: nat)
    requires bits == 32 || bits == 128
    requires forall i | 0 <= i < |entries| && entries[i].Some? :: Valid(entries[i].value)
    ensures Covers(Nets(entries), bits) <==> TrustsFamily(Nets(entries), bits)
  {
    var nets := Nets(entries);
    forall i | 0 <= i < |nets| && nets[i].Some? ensures WellShaped(nets[i].value) {
      EntryIsWellShaped(entries[i].value);
    }
    CoverageIsContainment(nets, bits);
  }
}
