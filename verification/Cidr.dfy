/**
 Address-family coverage: does a list of CIDR nets, merged, trust every address of a family? Nets are bytes, as
 the net package holds them; coverage is decided on exact integers by sorting spans and sweeping them.
 */
module Cidr {
  import opened Options
  import opened AddressSpans
  import opened Octets

  /** A net as `net.IPNet` holds it: any address and mask bytes, a v4-mapped IPv6 pair included. A nil net, like one
      whose address is nil, is an absent one. */
  datatype IPNet = IPNet(ip: seq<Byte>, mask: seq<Byte>)

  // ----- powers and bits

  /** `y` with `k` zero bits appended. */
  function Up(y: nat, k: nat): nat {
    if k == 0 then y else 2 * Up(y, k - 1)
  }

  /** `x` without its `k` lowest bits. */
  function Down(x: nat, k: nat): nat {
    if k == 0 then x else Down(x / 2, k - 1)
  }

  function Pow2(k: nat): nat {
    Up(1, k)
  }

  /** `x` with its `k` lowest bits cleared. */
  function Clear(x: nat, k: nat): nat {
    if k == 0 then x else 2 * Clear(x / 2, k - 1)
  }

  lemma {:induction false} Pow2Grows(a: nat, b: nat)
    requires a <= b
    ensures 0 < Pow2(a) <= Pow2(b)
  {
    if a < b {
      Pow2Grows(a, b - 1);
    } else if a > 0 {
      Pow2Grows(a - 1, a - 1);
    }
  }

  /** The addresses that share `x`'s leading bits are exactly the run from the cleared value up. */
  lemma {:induction false} ClearedRun(x: nat, a: nat, k: nat)
    ensures Clear(x, k) <= a < Clear(x, k) + Pow2(k) <==> Down(a, k) == Down(x, k)
    ensures Down(a, k) == Down(x, k) <==> Clear(a, k) == Clear(x, k)
  {
    if k > 0 {
      ClearedRun(x / 2, a / 2, k - 1);
      assert Pow2(k) == 2 * Pow2(k - 1);
    }
  }

  lemma {:induction false} ClearedRunFits(x: nat, k: nat, n: nat)
    requires k <= n && x < Pow2(n)
    ensures Clear(x, k) + Pow2(k) <= Pow2(n)
  {
    if k > 0 {
      assert Pow2(n) == 2 * Pow2(n - 1) && Pow2(k) == 2 * Pow2(k - 1);
      ClearedRunFits(x / 2, k - 1, n - 1);
    }
  }

  /** Appending bits to a number: clearing more than them clears the number itself, clearing fewer does not. */
  lemma {:induction false} ClearAppended(f: nat, l: nat, j: nat, k: nat)
    requires l < Pow2(j)
    ensures k <= j ==> Clear(Up(f, j) + l, k) == Up(f, j) + Clear(l, k)
    ensures k >= j ==> Clear(Up(f, j) + l, k) == Up(Clear(f, k - j), j)
  {
    if j > 0 && k > 0 {
      assert Pow2(j) == 2 * Pow2(j - 1) && Up(f, j) == 2 * Up(f, j - 1);
      ClearAppended(f, l / 2, j - 1, k - 1);
    }
  }

  lemma UpByte(f: nat)
    ensures Up(f, 8) == 256 * f && Pow2(8) == 256
  {
    assert Up(f, 8) == 2 * Up(f, 7) == 4 * Up(f, 6) == 8 * Up(f, 5) == 16 * Up(f, 4);
    assert Up(f, 4) == 2 * Up(f, 3) == 4 * Up(f, 2) == 8 * Up(f, 1) == 16 * f;
    assert Up(1, 8) == 256;
  }

  /** Bitwise and. */
  function And(x: nat, y: nat): nat {
    if x == 0 || y == 0 then 0 else (if x % 2 == 1 && y % 2 == 1 then 1 else 0) + 2 * And(x / 2, y / 2)
  }

  lemma {:induction false} AndIsSmaller(x: nat, y: nat)
    ensures And(x, y) <= x
  {
    if x != 0 && y != 0 {
      AndIsSmaller(x / 2, y / 2);
    }
  }

  /** Masking with a run of leading ones clears the low bits. */
  lemma {:induction false} AndWithMask(x: nat, n: nat, k: nat)
    requires k <= n && x < Pow2(n)
    ensures Pow2(k) <= Pow2(n) && And(x, Pow2(n) - Pow2(k)) == Clear(x, k)
    decreases n
  {
    Pow2Grows(k, n);
    if n > 0 {
      assert Pow2(n) == 2 * Pow2(n - 1);
      if k == 0 {
        AndWithMask(x / 2, n - 1, 0);
      } else {
        assert Pow2(k) == 2 * Pow2(k - 1);
        AndWithMask(x / 2, n - 1, k - 1);
      }
    }
  }

  // ----- addresses as integers

  lemma Pow2Byte(n: nat)
    ensures Pow2(n + 8) == 256 * Pow2(n)
  {
    assert Pow2(n + 8) == 2 * Pow2(n + 7) == 4 * Pow2(n + 6) == 8 * Pow2(n + 5) == 16 * Pow2(n + 4);
    assert Pow2(n + 4) == 2 * Pow2(n + 3) == 4 * Pow2(n + 2) == 8 * Pow2(n + 1) == 16 * Pow2(n);
  }

  /** Big-endian value, as `big.Int.SetBytes` reads it. */
  function Int(b: seq<Byte>): nat {
    if b == [] then 0 else 256 * Int(b[..|b| - 1]) + b[|b| - 1]
  }

  lemma {:induction false} IntFits(b: seq<Byte>)
    ensures Int(b) < Pow2(8 * |b|)
  {
    if b != [] {
      IntFits(b[..|b| - 1]);
      Pow2Byte(8 * (|b| - 1));
    }
  }

  lemma {:induction false} IntIsInjective(a: seq<Byte>, b: seq<Byte>)
    requires |a| == |b| && Int(a) == Int(b)
    ensures a == b
  {
    if a != [] {
      IntIsInjective(a[..|a| - 1], b[..|b| - 1]);
      assert a == a[..|a| - 1] + [a[|a| - 1]] && b == b[..|b| - 1] + [b[|b| - 1]];
    }
  }

  /** The byte with `ones` leading ones. */
  function OnesByte(ones: nat): (v: Byte)
    requires ones <= 8
    ensures v == 256 - Pow2(8 - ones)
  {
    Pow2Grows(8 - ones, 8);
    UpByte(1);
    256 - Pow2(8 - ones)
  }

  /** `net.CIDRMask`: `ones` leading ones over `n` bytes. */
  function CidrMask(ones: nat, n: nat): (m: seq<Byte>)
    requires ones <= 8 * n
    ensures |m| == n
  {
    if n == 0 then []
    else if ones <= 8 * (n - 1) then CidrMask(ones, n - 1) + [0]
    else CidrMask(8 * (n - 1), n - 1) + [OnesByte(ones - 8 * (n - 1))]
  }

  function AndByte(x: Byte, y: Byte): Byte {
    AndIsSmaller(x, y);
    And(x, y)
  }

  function AndAll(x: seq<Byte>, m: seq<Byte>): (r: seq<Byte>)
    requires |x| == |m|
    ensures |r| == |x| && forall i | 0 <= i < |x| :: r[i] == AndByte(x[i], m[i])
  {
    seq(|x|, i requires 0 <= i < |x| => AndByte(x[i], m[i]))
  }

  /** Masking an address clears the host bits of its value. */
  lemma {:induction false} MaskedValue(x: seq<Byte>, ones: nat)
    requires ones <= 8 * |x|
    ensures Int(AndAll(x, CidrMask(ones, |x|))) == Clear(Int(x), 8 * |x| - ones)
    decreases |x|
  {
    if x != [] {
      var n := |x| - 1;
      if ones <= 8 * n {
        MaskedValue(x[..n], ones);
        ZeroByteMasked(x, ones);
        MaskedZeroByte(x, AndAll(x[..n], CidrMask(ones, n)), AndAll(x, CidrMask(ones, |x|)), 8 * n - ones);
      } else {
        MaskedValue(x[..n], 8 * n);
        MaskedOnesByte(x, ones);
      }
    }
  }

  /** `u` and `w` are the masked front and the masked whole. */
  lemma MaskedZeroByte(x: seq<Byte>, u: seq<Byte>, w: seq<Byte>, k: nat)
    requires x != [] && Int(u) == Clear(Int(x[..|x| - 1]), k) && Int(w) == 256 * Int(u)
    ensures Int(w) == Clear(Int(x), k + 8)
  {
    var n := |x| - 1;
    ClearBelow(Int(x[..n]), x[n], k, Int(x), k + 8, Int(u));
  }

  lemma ZeroByteMasked(x: seq<Byte>, ones: nat)
    requires x != [] && ones <= 8 * (|x| - 1)
    ensures var n := |x| - 1;
            Int(AndAll(x, CidrMask(ones, |x|))) == 256 * Int(AndAll(x[..n], CidrMask(ones, n)))
  {
    LastMaskedByte(x, CidrMask(ones, |x| - 1), 0);
  }

  lemma MaskedOnesByte(x: seq<Byte>, ones: nat)
    requires x != [] && 8 * (|x| - 1) < ones <= 8 * |x|
    requires Int(AndAll(x[..|x| - 1], CidrMask(8 * (|x| - 1), |x| - 1))) == Clear(Int(x[..|x| - 1]), 0)
    ensures Int(AndAll(x, CidrMask(ones, |x|))) == Clear(Int(x), 8 * |x| - ones)
  {
    var n, k := |x| - 1, 8 * |x| - ones;
    LastMaskedByte(x, CidrMask(8 * n, n), OnesByte(8 - k));
    ClearWithin(Int(x[..n]), x[n], k, Int(x));
  }

  lemma LastMaskedByte(x: seq<Byte>, m: seq<Byte>, b: Byte)
    requires |x| == |m| + 1
    ensures Int(AndAll(x, m + [b])) == 256 * Int(AndAll(x[..|m|], m)) + AndByte(x[|m|], b)
  {
    var n := |m|;
    assert AndAll(x, m + [b])[..n] == AndAll(x[..n], m);
  }

  lemma ClearBelow(f: nat, l: Byte, k: nat, v: nat, k8: nat, cleared: nat)
    requires v == 256 * f + l && k8 == k + 8 && cleared == Clear(f, k)
    ensures Clear(v, k8) == 256 * cleared
  {
    UpByte(f);
    UpByte(Clear(f, k));
    ClearAppended(f, l, 8, k + 8);
  }

  lemma ClearWithin(f: nat, l: Byte, k: nat, v: nat)
    requires k < 8 && v == 256 * f + l
    ensures Clear(v, k) == 256 * Clear(f, 0) + AndByte(l, OnesByte(8 - k))
  {
    ClearLowByte(f, l, k, v);
    MaskLowByte(l, k);
  }

  lemma ClearLowByte(f: nat, l: Byte, k: nat, v: nat)
    requires k < 8 && v == 256 * f + l
    ensures Clear(v, k) == 256 * f + Clear(l, k)
  {
    UpByte(f);
    ClearLowBits(f, l, 8, k, v);
  }

  lemma ClearLowBits(f: nat, l: nat, j: nat, k: nat, v: nat)
    requires l < Pow2(j) && k <= j && v == Up(f, j) + l
    ensures Clear(v, k) == v - l + Clear(l, k)
  {
    ClearAppended(f, l, j, k);
  }

  lemma MaskLowByte(l: Byte, k: nat)
    requires k < 8
    ensures AndByte(l, OnesByte(8 - k)) == Clear(l, k)
  {
    UpByte(1);
    AndWithMask(l, 8, k);
  }

  // ----- nets

  /** `IP.To4`: a four-byte address, or the last four bytes of a v4-mapped sixteen-byte one. */
  function To4(ip: seq<Byte>): Option<seq<Byte>> {
    if |ip| == 4 then Some(ip)
    else if |ip| == 16 && ip[..12] == [0, 0, 0, 0, 0, 0, 0, 0, 0, 0, 255, 255] then Some(ip[12..])
    else None
  }

  /** `IPMask.Size`: the length of a run of leading ones, or None for a mask that is not one. */
  function MaskOnes(mask: seq<Byte>): (r: Option<nat>)
    ensures r.Some? ==> r.value <= 8 * |mask| && mask == CidrMask(r.value, |mask|)
  {
    if mask == [] then Some(0)
    else
      var n := |mask| - 1;
      assert mask == mask[..n] + [mask[n]];
      OnesWith(MaskOnes(mask[..n]), n, mask[n])
  }

  /** The ones of a mask whose first `n` bytes have `front` of them and whose last byte is `last`. */
  function OnesWith(front: Option<nat>, n: nat, last: Byte): Option<nat> {
    if last == 0 then front
    else if front == Some(8 * n) && ByteOnes(last, 1).Some? then Some(8 * n + ByteOnes(last, 1).value)
    else None
  }

  /** The number of leading ones, at least `from`, of a byte that is nothing but leading ones. */
  function ByteOnes(v: Byte, from: nat): (r: Option<nat>)
    requires 1 <= from <= 9
    ensures r.Some? ==> 1 <= r.value <= 8 && v == OnesByte(r.value)
    decreases 9 - from
  {
    if from == 9 then None else if v == OnesByte(from) then Some(from) else ByteOnes(v, from + 1)
  }

  datatype Prefix = Prefix(ip: seq<Byte>, ones: nat, bits: nat)

  /** `NormalizeIPNet`: the address and mask size of the family that containment will actually use; a mask
      that is no prefix has size zero of zero. */
  function Normalize(n: IPNet): Prefix {
    var v4 := To4(n.ip);
    var ip := if v4.Some? then v4.value else n.ip;
    var mask := if v4.Some? && |n.mask| == 16 then n.mask[12..] else n.mask;
    match MaskOnes(mask)
    case Some(ones) => Prefix(ip, ones, 8 * |mask|)
    case None => Prefix(ip, 0, 0)
  }

  /** The run of addresses a net stands for. Only the two families have a prefix mask, and a mask of another length
      than the address masks to nothing, which reads as zero. */
  function SpanOf(p: Prefix): Span
    requires p.ones <= p.bits
  {
    var masks := 8 * |p.ip| == p.bits && (p.bits == 32 || p.bits == 128);
    var lo := if masks then Int(AndAll(p.ip, CidrMask(p.ones, |p.ip|))) else 0;
    Pow2Grows(p.bits - p.ones, p.bits);
    Span(lo, lo + Pow2(p.bits - p.ones) - 1)
  }

  lemma NormalizedOnes(n: IPNet)
    ensures Normalize(n).ones <= Normalize(n).bits
  {
  }

  /** The spans of a family never leave it. */
  lemma SpanFits(p: Prefix)
    requires p.ones <= p.bits
    ensures SpanOf(p).lo <= SpanOf(p).hi < Pow2(p.bits)
  {
    Pow2Grows(p.bits - p.ones, p.bits);
    if 8 * |p.ip| == p.bits && (p.bits == 32 || p.bits == 128) {
      MaskedValue(p.ip, p.ones);
      IntFits(p.ip);
      ClearedRunFits(Int(p.ip), p.bits - p.ones, p.bits);
    }
  }

  // ----- what a net contains

  /** `a` lies in the masked range of a net of the family. */
  ghost predicate InRange(n: Option<IPNet>, bits: nat, a: nat) {
    && n.Some?
    && var p := Normalize(n.value);
    p.bits == bits && SpanOf(p).lo <= a <= SpanOf(p).hi
  }

  /** The list leaves no address of the family out. */
  ghost predicate Covers(nets: seq<Option<IPNet>>, bits: nat) {
    forall a: nat | a < Pow2(bits) :: Covered(nets, bits, a)
  }

  ghost predicate Covered(nets: seq<Option<IPNet>>, bits: nat, a: nat) {
    exists i :: 0 <= i < |nets| && InRange(nets[i], bits, a)
  }

  /** `IPNet.Contains`: byte by byte under the mask, a v4-mapped address read as the IPv4 one. */
  ghost predicate Contains(n: IPNet, addr: seq<Byte>) {
    var v4 := To4(n.ip);
    var ip := if v4.Some? then v4.value else n.ip;
    var mask := if |n.mask| == 16 && |ip| == 4 then n.mask[12..] else n.mask;
    var x := if To4(addr).Some? then To4(addr).value else addr;
    && (v4.Some? || |ip| == 16)
    && |mask| == |ip| == |x|
    && SameUnder(ip, x, mask)
  }

  ghost predicate SameUnder(x: seq<Byte>, y: seq<Byte>, m: seq<Byte>)
    requires |x| == |y| == |m|
  {
    forall i | 0 <= i < |x| :: AndByte(x[i], m[i]) == AndByte(y[i], m[i])
  }

  /** A net whose mask is a prefix and as long as the family's address. */
  predicate WellShaped(n: IPNet) {
    var p := Normalize(n);
    p.bits == 8 * |p.ip| && (p.bits == 32 || p.bits == 128)
  }

  /** An address of the family, as containment reads it: an IPv6 address that is not v4-mapped, or an IPv4 one. */
  predicate OfFamily(addr: seq<Byte>, bits: nat) {
    if bits == 32 then |addr| == 4 else bits == 128 && |addr| == 16 && To4(addr).None?
  }

  /** For a well-shaped net the span is exactly what containment admits of its family. */
  lemma RangeIsContainment(n: IPNet, bits: nat, addr: seq<Byte>)
    requires WellShaped(n) && OfFamily(addr, bits) && Normalize(n).bits == bits
    ensures InRange(Some(n), bits, Int(addr)) <==> Contains(n, addr)
  {
    ContainsByValue(n, addr);
    SpanHit(Normalize(n), addr);
  }

  lemma ContainsByValue(n: IPNet, addr: seq<Byte>)
    requires WellShaped(n) && OfFamily(addr, Normalize(n).bits)
    ensures var p := Normalize(n);
            var m := CidrMask(p.ones, |p.ip|);
            |addr| == |p.ip| && (Contains(n, addr) <==> Int(AndAll(p.ip, m)) == Int(AndAll(addr, m)))
  {
    var p := Normalize(n);
    var m := CidrMask(p.ones, |p.ip|);
    ContainsMasked(n, addr);
    SameMasked(p.ip, addr, m);
    EqualByValue(AndAll(p.ip, m), AndAll(addr, m));
  }

  lemma SpanHit(p: Prefix, addr: seq<Byte>)
    requires p.ones <= p.bits == 8 * |p.ip| && (p.bits == 32 || p.bits == 128) && |addr| == |p.ip|
    ensures var m := CidrMask(p.ones, |p.ip|);
            SpanOf(p).lo <= Int(addr) <= SpanOf(p).hi <==> Int(AndAll(p.ip, m)) == Int(AndAll(addr, m))
  {
    SpanOfFamily(p);
    AlignedHit(addr, p.ones, SpanOf(p));
  }

  lemma SpanOfFamily(p: Prefix)
    requires p.ones <= p.bits == 8 * |p.ip| && (p.bits == 32 || p.bits == 128)
    ensures SpanOf(p).lo == Int(AndAll(p.ip, CidrMask(p.ones, |p.ip|)))
    ensures Aligned(SpanOf(p), 8 * |p.ip| - p.ones)
  {
    MaskedValue(p.ip, p.ones);
  }

  lemma ContainsMasked(n: IPNet, addr: seq<Byte>)
    requires WellShaped(n) && OfFamily(addr, Normalize(n).bits)
    ensures var p := Normalize(n);
            var m := CidrMask(p.ones, |p.ip|);
            |addr| == |p.ip| && (Contains(n, addr) <==> SameUnder(p.ip, addr, m))
  {
    var v4 := To4(n.ip);
    var mask := if v4.Some? && |n.mask| == 16 then n.mask[12..] else n.mask;
    var p := Normalize(n);
    assert MaskOnes(mask) == Some(p.ones) && mask == CidrMask(p.ones, |mask|);
    assert v4.Some? <==> |p.ip| == 4;
    assert |addr| == 4 ==> To4(addr) == Some(addr);
    var x := if To4(addr).Some? then To4(addr).value else addr;
    assert x == addr;
  }

  lemma SameMasked(x: seq<Byte>, y: seq<Byte>, m: seq<Byte>)
    requires |x| == |y| == |m|
    ensures AndAll(x, m) == AndAll(y, m) <==> SameUnder(x, y, m)
  {
    if AndAll(x, m) == AndAll(y, m) {
      forall i | 0 <= i < |x| ensures AndByte(x[i], m[i]) == AndByte(y[i], m[i]) {
        assert AndAll(x, m)[i] == AndAll(y, m)[i];
      }
    }
  }

  /** The span is one value's run of `k` host bits. */
  ghost predicate Aligned(span: Span, k: nat) {
    exists x: nat :: span.lo == Clear(x, k) && span.hi == span.lo + Pow2(k) - 1
  }

  lemma AlignedHit(y: seq<Byte>, ones: nat, span: Span)
    requires ones <= 8 * |y| && Aligned(span, 8 * |y| - ones)
    ensures span.lo <= Int(y) <= span.hi <==> Int(AndAll(y, CidrMask(ones, |y|))) == span.lo
  {
    var k := 8 * |y| - ones;
    var x: nat :| span.lo == Clear(x, k) && span.hi == span.lo + Pow2(k) - 1;
    MaskedValue(y, ones);
    ClearedSpan(x, Int(y), k, span);
  }

  lemma ClearedSpan(x: nat, a: nat, k: nat, span: Span)
    requires span.lo == Clear(x, k) && span.hi == span.lo + Pow2(k) - 1
    ensures span.lo <= a <= span.hi <==> Clear(x, k) == Clear(a, k)
  {
    ClearedRun(x, a, k);
  }

  lemma EqualByValue(u: seq<Byte>, v: seq<Byte>)
    requires |u| == |v|
    ensures u == v <==> Int(u) == Int(v)
  {
    if Int(u) == Int(v) {
      IntIsInjective(u, v);
    }
  }

  /** Exactly which nets the span speaks for: a mask of another length than the address is counted from zero
      although containment admits nothing. */
  lemma SpanExactIffWellShaped(n: IPNet, bits: nat)
    requires (bits == 32 || bits == 128) && Normalize(n).bits == bits
    ensures (forall addr | OfFamily(addr, bits) :: InRange(Some(n), bits, Int(addr)) <==> Contains(n, addr)) <==>
            WellShaped(n)
  {
    if WellShaped(n) {
      forall addr | OfFamily(addr, bits) ensures InRange(Some(n), bits, Int(addr)) <==> Contains(n, addr) {
        RangeIsContainment(n, bits, addr);
      }
    } else {
      var zero: seq<Byte> := seq(bits / 8, _ => 0);
      ZeroAddress(zero);
      assert |zero| == bits / 8 && forall i | 0 <= i < |zero| :: zero[i] == 0;
      assert OfFamily(zero, bits) by {
        if |zero| == 16 {
          assert zero[..12][10] == 0;
        }
      }
      MisshapenContainsNothing(n, zero);
      SpanFits(Normalize(n));
      assert InRange(Some(n), bits, Int(zero));
    }
  }

  lemma MisshapenContainsNothing(n: IPNet, addr: seq<Byte>)
    requires !WellShaped(n) && (Normalize(n).bits == 32 || Normalize(n).bits == 128)
    ensures !Contains(n, addr)
  {
  }

  lemma {:induction false} ZeroAddress(b: seq<Byte>)
    requires forall i | 0 <= i < |b| :: b[i] == 0
    ensures Int(b) == 0
  {
    if b != [] {
      ZeroAddress(b[..|b| - 1]);
    }
  }

  function Bytes(a: nat, n: nat): (b: seq<Byte>)
    ensures |b| == n
  {
    if n == 0 then [] else Bytes(a / 256, n - 1) + [a % 256]
  }

  lemma {:induction false} IntOfBytes(a: nat, n: nat)
    requires a < Pow2(8 * n)
    ensures Int(Bytes(a, n)) == a
  {
    if n > 0 {
      Pow2Byte(8 * (n - 1));
      IntOfBytes(a / 256, n - 1);
      assert Bytes(a, n)[..n - 1] == Bytes(a / 256, n - 1);
    }
  }

  ghost predicate Trusts(nets: seq<Option<IPNet>>, addr: seq<Byte>) {
    exists i :: 0 <= i < |nets| && nets[i].Some? && Contains(nets[i].value, addr)
  }

  /** Every address of the family is trusted, and so is every integer of its width that is read as another
      family's address: the v4-mapped block of IPv6, which containment reads as IPv4. */
  ghost predicate TrustsFamily(nets: seq<Option<IPNet>>, bits: nat) {
    forall addr: seq<Byte> | |addr| == bits / 8 ::
      if OfFamily(addr, bits) then Trusts(nets, addr) else Covered(nets, bits, Int(addr))
  }

  /** Over well-shaped nets, coverage is containment of every address of the family. */
  lemma CoverageIsContainment(nets: seq<Option<IPNet>>, bits: nat)
    requires bits == 32 || bits == 128
    requires forall i | 0 <= i < |nets| && nets[i].Some? :: WellShaped(nets[i].value)
    ensures Covers(nets, bits) <==> TrustsFamily(nets, bits)
  {
    if Covers(nets, bits) {
      forall addr: seq<Byte> | |addr| == bits / 8
        ensures if OfFamily(addr, bits) then Trusts(nets, addr) else Covered(nets, bits, Int(addr))
      {
        IntFits(addr);
        assert Covered(nets, bits, Int(addr));
        if OfFamily(addr, bits) {
          CoveredIsTrusted(nets, bits, addr);
        }
      }
    }
    if TrustsFamily(nets, bits) {
      forall a: nat | a < Pow2(bits) ensures Covered(nets, bits, a) {
        TrustedIsCovered(nets, bits, a);
      }
    }
  }

  lemma TrustedIsCovered(nets: seq<Option<IPNet>>, bits: nat, a: nat)
    requires (bits == 32 || bits == 128) && TrustsFamily(nets, bits) && a < Pow2(bits)
    requires forall i | 0 <= i < |nets| && nets[i].Some? :: WellShaped(nets[i].value)
    ensures Covered(nets, bits, a)
  {
    IntOfBytes(a, bits / 8);
    var addr := Bytes(a, bits / 8);
    if OfFamily(addr, bits) {
      CoveredIsTrusted(nets, bits, addr);
    }
  }

  lemma CoveredIsTrusted(nets: seq<Option<IPNet>>, bits: nat, addr: seq<Byte>)
    requires OfFamily(addr, bits)
    requires forall i | 0 <= i < |nets| && nets[i].Some? :: WellShaped(nets[i].value)
    ensures Covered(nets, bits, Int(addr)) <==> Trusts(nets, addr)
  {
    forall i | 0 <= i < |nets| && nets[i].Some?
      ensures InRange(nets[i], bits, Int(addr)) <==> Contains(nets[i].value, addr)
    {
      var n := nets[i].value;
      if Normalize(n).bits == bits {
        RangeIsContainment(n, bits, addr);
      } else {
        OtherFamily(n, bits, addr);
      }
    }
  }

  lemma OtherFamily(n: IPNet, bits: nat, addr: seq<Byte>)
    requires WellShaped(n) && OfFamily(addr, bits) && Normalize(n).bits != bits
    ensures !Contains(n, addr)
  {
    assert |addr| == 4 ==> To4(addr) == Some(addr);
    assert To4(n.ip).Some? <==> |Normalize(n).ip| == 4;
  }

  // ----- the verdict

  /** The span a net of the family contributes; an absent net and one of another family are skipped. */
  function FamilySpan(n: Option<IPNet>, bits: nat): (s: Option<Span>)
    ensures s.Some? ==> s.value.lo <= s.value.hi < Pow2(bits)
    ensures forall a: nat :: InRange(n, bits, a) <==> s.Some? && s.value.lo <= a <= s.value.hi
  {
    if n.None? || Normalize(n.value).bits != bits then None
    else
      NormalizedOnes(n.value);
      SpanFits(Normalize(n.value));
      Some(SpanOf(Normalize(n.value)))
  }

  /** The family's spans, in list order. */
  method FamilySpans(nets: seq<Option<IPNet>>, bits: nat) returns (spans: seq<Span>)
    ensures forall a: nat :: Hit(spans, a) <==> Covered(nets, bits, a)
    ensures forall i | 0 <= i < |spans| :: spans[i].lo <= spans[i].hi < Pow2(bits)
  {
    spans := [];
    for i := 0 to |nets|
      invariant forall a: nat :: Hit(spans, a) <==> Covered(nets[..i], bits, a)
      invariant forall j | 0 <= j < |spans| :: spans[j].lo <= spans[j].hi < Pow2(bits)
    {
      ghost var before := spans;
      var s := FamilySpan(nets[i], bits);
      if s.Some? {
        spans := spans + [s.value];
      }
      forall a: nat ensures Hit(spans, a) <==> Covered(nets[..i + 1], bits, a) {
        OneMoreNet(nets, i, bits, a);
        if s.Some? {
          OneMoreSpan(before, s.value, a);
        }
      }
    }
    assert nets[..|nets|] == nets;
  }

  lemma OneMoreNet(nets: seq<Option<IPNet>>, i: nat, bits: nat, a: nat)
    requires i < |nets|
    ensures Covered(nets[..i + 1], bits, a) <==> Covered(nets[..i], bits, a) || InRange(nets[i], bits, a)
  {
    OneMore(nets[..i], nets[i], nets[..i + 1], n => InRange(n, bits, a));
  }

  lemma OneMore(front: seq<Option<IPNet>>, last: Option<IPNet>, all: seq<Option<IPNet>>, ok: Option<IPNet> -> bool)
    requires all == front + [last]
    ensures (exists j :: 0 <= j < |all| && ok(all[j])) <==> (exists j :: 0 <= j < |front| && ok(front[j])) || ok(last)
  {
    assert all[|front|] == last;
    assert forall j | 0 <= j < |front| :: all[j] == front[j];
  }

  /** True exactly when every integer of the family lies in some net's masked range, whatever the order,
      nesting or duplication of the nets. */
  method CoversAddressFamily(nets: seq<Option<IPNet>>, bits: nat) returns (covers: bool)
    ensures covers <==> Covers(nets, bits)
  {
    var spans := FamilySpans(nets, bits);
    Pow2Grows(0, bits);
    if spans == [] {
      assert Pow2(0) == 1 && !Hit(spans, 0);
      return false;
    }
    var sorted := SortByLo(spans);
    forall a: nat ensures Hit(sorted, a) <==> Hit(spans, a) {
      PermutedHit(sorted, spans, a);
    }
    forall i | 0 <= i < |sorted| ensures sorted[i].lo <= sorted[i].hi < Pow2(bits) {
      assert sorted[i] in multiset(spans);
    }
    covers := Sweep(sorted, Pow2(bits) - 1);
  }

  datatype Refusal = Accepted | DefaultRoute(entry: nat) | Together(entries: seq<nat>)

  /** `rejectTotalCoverage`: entries that do not parse are skipped; a list that trusts a whole family is
      refused, by its one parsed entry or by all of them. */
  method RejectTotalCoverage(entries: seq<Option<IPNet>>) returns (r: Refusal)
    ensures r.Accepted? <==> !Covers(entries, 32) && !Covers(entries, 128)
    ensures r.DefaultRoute? ==>
              r.entry < |entries| && forall i | 0 <= i < |entries| :: entries[i].Some? <==> i == r.entry
    ensures r.Together? ==>
              |r.entries| != 1 && forall i :: i in r.entries <==> 0 <= i < |entries| && entries[i].Some?
  {
    var parsed := ParsedEntries(entries);
    var v4 := CoversAddressFamily(entries, 32);
    var v6 := CoversAddressFamily(entries, 128);
    if !v4 && !v6 {
      return Accepted;
    }
    if |parsed| == 1 {
      assert parsed[0] in parsed;
      return DefaultRoute(parsed[0]);
    }
    return Together(parsed);
  }

  method ParsedEntries(entries: seq<Option<IPNet>>) returns (parsed: seq<nat>)
    ensures forall i :: i in parsed <==> 0 <= i < |entries| && entries[i].Some?
  {
    parsed := [];
    for i := 0 to |entries|
      invariant forall j :: j in parsed <==> 0 <= j < i && entries[j].Some?
    {
      if entries[i].Some? {
        parsed := parsed + [i];
      }
    }
  }
}
