/**
 Address prefixes on machine words: the shift-and-mask test of the code is quotient equality, so a
 prefix is an aligned range of addresses, and two prefixes are nested or disjoint (RFC 4632,
 section 3.1). Words are bit sequences, most significant first, of any width.
 */
module Cidr {
  import opened Arithmetic

  type Bits = seq<bool>

  function Pow2(n: nat): (r: nat)
    ensures r > 0
  {
    if n == 0 then 1 else 2 * Pow2(n - 1)
  }

  function Value(b: Bits): nat {
    if b == [] then 0 else 2 * Value(b[..|b| - 1]) + if b[|b| - 1] then 1 else 0
  }

  function BitsOf(n: nat, width: nat): (r: Bits)
    ensures |r| == width
  {
    if width == 0 then [] else BitsOf(n / 2, width - 1) + [n % 2 == 1]
  }

  function Ones(n: nat): (r: Bits)
    ensures |r| == n && forall i :: 0 <= i < n ==> r[i]
  {
    seq(n, _ => true)
  }

  function Zeros(n: nat): (r: Bits)
    ensures |r| == n && forall i :: 0 <= i < n ==> !r[i]
  {
    seq(n, _ => false)
  }

  function And(a: Bits, b: Bits): (r: Bits)
    requires |a| == |b|
    ensures |r| == |a| && forall i :: 0 <= i < |a| ==> r[i] == (a[i] && b[i])
  {
    seq(|a|, i requires 0 <= i < |a| => a[i] && b[i])
  }

  function ShiftLeft(b: Bits, k: nat): (r: Bits)
    requires k <= |b|
    ensures |r| == |b|
  {
    b[k..] + Zeros(k)
  }

  /** All ones shifted left past the host bits. */
  function Mask(width: nat, len: nat): Bits
    requires len <= width
  {
    ShiftLeft(Ones(width), width - len)
  }

  /** The code's test; a zero length is answered first, where the shift would be by the whole width. */
  predicate InPrefix(ip: Bits, prefix: Bits, len: nat)
    requires |ip| == |prefix| && len <= |ip|
  {
    len == 0 || And(ip, Mask(|ip|, len)) == And(prefix, Mask(|ip|, len))
  }

  // ---- Values ----

  lemma {:induction false} ValueBounded(b: Bits)
    ensures Value(b) < Pow2(|b|)
    decreases |b|
  {
    if b != [] {
      ValueBounded(b[..|b| - 1]);
    }
  }

  lemma {:induction false} ValueInjective(a: Bits, b: Bits)
    requires |a| == |b| && Value(a) == Value(b)
    ensures a == b
    decreases |a|
  {
    if a != [] {
      var n := |a| - 1;
      ValueInjective(a[..n], b[..n]);
      assert a == a[..n] + [a[n]] && b == b[..n] + [b[n]];
    }
  }

  lemma {:induction false} ValueOfBits(n: nat, width: nat)
    requires n < Pow2(width)
    ensures Value(BitsOf(n, width)) == n
  {
    if width > 0 {
      ValueOfBits(n / 2, width - 1);
      var b := BitsOf(n, width);
      assert b[..width - 1] == BitsOf(n / 2, width - 1);
    }
  }

  lemma ValueSnoc(b: Bits)
    requires b != []
    ensures Value(b) == 2 * Value(b[..|b| - 1]) + if b[|b| - 1] then 1 else 0
  {
  }

  lemma {:induction false} ValueSplits(b: Bits, len: nat)
    requires len <= |b|
    ensures Value(b) == Pow2(|b| - len) * Value(b[..len]) + Value(b[len..])
    decreases |b| - len
  {
    if len == |b| {
      assert b[..len] == b;
    } else {
      var n := |b| - 1;
      var front, low := b[..n], b[len..];
      ValueSplits(front, len);
      assert front[..len] == b[..len] && low[..|low| - 1] == front[len..];
      ValueSnoc(b);
      ValueSnoc(low);
      Doubling(Pow2(n - len), Value(b[..len]));
    }
  }

  lemma Doubling(p: nat, v: nat)
    ensures 2 * (p * v) == (2 * p) * v
  {
  }

  lemma QuotientIsTop(b: Bits, len: nat)
    requires len <= |b|
    ensures Value(b) / Pow2(|b| - len) == Value(b[..len])
  {
    ValueSplits(b, len);
    ValueBounded(b[len..]);
    QuotientIs(Value(b), Pow2(|b| - len), Value(b[..len]), Value(b[len..]));
  }

  // ---- Prefixes ----

  lemma MaskTestsTop(ip: Bits, prefix: Bits, len: nat)
    requires |ip| == |prefix| && len <= |ip|
    ensures InPrefix(ip, prefix, len) <==> ip[..len] == prefix[..len]
  {
    var mask := Mask(|ip|, len);
    assert forall i :: 0 <= i < |ip| ==> mask[i] == (i < len);
    var a, b := And(ip, mask), And(prefix, mask);
    if ip[..len] == prefix[..len] {
      forall i | 0 <= i < |ip|
        ensures a[i] == b[i]
      {
        assert i < len ==> ip[..len][i] == prefix[..len][i];
      }
    }
    if a == b {
      forall i | 0 <= i < len
        ensures ip[i] == prefix[i]
      {
        assert a[i] == b[i];
      }
    }
  }

  /** The mask test compares quotients by the block size. */
  lemma MaskTestIsQuotientTest(ip: Bits, prefix: Bits, len: nat)
    requires |ip| == |prefix| && len <= |ip|
    ensures InPrefix(ip, prefix, len) <==>
            Value(ip) / Pow2(|ip| - len) == Value(prefix) / Pow2(|ip| - len)
  {
    MaskTestsTop(ip, prefix, len);
    QuotientIsTop(ip, len);
    QuotientIsTop(prefix, len);
    if Value(ip[..len]) == Value(prefix[..len]) {
      ValueInjective(ip[..len], prefix[..len]);
    }
  }

  function First(prefix: Bits, len: nat): nat
    requires len <= |prefix|
  {
    Pow2(|prefix| - len) * (Value(prefix) / Pow2(|prefix| - len))
  }

  predicate InRange(n: nat, prefix: Bits, len: nat)
    requires len <= |prefix|
  {
    First(prefix, len) <= n < First(prefix, len) + Pow2(|prefix| - len)
  }

  /**
   A prefix is the aligned range of 2^(width - len) addresses that starts at `First`: an address is
   in it exactly when its value is, and every value of the range is an address.
   */
  lemma PrefixIsAlignedRange(ip: Bits, prefix: Bits, len: nat)
    requires |ip| == |prefix| && len <= |ip|
    ensures First(prefix, len) % Pow2(|ip| - len) == 0
    ensures First(prefix, len) + Pow2(|ip| - len) <= Pow2(|ip|)
    ensures InPrefix(ip, prefix, len) <==> InRange(Value(ip), prefix, len)
  {
    var size, q := Pow2(|ip| - len), Value(prefix) / Pow2(|ip| - len);
    QuotientIs(size * q, size, q, 0);
    MaskTestIsQuotientTest(ip, prefix, len);
    QuotientIsTop(prefix, len);
    ValueBounded(prefix[..len]);
    PowSplits(len, |ip| - len);
    RangeFits(size, q, Pow2(len));
    InRangeIff(Value(ip), size, q);
  }

  lemma RangeIsInWidth(prefix: Bits, len: nat, n: nat)
    requires len <= |prefix| && InRange(n, prefix, len)
    ensures n < Pow2(|prefix|)
  {
    PrefixIsAlignedRange(prefix, prefix, len);
  }

  /** Every value of the range belongs to an address of the width. */
  lemma RangeIsAddresses(prefix: Bits, len: nat, n: nat)
    requires len <= |prefix| && InRange(n, prefix, len)
    ensures exists ip: Bits :: |ip| == |prefix| && Value(ip) == n && InPrefix(ip, prefix, len)
  {
    RangeIsInWidth(prefix, len, n);
    ValueOfBits(n, |prefix|);
    ValueInRange(BitsOf(n, |prefix|), prefix, len);
  }

  lemma ValueInRange(ip: Bits, prefix: Bits, len: nat)
    requires |ip| == |prefix| && len <= |ip| && InRange(Value(ip), prefix, len)
    ensures InPrefix(ip, prefix, len)
  {
    PrefixIsAlignedRange(ip, prefix, len);
  }

  lemma {:induction false} PowSplits(a: nat, b: nat)
    ensures Pow2(a + b) == Pow2(a) * Pow2(b)
    decreases b
  {
    if b > 0 {
      PowSplits(a, b - 1);
      assert Pow2(a + b) == 2 * (Pow2(a) * Pow2(b - 1));
    }
  }

  lemma {:induction false} RangeFits(size: nat, q: nat, count: nat)
    requires q < count
    ensures size * q + size <= count * size
    decreases count - q
  {
    if q + 1 < count {
      RangeFits(size, q + 1, count);
      assert size * (q + 1) == size * q + size;
    } else {
      assert count * size == size * q + size;
    }
  }

  lemma InRangeIff(n: nat, size: nat, q: nat)
    requires size > 0
    ensures n / size == q <==> size * q <= n < size * q + size
  {
    if size * q <= n < size * q + size {
      QuotientIs(n, size, q, n - size * q);
    }
    assert n == size * (n / size) + n % size;
  }

  /** Two prefixes of one family: the longer lies inside the shorter, or they share no address. */
  lemma NestedOrDisjoint(a: Bits, lenA: nat, b: Bits, lenB: nat)
    requires |a| == |b| && lenA <= lenB <= |a|
    ensures || (forall ip: Bits :: |ip| == |a| && InPrefix(ip, b, lenB) ==> InPrefix(ip, a, lenA))
            || (forall ip: Bits :: |ip| == |a| ==> !(InPrefix(ip, a, lenA) && InPrefix(ip, b, lenB)))
  {
    forall ip: Bits | |ip| == |a|
      ensures InPrefix(ip, a, lenA) <==> ip[..lenA] == a[..lenA]
      ensures InPrefix(ip, b, lenB) <==> ip[..lenB] == b[..lenB]
      ensures InPrefix(ip, b, lenB) ==> ip[..lenA] == b[..lenA]
    {
      MaskTestsTop(ip, a, lenA);
      MaskTestsTop(ip, b, lenB);
      assert ip[..lenB][..lenA] == ip[..lenA] && b[..lenB][..lenA] == b[..lenA];
    }
    if a[..lenA] == b[..lenA] {
    } else {
      assert forall ip: Bits :: |ip| == |a| ==> !(ip[..lenA] == a[..lenA] && ip[..lenA] == b[..lenA]);
    }
  }
}
