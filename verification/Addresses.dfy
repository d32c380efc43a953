/**
 Which upstream addresses are allowed, and which peers are trusted: IPv6 forms that embed an IPv4
 address are decoded first, so no way of writing an address changes the verdict.
 */
module Addresses {
  import opened Cidr

  type V4Bits = b: Bits | |b| == 32 witness Zeros(32)
  type V6Bits = b: Bits | |b| == 128 witness Zeros(128)

  datatype Ip = V4(v4: V4Bits) | V6(v6: V6Bits)

  /** The i-th octet of an IPv4 address, and the i-th segment of an IPv6 one. */
  function Octet(b: V4Bits, i: nat): nat
    requires i < 4
  {
    Value(b[8 * i..8 * i + 8])
  }

  function Segment(b: V6Bits, i: nat): (r: Bits)
    requires i < 8
    ensures |r| == 16
  {
    b[16 * i..16 * i + 16]
  }

  const FF9B: Bits := [true, true, true, true, true, true, true, true, true, false, false, true, true, false, true, true]
  const X0064: Bits := [false, false, false, false, false, false, false, false, false, true, true, false, false, true, false, false]

  /** IPv4-mapped and IPv4-compatible addresses (RFC 4291, section 2.5.5). */
  predicate EmbedsV4(b: V6Bits) {
    b[..80] == Zeros(80) && (b[80..96] == Zeros(16) || b[80..96] == Ones(16))
  }

  /** The code's test for the NAT64 prefix: it looks at the first four segments only. */
  predicate LooksNat64(b: V6Bits) {
    Segment(b, 0) == X0064 && Segment(b, 1) == FF9B && Segment(b, 2) == Zeros(16) && Segment(b, 3) == Zeros(16)
  }

  predicate Decodes(b: V6Bits) {
    EmbedsV4(b) || LooksNat64(b)
  }

  function Normalized(ip: Ip): Ip {
    match ip
    case V4(_) => ip
    case V6(b) => if Decodes(b) then V4(b[96..]) else ip
  }

  // ---- Blocked ranges ----

  predicate BlockedV4(b: V4Bits) {
    var o0, o1 := Octet(b, 0), Octet(b, 1);
    || o0 == 0 || o0 == 10 || o0 == 127
    || (o0 == 169 && o1 == 254)
    || (o0 == 172 && 16 <= o1 <= 31)
    || (o0 == 192 && o1 == 168)
    || (o0 == 100 && 64 <= o1 <= 127)
    || (o0 == 198 && o1 == 18)
  }

  const FC00: Bits := Ones(6) + Zeros(10)
  const FE00: Bits := Ones(7) + Zeros(9)
  const FE80: Bits := Ones(7) + [false, true] + [false] + Zeros(6)
  const FFC0: Bits := Ones(10) + Zeros(6)

  /** Unique local and link-local addresses, by masking the first segment. */
  predicate BlockedV6(b: V6Bits) {
    And(Segment(b, 0), FE00) == FC00 || And(Segment(b, 0), FFC0) == FE80
  }

  predicate Blocked(ip: Ip) {
    match ip
    case V4(b) => BlockedV4(b)
    case V6(b) => BlockedV6(b)
  }

  /** A blocked IPv4 range: its first two octets and its prefix length. */
  datatype Range = Range(o0: nat, o1: nat, len: nat)

  const BLOCKED_RANGES: seq<Range> := [
    Range(0, 0, 8), Range(10, 0, 8), Range(127, 0, 8), Range(169, 254, 16),
    Range(172, 16, 12), Range(192, 168, 16), Range(100, 64, 10), Range(198, 18, 16)]

  /** The address lies in the range: its top bits have the range's value. */
  predicate InBlockedRange(b: V4Bits, r: Range) {
    r.len <= 16 && Value(b[..r.len]) == (256 * r.o0 + r.o1) / Pow2(16 - r.len)
  }

  lemma TopOctets(b: V4Bits)
    ensures Octet(b, 0) < 256 && Octet(b, 1) < 256
    ensures Value(b[..8]) == Octet(b, 0)
    ensures Value(b[..16]) == 256 * Octet(b, 0) + Octet(b, 1)
  {
    Powers();
    var top := b[..16];
    assert top[..8] == b[..8] && top[8..] == b[8..16];
    ValueSplits(top, 8);
    ValueBounded(b[..8]);
    ValueBounded(b[8..16]);
  }

  lemma TopBits(b: V4Bits)
    ensures Value(b[..12]) == (256 * Octet(b, 0) + Octet(b, 1)) / 16
    ensures Value(b[..10]) == (256 * Octet(b, 0) + Octet(b, 1)) / 64
  {
    Powers();
    TopOctets(b);
    var top := b[..16];
    assert top[..12] == b[..12] && top[..10] == b[..10];
    QuotientIsTop(top, 12);
    QuotientIsTop(top, 10);
  }

  lemma Powers()
    ensures Pow2(0) == 1 && Pow2(4) == 16 && Pow2(6) == 64 && Pow2(8) == 256
  {
    assert Pow2(2) == 4 && Pow2(4) == 16 && Pow2(6) == 64;
  }

  /** The octet tests are the eight prefixes, exactly. */
  lemma BlockedV4IffInRange(b: V4Bits)
    ensures BlockedV4(b) <==> exists r :: r in BLOCKED_RANGES && InBlockedRange(b, r)
  {
    TopOctets(b);
    TopBits(b);
    Powers();
    var o0, o1 := Octet(b, 0), Octet(b, 1);
    assert InBlockedRange(b, Range(0, 0, 8)) <==> o0 == 0;
    assert InBlockedRange(b, Range(10, 0, 8)) <==> o0 == 10;
    assert InBlockedRange(b, Range(127, 0, 8)) <==> o0 == 127;
    assert InBlockedRange(b, Range(169, 254, 16)) <==> o0 == 169 && o1 == 254;
    assert InBlockedRange(b, Range(172, 16, 12)) <==> o0 == 172 && 16 <= o1 <= 31;
    assert InBlockedRange(b, Range(192, 168, 16)) <==> o0 == 192 && o1 == 168;
    assert InBlockedRange(b, Range(100, 64, 10)) <==> o0 == 100 && 64 <= o1 <= 127;
    assert InBlockedRange(b, Range(198, 18, 16)) <==> o0 == 198 && o1 == 18;
    assert BLOCKED_RANGES[0] == Range(0, 0, 8) && BLOCKED_RANGES[1] == Range(10, 0, 8);
    assert BLOCKED_RANGES[2] == Range(127, 0, 8) && BLOCKED_RANGES[3] == Range(169, 254, 16);
    assert BLOCKED_RANGES[4] == Range(172, 16, 12) && BLOCKED_RANGES[5] == Range(192, 168, 16);
    assert BLOCKED_RANGES[6] == Range(100, 64, 10) && BLOCKED_RANGES[7] == Range(198, 18, 16);
  }

  lemma MaskedTop(segment: Bits, len: nat, masked: Bits)
    requires |segment| == 16 == |masked| && len <= 16 && masked[len..] == Zeros(16 - len)
    ensures And(segment, Ones(len) + Zeros(16 - len)) == masked <==> segment[..len] == masked[..len]
  {
    var a := And(segment, Ones(len) + Zeros(16 - len));
    assert forall i :: 0 <= i < 16 ==> a[i] == (i < len && segment[i]);
    assert forall i :: len <= i < 16 ==> masked[i] == masked[len..][i - len];
    if a == masked {
      assert forall i :: 0 <= i < len ==> segment[i] == masked[i];
    }
    if segment[..len] == masked[..len] {
      assert forall i :: 0 <= i < len ==> segment[..len][i] == masked[..len][i];
    }
  }

  /** The segment masks are the prefixes fc00::/7 and fe80::/10. */
  lemma BlockedV6IffInPrefix(b: V6Bits)
    ensures BlockedV6(b) <==> InPrefix(b, FC00 + Zeros(112), 7) || InPrefix(b, FE80 + Zeros(112), 10)
  {
    MaskedTop(Segment(b, 0), 7, FC00);
    MaskedTop(Segment(b, 0), 10, FE80);
    MaskTestsTop(b, FC00 + Zeros(112), 7);
    MaskTestsTop(b, FE80 + Zeros(112), 10);
    assert Segment(b, 0)[..7] == b[..7] && Segment(b, 0)[..10] == b[..10];
    assert (FC00 + Zeros(112))[..7] == FC00[..7] && (FE80 + Zeros(112))[..10] == FE80[..10];
  }

  // ---- Verdicts ----

  function MinNat(a: nat, b: nat): nat {
    if a < b then a else b
  }

  /** A length longer than the family's width counts as the whole address. */
  predicate SameFamilyInPrefix(ip: Ip, prefix: Ip, len: nat) {
    match (ip, prefix)
    case (V4(a), V4(p)) => InPrefix(a, p, MinNat(len, 32))
    case (V6(a), V6(p)) => InPrefix(a, p, MinNat(len, 128))
    case _ => false
  }

  /** Families are compared as written, and decoded only when they differ. */
  predicate IpInPrefix(ip: Ip, prefix: Ip, len: nat) {
    if ip.V4? == prefix.V4? then SameFamilyInPrefix(ip, prefix, len)
    else SameFamilyInPrefix(Normalized(ip), Normalized(prefix), len)
  }

  /** A configured entry once parsed: unusable, a bare address, or an address with a length. */
  datatype Entry = Unusable | Bare(addr: Ip) | Sized(addr: Ip, len: nat)

  function Width(ip: Ip): nat {
    if ip.V4? then 32 else 128
  }

  predicate InEntry(ip: Ip, e: Entry) {
    match e
    case Unusable => false
    case Bare(addr) => IpInPrefix(ip, addr, Width(addr))
    case Sized(addr, len) => len <= Width(addr) && IpInPrefix(ip, addr, len)
  }

  predicate Allowed(ip: Ip, entries: seq<Entry>) {
    (exists e :: e in entries && InEntry(Normalized(ip), e)) || !Blocked(Normalized(ip))
  }

  lemma NormalizeIsIdempotent(ip: Ip)
    ensures Normalized(Normalized(ip)) == Normalized(ip)
  {
  }

  lemma AllowedIsInvariant(ip: Ip, entries: seq<Entry>)
    ensures Allowed(Normalized(ip), entries) == Allowed(ip, entries)
  {
    NormalizeIsIdempotent(ip);
  }

  /** The three ways to write an IPv4 address in IPv6 that are decoded. */
  function Mapped(a: V4Bits): V6Bits {
    Zeros(80) + Ones(16) + a
  }

  function Compatible(a: V4Bits): V6Bits {
    Zeros(96) + a
  }

  function Nat64(middle: Bits, a: V4Bits): V6Bits
    requires |middle| == 32
  {
    X0064 + FF9B + Zeros(32) + middle + a
  }

  lemma EmbeddingsDecode(a: V4Bits, middle: Bits)
    requires |middle| == 32
    ensures Normalized(V6(Mapped(a))) == V4(a)
    ensures Normalized(V6(Compatible(a))) == V4(a)
    ensures Normalized(V6(Nat64(middle, a))) == V4(a)
  {
    assert Mapped(a)[..80] == Zeros(80) && Mapped(a)[80..96] == Ones(16) && Mapped(a)[96..] == a;
    assert Compatible(a)[..80] == Zeros(80) && Compatible(a)[80..96] == Zeros(16) && Compatible(a)[96..] == a;
    var n := Nat64(middle, a);
    assert Segment(n, 0) == X0064 && Segment(n, 1) == FF9B && Segment(n, 2) == Zeros(16) && Segment(n, 3) == Zeros(16);
    assert n[96..] == a;
  }

  /**
   Every embedding of an IPv4 address gets the plain address's verdict, whatever is allow-listed;
   for NAT64 this holds of every value of the bits the code does not look at.
   */
  lemma EmbeddingsShareVerdict(a: V4Bits, middle: Bits, entries: seq<Entry>)
    requires |middle| == 32
    ensures Allowed(V6(Mapped(a)), entries) == Allowed(V4(a), entries)
    ensures Allowed(V6(Compatible(a)), entries) == Allowed(V4(a), entries)
    ensures Allowed(V6(Nat64(middle, a)), entries) == Allowed(V4(a), entries)
  {
    EmbeddingsDecode(a, middle);
  }

  /** Conversely, an address that decodes is one of these embeddings of what it decodes to. */
  lemma DecodesIffEmbedding(b: V6Bits)
    ensures Decodes(b) <==>
            || b == Mapped(b[96..]) || b == Compatible(b[96..]) || b == Nat64(b[64..96], b[96..])
  {
    var a, middle := b[96..], b[64..96];
    EmbeddingsDecode(a, middle);
    assert b == b[..80] + b[80..96] + b[96..];
    assert Zeros(80) + Zeros(16) == Zeros(96);
    assert Zeros(16) + Zeros(16) == Zeros(32);
    assert b == Segment(b, 0) + Segment(b, 1) + (Segment(b, 2) + Segment(b, 3)) + middle + a;
  }

  // ---- What a verdict means ----

  /** The address a connection reaches: IPv4 if that is embedded in one of the three ways, else as it is. */
  ghost predicate Reaches(ip: Ip, plain: Ip) {
    match (ip, plain)
    case (V4(_), _) => plain == ip
    case (V6(b), V4(a)) => Embeds(b, a)
    case (V6(b), V6(_)) => plain == ip && forall a: V4Bits :: !Embeds(b, a)
  }

  ghost predicate Embeds(b: V6Bits, a: V4Bits) {
    b == Mapped(a) || b == Compatible(a) || exists middle: Bits :: |middle| == 32 && b == Nat64(middle, a)
  }

  lemma EmbedsIff(b: V6Bits, a: V4Bits)
    ensures Embeds(b, a) <==> Decodes(b) && b[96..] == a
  {
    DecodesIffEmbedding(b);
    if Embeds(b, a) {
      EmbeddingsDecode(a, Zeros(32));
      if middle: Bits :| |middle| == 32 && b == Nat64(middle, a) {
        EmbeddingsDecode(a, middle);
      }
    }
  }

  /** Every address reaches exactly one. */
  lemma ReachesIffNormalized(ip: Ip, plain: Ip)
    ensures Reaches(ip, plain) <==> plain == Normalized(ip)
  {
    if ip.V6? {
      forall a: V4Bits
        ensures Embeds(ip.v6, a) <==> Decodes(ip.v6) && ip.v6[96..] == a
      {
        EmbedsIff(ip.v6, a);
      }
      EmbedsIff(ip.v6, ip.v6[96..]);
    }
  }

  /** fc00::/7 and fe80::/10 by their top bits. */
  const UNIQUE_LOCAL: Bits := [true, true, true, true, true, true, false]
  const LINK_LOCAL: Bits := [true, true, true, true, true, true, true, false, true, false]

  /** Outside all blocked ranges. */
  predicate Public(ip: Ip) {
    match ip
    case V4(b) => forall r :: r in BLOCKED_RANGES ==> !InBlockedRange(b, r)
    case V6(b) => b[..7] != UNIQUE_LOCAL && b[..10] != LINK_LOCAL
  }

  lemma PublicIff(ip: Ip)
    ensures Public(ip) <==> !Blocked(ip)
  {
    match ip
    case V4(b) => BlockedV4IffInRange(b);
    case V6(b) =>
      BlockedV6IffInPrefix(b);
      MaskTestsTop(b, FC00 + Zeros(112), 7);
      MaskTestsTop(b, FE80 + Zeros(112), 10);
      assert (FC00 + Zeros(112))[..7] == UNIQUE_LOCAL && (FE80 + Zeros(112))[..10] == LINK_LOCAL;
  }

  /** The top bits agree: of addresses of one family as written, else of the IPv4 addresses both reach. */
  ghost predicate TopAgrees(ip: Ip, addr: Ip, len: nat) {
    match (ip, addr)
    case (V4(a), V4(p)) => a[..MinNat(len, 32)] == p[..MinNat(len, 32)]
    case (V6(a), V6(p)) => a[..MinNat(len, 128)] == p[..MinNat(len, 128)]
    case _ => exists a: V4Bits, p: V4Bits ::
      Reaches(ip, V4(a)) && Reaches(addr, V4(p)) && a[..MinNat(len, 32)] == p[..MinNat(len, 32)]
  }

  /** Exactly which peers and addresses a prefix holds. */
  lemma InPrefixIffTopAgrees(ip: Ip, addr: Ip, len: nat)
    ensures IpInPrefix(ip, addr, len) <==> TopAgrees(ip, addr, len)
  {
    match (ip, addr)
    case (V4(a), V4(p)) => MaskTestsTop(a, p, MinNat(len, 32));
    case (V6(a), V6(p)) => MaskTestsTop(a, p, MinNat(len, 128));
    case _ => MixedIffTopAgrees(ip, addr, len);
  }

  lemma MixedIffTopAgrees(ip: Ip, addr: Ip, len: nat)
    requires ip.V4? != addr.V4?
    ensures IpInPrefix(ip, addr, len) <==> TopAgrees(ip, addr, len)
  {
    forall plain
      ensures Reaches(ip, plain) <==> plain == Normalized(ip)
      ensures Reaches(addr, plain) <==> plain == Normalized(addr)
    {
      ReachesIffNormalized(ip, plain);
      ReachesIffNormalized(addr, plain);
    }
    var a, p := Normalized(ip), Normalized(addr);
    if a.V4? && p.V4? {
      MaskTestsTop(a.v4, p.v4, MinNat(len, 32));
      assert Reaches(ip, V4(a.v4)) && Reaches(addr, V4(p.v4));
    }
  }

  /** A bare entry holds the address it reaches; a sized one, if its length fits, those that agree in the top bits. */
  ghost predicate Fits(plain: Ip, e: Entry) {
    match e
    case Unusable => false
    case Bare(addr) => Reaches(addr, plain)
    case Sized(addr, len) => len <= (if addr.V4? then 32 else 128) && TopAgrees(plain, addr, len)
  }

  lemma FitsIff(ip: Ip, e: Entry)
    ensures Fits(Normalized(ip), e) <==> InEntry(Normalized(ip), e)
  {
    var plain := Normalized(ip);
    match e
    case Unusable =>
    case Sized(addr, len) => InPrefixIffTopAgrees(plain, addr, len);
    case Bare(addr) => BareFitsIff(plain, addr);
  }

  lemma BareFitsIff(plain: Ip, addr: Ip)
    requires Normalized(plain) == plain
    ensures Reaches(addr, plain) <==> IpInPrefix(plain, addr, Width(addr))
  {
    ReachesIffNormalized(addr, plain);
    match (plain, addr)
    case (V4(a), V4(p)) => WholeTest(a, p);
    case (V6(a), V6(p)) => WholeTest(a, p);
    case (V4(a), V6(p)) => if Decodes(p) { WholeTest(a, p[96..]); }
    case (V6(a), V4(p)) =>
  }

  lemma WholeTest(a: Bits, p: Bits)
    requires |a| == |p|
    ensures InPrefix(a, p, |a|) <==> a == p
  {
    MaskTestsTop(a, p, |a|);
    assert a[..|a|] == a && p[..|p|] == p;
  }

  /** What an address comes to: some entry fits what it reaches, or that is public. */
  ghost predicate MayConnect(ip: Ip, entries: seq<Entry>) {
    exists plain :: Reaches(ip, plain) && ((exists e :: e in entries && Fits(plain, e)) || Public(plain))
  }

  lemma AllowedIff(ip: Ip, entries: seq<Entry>)
    ensures Allowed(ip, entries) <==> MayConnect(ip, entries)
  {
    var plain := Normalized(ip);
    forall p
      ensures Reaches(ip, p) <==> p == plain
    {
      ReachesIffNormalized(ip, p);
    }
    PublicIff(plain);
    forall e
      ensures Fits(plain, e) <==> InEntry(plain, e)
    {
      FitsIff(ip, e);
    }
  }

  // ---- Trusted proxies ----

  /** An IPv4 entry trusts a peer however its address is written. */
  lemma V4EntryIsInvariant(ip: Ip, prefix: V4Bits, len: nat)
    requires len <= 32
    ensures IpInPrefix(Normalized(ip), V4(prefix), len) == IpInPrefix(ip, V4(prefix), len)
  {
  }

  /** The input where an IPv6 entry does not: 10.1.2.3 against ::ffff:10.0.0.0/104. */
  lemma MappedEntryMissesPlainPeer()
    ensures exists peer: V4Bits, prefix: V6Bits ::
              IpInPrefix(V6(Mapped(peer)), V6(prefix), 104) && !IpInPrefix(V4(peer), V6(prefix), 104)
  {
    var ten := [false, false, false, false, true, false, true, false];
    var peer: V4Bits, net: V4Bits := ten + Ones(24), ten + Zeros(24);
    var prefix := Mapped(net);
    EmbeddingsDecode(net, Zeros(32));
    assert Mapped(peer)[..104] == Zeros(80) + Ones(16) + ten == prefix[..104];
    MaskTestsTop(Mapped(peer), prefix, 104);
    MaskTestsTop(peer, net, 32);
    assert peer[31] != net[31] && peer[..32] == peer && net[..32] == net;
    assert IpInPrefix(V6(Mapped(peer)), V6(prefix), 104) && !IpInPrefix(V4(peer), V6(prefix), 104);
  }

  predicate Agrees(ip: Ip, prefix: V6Bits, len: nat) {
    IpInPrefix(Normalized(ip), V6(prefix), len) == IpInPrefix(ip, V6(prefix), len)
  }

  /** Past the first nine bits, the embeddings of one address lie in different prefixes. */
  lemma OtherEmbeddingDisagrees(prefix: V6Bits, len: nat) returns (ip: Ip)
    requires Decodes(prefix) && 10 <= len <= 128
    ensures !Agrees(ip, prefix, len)
  {
    var a := prefix[96..];
    var b := if EmbedsV4(prefix) then Nat64(Zeros(32), a) else Mapped(a);
    EmbeddingsDecode(a, Zeros(32));
    assert b[9] != prefix[9] by {
      assert EmbedsV4(prefix) ==> prefix[9] == prefix[..80][9];
      assert LooksNat64(prefix) ==> prefix[9] == Segment(prefix, 0)[9];
    }
    assert b[..len][9] != prefix[..len][9];
    MaskTestsTop(b, prefix, len);
    MaskTestsTop(a, a, MinNat(len, 32));
    ip := V6(b);
  }

  /** Within them, embedded addresses share their top bits whatever they embed. */
  lemma OtherAddressDisagrees(prefix: V6Bits, len: nat) returns (ip: Ip)
    requires Decodes(prefix) && 0 < len < 10
    ensures !Agrees(ip, prefix, len)
  {
    var a := prefix[96..];
    var other: V4Bits := [!a[0]] + a[1..];
    var b := Mapped(other);
    EmbeddingsDecode(other, Zeros(32));
    forall i | 0 <= i < len
      ensures b[i] == prefix[i]
    {
      assert EmbedsV4(prefix) ==> prefix[i] == prefix[..80][i];
      assert LooksNat64(prefix) ==> prefix[i] == Segment(prefix, 0)[i];
    }
    MaskTestsTop(b, prefix, len);
    assert other[..len][0] != a[..len][0];
    MaskTestsTop(other, a, len);
    ip := V6(b);
  }

  const COMPATIBLE_HEAD: Bits := Zeros(96)
  const MAPPED_HEAD: Bits := Zeros(80) + Ones(16)
  const NAT64_HEAD: Bits := X0064 + FF9B + Zeros(32)

  /** As far as both go, the entry's bits are those of the head. */
  predicate Meets(prefix: V6Bits, len: nat, head: Bits) {
    var n := MinNat(len, |head|);
    n <= 128 && prefix[..n] == head[..n]
  }

  /** Some embedded address lies in the entry, told by the entry's own bits. */
  predicate MeetsEmbedding(prefix: V6Bits, len: nat) {
    Meets(prefix, len, COMPATIBLE_HEAD) || Meets(prefix, len, MAPPED_HEAD) || Meets(prefix, len, NAT64_HEAD)
  }

  lemma DecodesIffHead(b: V6Bits)
    ensures Decodes(b) <==> b[..96] == COMPATIBLE_HEAD || b[..96] == MAPPED_HEAD || b[..64] == NAT64_HEAD
  {
    assert b[..96] == b[..80] + b[80..96];
    assert Zeros(80) + Zeros(16) == Zeros(96);
    SplitsAs(b[..80], b[80..96], Zeros(80), Zeros(16));
    SplitsAs(b[..80], b[80..96], Zeros(80), Ones(16));
    Nat64IffHead(b);
  }

  lemma Nat64IffHead(b: V6Bits)
    ensures LooksNat64(b) <==> b[..64] == NAT64_HEAD
  {
    var front, back := Segment(b, 0) + Segment(b, 1), Segment(b, 2) + Segment(b, 3);
    assert b[..64] == front + back;
    assert Zeros(16) + Zeros(16) == Zeros(32);
    SplitsAs(front, back, X0064 + FF9B, Zeros(16) + Zeros(16));
    SplitsAs(Segment(b, 0), Segment(b, 1), X0064, FF9B);
    SplitsAs(Segment(b, 2), Segment(b, 3), Zeros(16), Zeros(16));
  }

  lemma SplitsAs(a: Bits, b: Bits, c: Bits, d: Bits)
    requires |a| == |c| && |b| == |d|
    ensures a + b == c + d <==> a == c && b == d
  {
    assert (a + b)[..|a|] == a && (c + d)[..|a|] == c;
    assert (a + b)[|a|..] == b && (c + d)[|a|..] == d;
  }

  lemma HeadMeets(b: V6Bits, prefix: V6Bits, len: nat, head: Bits)
    requires len <= 128 && |head| <= 128 && b[..|head|] == head && b[..len] == prefix[..len]
    ensures Meets(prefix, len, head)
  {
    var n := MinNat(len, |head|);
    assert b[..len][..n] == prefix[..len][..n] == prefix[..n];
    assert b[..|head|][..n] == b[..n];
  }

  lemma MeetingIsInEntry(prefix: V6Bits, len: nat, head: Bits) returns (b: V6Bits)
    requires len <= 128 && |head| <= 128 && Meets(prefix, len, head)
    ensures b[..|head|] == head && b[..len] == prefix[..len]
  {
    b := head + prefix[|head|..];
    var n := MinNat(len, |head|);
    assert forall i :: 0 <= i < n ==> b[i] == head[..n][i] && prefix[i] == prefix[..n][i];
    assert forall i :: n <= i < len ==> b[i] == prefix[i];
  }

  /** An embedded address lies in the entry exactly when the bits say so. */
  lemma MeetsEmbeddingIff(prefix: V6Bits, len: nat)
    requires len <= 128
    ensures MeetsEmbedding(prefix, len) <==> exists b: V6Bits :: Decodes(b) && b[..len] == prefix[..len]
  {
    if b: V6Bits :| Decodes(b) && b[..len] == prefix[..len] {
      DecodesIffHead(b);
      if b[..64] == NAT64_HEAD {
        HeadMeets(b, prefix, len, NAT64_HEAD);
      } else {
        HeadMeets(b, prefix, len, b[..96]);
      }
    }
    if MeetsEmbedding(prefix, len) {
      var head := if Meets(prefix, len, COMPATIBLE_HEAD) then COMPATIBLE_HEAD
                  else if Meets(prefix, len, MAPPED_HEAD) then MAPPED_HEAD else NAT64_HEAD;
      var b := MeetingIsInEntry(prefix, len, head);
      DecodesIffHead(b);
    }
  }

  /** An entry that embeds no IPv4 address never holds a plain peer, only embedded ones. */
  lemma PlainEntryAgreesIff(prefix: V6Bits, len: nat, ip: Ip)
    requires !Decodes(prefix) && len <= 128
    ensures Agrees(ip, prefix, len) <==> !(ip.V6? && Decodes(ip.v6) && ip.v6[..len] == prefix[..len])
  {
    if ip.V6? {
      MaskTestsTop(ip.v6, prefix, len);
    }
  }

  /**
   Exactly which IPv6 entries judge a peer alike however its address is written: those embedding an
   IPv4 address only as `/0`, the others if no embedded address lies in them.
   */
  lemma EntryIsInvariantIff(prefix: V6Bits, len: nat)
    requires len <= 128
    ensures (forall ip :: Agrees(ip, prefix, len)) <==>
            if Decodes(prefix) then len == 0 else !MeetsEmbedding(prefix, len)
  {
    if Decodes(prefix) {
      if len >= 10 {
        var ip := OtherEmbeddingDisagrees(prefix, len);
      } else if len > 0 {
        var ip := OtherAddressDisagrees(prefix, len);
      }
    } else {
      MeetsEmbeddingIff(prefix, len);
      forall ip
        ensures Agrees(ip, prefix, len) <==> !(ip.V6? && Decodes(ip.v6) && ip.v6[..len] == prefix[..len])
      {
        PlainEntryAgreesIff(prefix, len, ip);
      }
      if b: V6Bits :| Decodes(b) && b[..len] == prefix[..len] {
        assert !Agrees(V6(b), prefix, len);
      }
    }
  }

  // ---- The code ----

  /** Allow-listed entries first, then the blocked ranges. */
  method IsAllowed(ip: Ip, entries: seq<Entry>) returns (r: bool)
    ensures r <==> MayConnect(ip, entries)
    ensures ip.V4? && entries == [] ==> (r <==> forall range :: range in BLOCKED_RANGES ==> !InBlockedRange(ip.v4, range))
    ensures r == Allowed(ip, entries)
  {
    AllowedIff(ip, entries);
    PublicIff(Normalized(ip));
    var plain := Normalized(ip);
    var i := 0;
    while i < |entries|
      invariant 0 <= i <= |entries|
      invariant forall e :: e in entries[..i] ==> !InEntry(plain, e)
    {
      if InEntry(plain, entries[i]) {
        return true;
      }
      i := i + 1;
    }
    assert entries[..|entries|] == entries;
    return !Blocked(plain);
  }
}
