/**
 Subnet membership by 32-bit masks, in the two forms the backend uses
 (backend/src/services/vlanCoverageService.ts and backend/src/services/topologyTestGenerator.ts),
 with JavaScript's bitwise operators written out over integers.
 */
module Subnet {
  import opened Wrappers

  // ---------- JavaScript's 32-bit operators ----------

  function Pow2(k: nat): (p: nat)
    ensures p > 0
  {
    if k == 0 then 1 else 2 * Pow2(k - 1)
  }

  const TWO32 := 0x1_0000_0000
  const TWO31 := 0x8000_0000

  function ToUint32(x: int): (u: nat)
    ensures u < TWO32
  {
    x % TWO32
  }

  function ToInt32(x: int): int {
    (x + TWO31) % TWO32 - TWO31
  }

  function BitAnd(u: nat, v: nat): nat {
    if u == 0 || v == 0 then 0 else (u % 2) * (v % 2) + 2 * BitAnd(u / 2, v / 2)
  }

  function BitOr(u: nat, v: nat): nat {
    if u == 0 then v else if v == 0 then u else (if u % 2 == 1 || v % 2 == 1 then 1 else 0) + 2 * BitOr(u / 2, v / 2)
  }

  /** a & b */
  function And(a: int, b: int): int {
    ToInt32(BitAnd(ToUint32(a), ToUint32(b)))
  }

  /** a | b */
  function Or(a: int, b: int): int {
    ToInt32(BitOr(ToUint32(a), ToUint32(b)))
  }

  /** a << n: only the low five bits of the count are used */
  function Shl(a: int, n: int): int {
    ToInt32(a * Pow2(n % 32))
  }

  /** ~a */
  function Not(a: int): int {
    -ToInt32(a) - 1
  }

  // ---------- The two membership tests ----------

  datatype Quad = Quad(a: nat, b: nat, c: nat, d: nat)

  predicate ValidQuad(q: Quad) {
    q.a < 256 && q.b < 256 && q.c < 256 && q.d < 256
  }

  function IpToInt(q: Quad): int {
    Or(Or(Or(Shl(q.a, 24), Shl(q.b, 16)), Shl(q.c, 8)), q.d)
  }

  /** vlanCoverageService: (~0 << (32 - cidr)) >>> 0 */
  function CoverageMask(cidr: nat): int {
    if cidr == 0 then 0 else ToUint32(Shl(Not(0), 32 - cidr))
  }

  predicate IpInSubnet(ip: Quad, base: Quad, cidr: nat) {
    And(ToUint32(IpToInt(ip)), CoverageMask(cidr)) == And(ToUint32(IpToInt(base)), CoverageMask(cidr))
  }

  /** topologyTestGenerator: ~((1 << (32 - cidr)) - 1) */
  function GeneratorMask(cidr: nat): int {
    Not(Shl(1, 32 - cidr) - 1)
  }

  predicate OnNetwork(ip: Quad, base: Quad, cidr: nat) {
    And(IpToInt(ip), GeneratorMask(cidr)) == And(IpToInt(base), GeneratorMask(cidr))
  }

  // ---------- What they mean ----------

  function Address(q: Quad): nat {
    ((q.a * 256 + q.b) * 256 + q.c) * 256 + q.d
  }

  /** The number of host bits; counts wrap around at 32. */
  function HostBits(cidr: nat): (k: nat)
    ensures k < 32
  {
    (32 - cidr) % 32
  }

  /** Same block of 2^(host bits) addresses. */
  predicate SameBlock(p: Quad, q: Quad, cidr: nat) {
    Address(p) / Pow2(HostBits(cidr)) == Address(q) / Pow2(HostBits(cidr))
  }

  lemma Pow2Values()
    ensures Pow2(8) == 256 && Pow2(16) == 0x1_0000 && Pow2(24) == 0x100_0000 && Pow2(32) == TWO32
  {
    Pow2Add(8, 8);
    Pow2Add(16, 8);
    Pow2Add(16, 16);
    assert Pow2(4) == 16;
    Pow2Add(4, 4);
  }

  lemma {:induction false} Pow2Add(i: nat, j: nat)
    ensures Pow2(i + j) == Pow2(i) * Pow2(j)
  {
    if j > 0 {
      Pow2Add(i, j - 1);
      assert Pow2(i) * (2 * Pow2(j - 1)) == 2 * (Pow2(i) * Pow2(j - 1));
    }
  }

  lemma Pow2Below(k: nat, n: nat)
    requires k <= n
    ensures Pow2(k) <= Pow2(n)
  {
    Pow2Add(k, n - k);
    assert Pow2(k) * Pow2(n - k) >= Pow2(k);
  }

  /** Splitting off the lowest bit of a remainder. */
  lemma LowBit(u: nat, k: nat)
    requires k > 0
    ensures u % Pow2(k) == u % 2 + 2 * ((u / 2) % Pow2(k - 1))
  {
    var p, v := Pow2(k - 1), u / 2;
    assert v == p * (v / p) + v % p;
    assert u == 2 * v + u % 2;
    assert u == (2 * p) * (v / p) + (2 * (v % p) + u % 2) by { assert (2 * p) * (v / p) == 2 * (p * (v / p)); }
    Remainder(u, 2 * p, v / p, 2 * (v % p) + u % 2);
  }

  lemma Remainder(u: int, p: int, q: int, r: int)
    requires u == p * q + r && 0 <= r < p
    ensures u % p == r && u / p == q
  {
    var k: int := u / p;
    assert u == p * k + u % p;
    assert p * (q - k) == u % p - r by { assert p * (q - k) == p * q - p * k; }
    Multiples(p, q - k);
  }

  lemma Multiples(p: int, d: int)
    requires p > 0
    ensures (d > 0 ==> p * d >= p) && (d < 0 ==> p * d <= -p)
  {
  }

  /** Masking off the low k of n bits. */
  lemma {:induction false} AndHighBits(u: nat, m: nat, n: nat, k: nat)
    requires u < Pow2(n) && k <= n && m + Pow2(k) == Pow2(n)
    ensures BitAnd(u, m) == u - u % Pow2(k)
    decreases n
  {
    if n > 0 {
      if k > 0 {
        assert m % 2 == 0 && m / 2 + Pow2(k - 1) == Pow2(n - 1);
        AndHighBits(u / 2, m / 2, n - 1, k - 1);
        LowBit(u, k);
      } else {
        assert m % 2 == 1 && m / 2 + 1 == Pow2(n - 1);
        AndHighBits(u / 2, m / 2, n - 1, 0);
      }
    }
  }

  /** Combining bits that do not overlap. */
  lemma {:induction false} OrDisjoint(u: nat, v: nat, k: nat)
    requires u % Pow2(k) == 0 && v < Pow2(k)
    ensures BitOr(u, v) == u + v
    decreases k
  {
    if u != 0 && v != 0 {
      LowBit(u, k);
      OrDisjoint(u / 2, v / 2, k - 1);
    }
  }

  lemma Uint(a: int)
    requires 0 <= a < TWO32
    ensures ToUint32(ToInt32(a)) == a && ToUint32(a) == a
  {
  }

  lemma OrPart(a: int, b: int, k: nat)
    requires 0 <= a < TWO32 && a % Pow2(k) == 0 && 0 <= b < Pow2(k) && b < TWO32
    ensures Or(ToInt32(a), b) == ToInt32(a + b)
  {
    OrDisjoint(a, b, k);
    Uint(a);
    Uint(b);
  }

  lemma AddressFits(q: Quad)
    requires ValidQuad(q)
    ensures Address(q) < TWO32
  {
  }

  lemma ShiftedOctets(q: Quad)
    requires ValidQuad(q)
    ensures Shl(q.a, 24) == ToInt32(q.a * 0x100_0000) && Shl(q.b, 16) == q.b * 0x1_0000 && Shl(q.c, 8) == q.c * 0x100
  {
    Pow2Values();
  }

  /** Or-ing a low octet under the octets already in place. */
  lemma OctetOr(x: int, m: nat, y: int, b: nat, k: nat, p: nat, r: int)
    requires p > 0 && m * p < TWO32 && b < p && x == ToInt32(m * p) && y == b && r == m * p + b
    requires (k == 24 && p == 0x100_0000) || (k == 16 && p == 0x1_0000) || (k == 8 && p == 0x100)
    ensures Or(x, y) == ToInt32(r)
  {
    Pow2Values();
    MultipleMod(m, p);
    OrPart(m * p, b, k);
  }

  lemma MultipleMod(m: nat, p: nat)
    requires p > 0
    ensures (m * p) % p == 0
  {
    Remainder(m * p, p, m, 0);
  }

  lemma Octets(a: nat, b: nat, c: nat, d: nat, x: int, y: int, z: int)
    requires a < 256 && b < 256 && c < 256 && d < 256
    requires x == ToInt32(a * 0x100_0000) && y == b * 0x1_0000 && z == c * 0x100
    ensures Or(x, y) == ToInt32((a * 0x100 + b) * 0x1_0000)
    ensures forall w :: w == ToInt32((a * 0x100 + b) * 0x1_0000) ==>
      Or(w, z) == ToInt32(((a * 0x100 + b) * 0x100 + c) * 0x100)
    ensures forall w :: w == ToInt32(((a * 0x100 + b) * 0x100 + c) * 0x100) ==>
      Or(w, d) == ToInt32(((a * 256 + b) * 256 + c) * 256 + d)
  {
    OctetOr(x, a, y, b * 0x1_0000, 24, 0x100_0000, (a * 0x100 + b) * 0x1_0000);
    forall w | w == ToInt32((a * 0x100 + b) * 0x1_0000)
      ensures Or(w, z) == ToInt32(((a * 0x100 + b) * 0x100 + c) * 0x100)
    {
      OctetOr(w, a * 0x100 + b, z, c * 0x100, 16, 0x1_0000, ((a * 0x100 + b) * 0x100 + c) * 0x100);
    }
    forall w | w == ToInt32(((a * 0x100 + b) * 0x100 + c) * 0x100)
      ensures Or(w, d) == ToInt32(((a * 256 + b) * 256 + c) * 256 + d)
    {
      OctetOr(w, (a * 0x100 + b) * 0x100 + c, d, d, 8, 0x100, ((a * 256 + b) * 256 + c) * 256 + d);
    }
  }

  /** The shifts and ors assemble the address. */
  lemma IpToIntIsAddress(q: Quad)
    requires ValidQuad(q)
    ensures IpToInt(q) == ToInt32(Address(q)) && ToUint32(IpToInt(q)) == Address(q)
  {
    ShiftedOctets(q);
    Octets(q.a, q.b, q.c, q.d, Shl(q.a, 24), Shl(q.b, 16), Shl(q.c, 8));
    AddressFits(q);
    Uint(Address(q));
  }

  lemma Pow2Fits(k: nat)
    requires k <= 31
    ensures 0 < Pow2(k) <= TWO31
  {
    Pow2Below(k, 31);
    Pow2Values();
    assert Pow2(32) == 2 * Pow2(31);
  }

  lemma Masks(cidr: nat)
    requires cidr > 0
    ensures ToUint32(CoverageMask(cidr)) == ToUint32(GeneratorMask(cidr)) == TWO32 - Pow2(HostBits(cidr))
  {
    Pow2Fits(HostBits(cidr));
    var p: int := Pow2(HostBits(cidr));
    assert Shl(Not(0), 32 - cidr) == ToInt32(-p);
    assert Shl(1, 32 - cidr) == ToInt32(p);
    MaskValues(p);
  }

  lemma MaskValues(p: int)
    requires 0 < p <= TWO31
    ensures ToUint32(ToUint32(ToInt32(-p))) == TWO32 - p && ToUint32(Not(ToInt32(p) - 1)) == TWO32 - p
  {
  }

  lemma GeneratorMaskAtZero()
    ensures ToUint32(GeneratorMask(0)) == TWO32 - 1
  {
    assert Pow2(0) == 1;
  }

  /** Two addresses look alike under a mask of high bits exactly when they are in the same block. */
  lemma MaskedEqual(x: int, y: int, mask: int, k: nat)
    requires k <= 31 && ToUint32(mask) == TWO32 - Pow2(k)
    ensures And(x, mask) == And(y, mask) <==> ToUint32(x) / Pow2(k) == ToUint32(y) / Pow2(k)
  {
    Pow2Values();
    var u, v := ToUint32(x), ToUint32(y);
    AndHighBits(u, ToUint32(mask), 32, k);
    AndHighBits(v, ToUint32(mask), 32, k);
    BlockStart(u, Pow2(k));
    BlockStart(v, Pow2(k));
    Uint(u - u % Pow2(k));
    Uint(v - v % Pow2(k));
    if u / Pow2(k) != v / Pow2(k) { Multiples(Pow2(k), u / Pow2(k) - v / Pow2(k)); BlockGap(u, v, Pow2(k)); }
  }

  lemma BlockStart(u: nat, p: nat)
    requires p > 0
    ensures u - u % p == p * (u / p) && 0 <= u - u % p <= u
  {
    assert u == p * (u / p) + u % p;
    assert u / p >= 0;
    assert p * (u / p) >= 0;
  }

  lemma BlockGap(u: nat, v: nat, p: nat)
    requires p > 0 && u / p != v / p
    ensures p * (u / p) != p * (v / p)
  {
    Multiples(p, u / p - v / p);
    assert p * (u / p - v / p) == p * (u / p) - p * (v / p);
  }

  /** Both forms test for the same block, whenever the prefix is not /0. */
  lemma BothFormsAreBlocks(ip: Quad, base: Quad, cidr: nat)
    requires ValidQuad(ip) && ValidQuad(base) && cidr > 0
    ensures IpInSubnet(ip, base, cidr) <==> SameBlock(ip, base, cidr)
    ensures OnNetwork(ip, base, cidr) <==> SameBlock(ip, base, cidr)
  {
    IpToIntIsAddress(ip);
    IpToIntIsAddress(base);
    Masks(cidr);
    Uint(Address(ip));
    Uint(Address(base));
    MaskedEqual(ToUint32(IpToInt(ip)), ToUint32(IpToInt(base)), CoverageMask(cidr), HostBits(cidr));
    MaskedEqual(IpToInt(ip), IpToInt(base), GeneratorMask(cidr), HostBits(cidr));
  }

  /** At /0 the first form accepts every address, the second only the base itself. */
  lemma FormsAtZero(ip: Quad, base: Quad)
    requires ValidQuad(ip) && ValidQuad(base)
    ensures IpInSubnet(ip, base, 0)
    ensures OnNetwork(ip, base, 0) <==> ip == base
  {
    IpToIntIsAddress(ip);
    IpToIntIsAddress(base);
    GeneratorMaskAtZero();
    MaskedEqual(IpToInt(ip), IpToInt(base), GeneratorMask(0), 0);
    assert Pow2(0) == 1;
    assert ip == base <==> Address(ip) == Address(base);
  }

  /** The two forms agree exactly when the prefix is not /0 or the address is the base. */
  lemma FormsAgreeIff(ip: Quad, base: Quad, cidr: nat)
    requires ValidQuad(ip) && ValidQuad(base)
    ensures (IpInSubnet(ip, base, cidr) <==> OnNetwork(ip, base, cidr)) <==> cidr > 0 || ip == base
  {
    if cidr > 0 { BothFormsAreBlocks(ip, base, cidr); } else { FormsAtZero(ip, base); }
  }

  /** Membership is an equivalence, and a longer prefix refines it. */
  lemma Refines(p: Quad, q: Quad, shorter: nat, longer: nat)
    requires 0 < shorter <= longer <= 32 && SameBlock(p, q, longer)
    ensures SameBlock(p, q, shorter)
  {
    var i, j := HostBits(longer), HostBits(shorter) - HostBits(longer);
    Pow2Add(i, j);
    CoarserQuotient(Address(p), Address(q), Pow2(i), Pow2(j), Pow2(HostBits(shorter)));
  }

  lemma CoarserQuotient(x: nat, y: nat, a: int, b: int, c: int)
    requires a > 0 && b > 0 && c == a * b && c > 0 && x / a == y / a
    ensures x / c == y / c
  {
    DivideTwice(x, a, b, c);
    DivideTwice(y, a, b, c);
  }

  lemma DivideTwice(u: nat, a: int, b: int, c: int)
    requires a > 0 && b > 0 && c == a * b && c > 0
    ensures u / c == u / a / b
  {
    var v, r := u / a, u % a;
    var w, s := v / b, v % b;
    assert u == a * v + r && v == b * w + s;
    Regroup(u, a, b, c, v, w, r, s);
    Remainder(u, c, w, a * s + r);
  }

  lemma Regroup(u: int, a: int, b: int, c: int, v: int, w: int, r: int, s: int)
    requires a > 0 && b > 0 && c == a * b && u == a * v + r && v == b * w + s && 0 <= r < a && 0 <= s < b
    ensures u == c * w + (a * s + r) && 0 <= a * s + r < c
  {
    Distribute(a, b, w, s);
    Bounded(a, b, s);
  }

  lemma Distribute(a: int, b: int, w: int, s: int)
    ensures a * (b * w + s) == (a * b) * w + a * s
  {
  }

  lemma Bounded(a: int, b: int, s: int)
    requires a > 0 && 0 <= s < b
    ensures 0 <= a * s <= a * b - a
  {
    NonNegative(a, s);
    NonNegative(a, b - 1 - s);
    assert a * (b - 1 - s) == a * b - a - a * s;
  }

  lemma NonNegative(a: int, b: int)
    requires a >= 0 && b >= 0
    ensures a * b >= 0
  {
  }

  // ---------- Mapping a device to a network ----------

  datatype Network = Network(id: string, subnet: Option<(Quad, nat)>)

  predicate Contains(n: Network, ip: Quad) {
    n.subnet.Some? && IpInSubnet(ip, n.subnet.value.0, n.subnet.value.1)
  }

  ghost predicate FirstMatch(ip: Quad, networks: seq<Network>, found: Option<Network>) {
    if found.None? then forall n :: n in networks ==> !Contains(n, ip)
    else exists i :: 0 <= i < |networks| && networks[i] == found.value && Contains(networks[i], ip)
                     && forall j :: 0 <= j < i ==> !Contains(networks[j], ip)
  }

  method MapDeviceToNetwork(ip: Option<Quad>, networks: seq<Network>) returns (found: Option<Network>)
    ensures if ip.None? then found.None? else FirstMatch(ip.value, networks, found)
  {
    if ip.None? || networks == [] { return None; }
    for i := 0 to |networks|
      invariant forall j :: 0 <= j < i ==> !Contains(networks[j], ip.value)
    {
      if Contains(networks[i], ip.value) { return Some(networks[i]); }
    }
    found := None;
  }

  ghost predicate AtMostOne(ip: Quad, networks: seq<Network>) {
    forall m, n :: m in networks && n in networks && Contains(m, ip) && Contains(n, ip) ==> m == n
  }

  /** Every ordering of the list gives the same network. */
  ghost predicate OrderFree(ip: Quad, networks: seq<Network>) {
    forall ns, ms, f, g ::
      multiset(ns) == multiset(networks) == multiset(ms) && FirstMatch(ip, ns, f) && FirstMatch(ip, ms, g) ==> f == g
  }

  lemma MatchIsMember(ip: Quad, networks: seq<Network>, ns: seq<Network>, f: Option<Network>)
    requires multiset(ns) == multiset(networks) && FirstMatch(ip, ns, f)
    ensures f.Some? ==> f.value in networks && Contains(f.value, ip)
    ensures f.None? ==> forall n :: n in networks ==> !Contains(n, ip)
  {
    forall n
      ensures n in ns <==> n in networks
    {
      assert n in multiset(ns) <==> n in multiset(networks);
    }
  }

  lemma FrontMatch(ip: Quad, networks: seq<Network>, n: Network) returns (ns: seq<Network>)
    requires n in networks && Contains(n, ip)
    ensures multiset(ns) == multiset(networks) && FirstMatch(ip, ns, Some(n))
  {
    var i :| 0 <= i < |networks| && networks[i] == n;
    ns := [n] + networks[..i] + networks[i + 1..];
    assert networks == networks[..i] + [n] + networks[i + 1..];
    assert ns[0] == n;
  }

  /** The result is free of the list order exactly when no two networks hold the address. */
  lemma OrderFreeIffAtMostOne(ip: Quad, networks: seq<Network>)
    ensures OrderFree(ip, networks) <==> AtMostOne(ip, networks)
  {
    if AtMostOne(ip, networks) {
      forall ns, ms, f, g | multiset(ns) == multiset(networks) == multiset(ms) && FirstMatch(ip, ns, f)
        && FirstMatch(ip, ms, g)
        ensures f == g
      {
        MatchIsMember(ip, networks, ns, f);
        MatchIsMember(ip, networks, ms, g);
      }
    }
    if OrderFree(ip, networks) {
      forall m, n | m in networks && n in networks && Contains(m, ip) && Contains(n, ip)
        ensures m == n
      {
        var ms := FrontMatch(ip, networks, m);
        var ns := FrontMatch(ip, networks, n);
        assert Some(m) == Some(n);
      }
    }
  }

  predicate ValidSubnet(n: Network) {
    n.subnet.Some? ==> ValidQuad(n.subnet.value.0) && 0 < n.subnet.value.1 <= 32
  }

  /** Neither network's base lies in the other. */
  predicate Apart(m: Network, n: Network) {
    m.subnet.Some? && n.subnet.Some? ==> !Contains(m, n.subnet.value.0) && !Contains(n, m.subnet.value.0)
  }

  /** Blocks nest or are disjoint: two networks whose bases are apart share no address. */
  lemma ApartShareNothing(m: Network, n: Network, ip: Quad)
    requires ValidSubnet(m) && ValidSubnet(n) && ValidQuad(ip) && Apart(m, n)
    ensures !(Contains(m, ip) && Contains(n, ip))
  {
    if m.subnet.Some? && n.subnet.Some? {
      var (p, c) := m.subnet.value;
      var (q, d) := n.subnet.value;
      BothFormsAreBlocks(ip, p, c);
      BothFormsAreBlocks(ip, q, d);
      BothFormsAreBlocks(p, q, d);
      BothFormsAreBlocks(q, p, c);
      if c <= d && SameBlock(ip, q, d) { Refines(ip, q, c, d); }
      if d <= c && SameBlock(ip, p, c) { Refines(ip, p, d, c); }
    }
  }

  /** With pairwise disjoint subnets, mapping a device does not depend on the order of the list. */
  lemma DisjointMeansOrderFree(ip: Quad, networks: seq<Network>)
    requires ValidQuad(ip) && forall n :: n in networks ==> ValidSubnet(n)
    requires forall m, n :: m in networks && n in networks && m != n ==> Apart(m, n)
    ensures OrderFree(ip, networks)
  {
    forall m, n | m in networks && n in networks && Contains(m, ip) && Contains(n, ip)
      ensures m == n
    {
      if m != n { ApartShareNothing(m, n, ip); }
    }
    OrderFreeIffAtMostOne(ip, networks);
  }
}
