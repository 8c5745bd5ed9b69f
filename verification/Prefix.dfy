/** Address prefixes in canonical form, and the containment test by shifted 128-bit words. */
module Prefixes {
  import opened Bytes

  datatype Option<+T> = None | Some(value: T)

  const TWO_96: nat := 0x1_0000_0000_0000_0000_0000_0000
  const TWO_128: nat := 0x1_0000_0000_0000_0000_0000_0000_0000_0000

  type u128 = x: int | 0 <= x < TWO_128

  datatype IpAddr = V4(ip4: u32) | V6(ip6: u128)

  /** `bits` is the 16-byte array read as one big-endian word; an IPv4 address fills its top 32 bits. */
  datatype PrefixRep = PrefixRep(bits: nat, len: nat, v4: bool)

  function FamilyLimit(v4: bool): nat {
    if v4 then 32 else 128
  }

  predicate Canonical(p: PrefixRep) {
    && p.len <= FamilyLimit(p.v4)
    && p.bits < TWO_128
    && p.bits % Pow2(128 - p.len) == 0
  }

  type Prefix = p: PrefixRep | Canonical(p) witness PrefixRep(0, 0, true)

  /** The only constructor: checks the family's length limit and clears the host bits. */
  function New(bits: u128, len: byte, v4: bool): (r: Option<Prefix>)
    ensures r.Some? <==> len <= FamilyLimit(v4)
    ensures r.Some? ==> r.value.len == len && r.value.v4 == v4
    ensures r.Some? ==> r.value.bits <= bits < r.value.bits + Pow2(128 - len)
  {
    if len > FamilyLimit(v4) then None
    else if len == 0 then
      Pow2Of128();
      Some(PrefixRep(0, len, v4))
    else
      RoundDown(bits, Pow2(128 - len));
      Some(PrefixRep(Shl(bits / Pow2(128 - len), 128 - len), len, v4))
  }

  /** The 128-bit left shift, which drops what leaves the word. */
  function Shl(x: nat, n: nat): u128 {
    x * Pow2(n) % TWO_128
  }

  lemma RoundDown(x: u128, d: nat)
    requires d > 0
    ensures x / d * d % TWO_128 == x / d * d
    ensures x / d * d % d == 0 && x / d * d <= x < x / d * d + d
  {
    assert x == d * (x / d) + x % d;
    ModMultiple(x / d, d);
  }

  lemma ModMultiple(q: nat, d: nat)
    requires d > 0
    ensures q * d % d == 0
  {
    DivUnique(q * d, d, q, 0);
  }

  /** A prefix built from canonical bits is the prefix itself. */
  lemma NewCanonical(p: Prefix)
    ensures p.len < 256 && New(p.bits, p.len, p.v4) == Some(p)
  {
    if p.len == 0 {
      Pow2Of128();
      DivUnique(p.bits, TWO_128, 0, p.bits);
    } else {
      MultipleRoundsToItself(p.bits, Pow2(128 - p.len));
    }
  }

  lemma MultipleRoundsToItself(x: nat, d: nat)
    requires d > 0 && x % d == 0
    ensures x / d * d == x
  {
    assert x == d * (x / d) + x % d;
  }

  function FromIp(addr: IpAddr): (p: Prefix)
    ensures p.v4 == addr.V4? && p.len == FamilyLimit(addr.V4?)
  {
    match addr
    case V4(ip) => ShiftedV4(ip); PrefixRep(ip * TWO_96, 32, true)
    case V6(ip) => PrefixRep(ip, 128, false)
  }

  lemma ShiftedV4(ip: u32)
    ensures ip * TWO_96 < TWO_128 && ip * TWO_96 % Pow2(96) == 0
  {
    Pow2Of128();
    ModMultiple(ip, TWO_96);
  }

  lemma Pow2Of32()
    ensures Pow2(32) == 0x1_0000_0000
  {
    assert Pow2(8) == 256;
    Pow2Add(8, 8);
    Pow2Add(16, 16);
  }

  lemma Pow2Of128()
    ensures Pow2(96) == TWO_96 && Pow2(128) == TWO_128
  {
    Pow2Of32();
    Pow2Add(32, 32);
    Pow2Add(64, 32);
    Pow2Add(96, 32);
  }

  function Significant(p: Prefix): nat {
    if p.len == 0 then 0 else p.bits / Pow2(128 - p.len)
  }

  /** Without overflow checks only the low seven bits of a shift amount count. */
  function ShiftAmount(n: nat): nat {
    n % 128
  }

  /** The 128-bit right shift. */
  function Shr(x: nat, n: nat): int {
    x / Pow2(ShiftAmount(n))
  }

  /** p contains q: same family, q at least as long, equal leading bits. */
  predicate Contains(p: Prefix, q: Prefix) {
    if p.v4 != q.v4 || q.len < p.len then false
    else Shr(Significant(q), q.len - p.len) == Significant(p)
  }

  predicate IsCoveredBy(p: Prefix, q: Prefix) {
    Contains(q, p)
  }

  predicate Matches(p: Prefix, addr: IpAddr) {
    Contains(p, FromIp(addr))
  }

  predicate CoveredBySome(p: Prefix, list: seq<Prefix>) {
    exists i :: 0 <= i < |list| && IsCoveredBy(p, list[i])
  }

  // ----- the interval of addresses a prefix stands for -----

  function Lo(p: Prefix): nat { p.bits }

  function Hi(p: Prefix): nat { p.bits + Pow2(128 - p.len) }

  /** The interval of p includes that of q. */
  predicate Includes(p: Prefix, q: Prefix) {
    p.v4 == q.v4 && Lo(p) <= Lo(q) && Hi(q) <= Hi(p)
  }

  /** The interval of p holds an address. */
  predicate Holds(p: Prefix, addr: IpAddr) {
    p.v4 == addr.V4? && Lo(p) <= Lo(FromIp(addr)) < Hi(p)
  }

  /** `::/0`. */
  const DEFAULT6: Prefix := PrefixRep(0, 0, false)

  /** One IPv6 address other than `::`. */
  predicate Host6(q: Prefix) {
    !q.v4 && q.len == 128 && q.bits != 0
  }

  /**
   * The one pair that containment gets wrong: the shift is by the whole word. A build with overflow checks stops at it,
   * one without them shifts by nothing.
   */
  predicate Escapes(p: Prefix, q: Prefix) {
    p == DEFAULT6 && Host6(q)
  }

  lemma SignificantAligned(p: Prefix, q: Prefix)
    requires p.len <= q.len
    ensures Significant(q) / Pow2(q.len - p.len) == q.bits / Pow2(128 - p.len)
  {
    Pow2Add(128 - q.len, q.len - p.len);
    DivDiv(q.bits, Pow2(128 - q.len), Pow2(q.len - p.len));
    if q.len == 0 { Pow2Of128(); DivUnique(q.bits, TWO_128, 0, q.bits); }
  }

  lemma SameBlock(x: nat, base: nat, size: nat)
    requires size > 0 && base % size == 0
    ensures x / size == base / size <==> base <= x < base + size
  {
    assert base == size * (base / size);
    assert x == size * (x / size) + x % size;
    if base <= x < base + size {
      DivUnique(x, size, base / size, x - base);
    }
  }

  /** Two multiples of d are equal or at least d apart. */
  lemma MultiplesApart(x: nat, y: nat, d: nat)
    requires d > 0 && x % d == 0 && y % d == 0 && x < y
    ensures x + d <= y
  {
    assert x == d * (x / d) && y == d * (y / d);
    if y / d <= x / d { MulLe(y / d, x / d, d); }
    MulLe(x / d + 1, y / d, d);
    assert d * (x / d + 1) == x + d;
  }

  lemma {:induction false} FinerMultiple(x: nat, m: nat, n: nat)
    requires m <= n && x % Pow2(n) == 0
    ensures x % Pow2(m) == 0
  {
    Pow2Add(n - m, m);
    var q := x / Pow2(n);
    assert x == Pow2(n) * q;
    assert Pow2(n - m) * Pow2(m) * q == (Pow2(n - m) * q) * Pow2(m);
    ModMultiple(Pow2(n - m) * q, Pow2(m));
  }

  lemma SumMultiple(x: nat, y: nat, d: nat)
    requires d > 0 && x % d == 0 && y % d == 0
    ensures (x + y) % d == 0
  {
    assert x == d * (x / d) && y == d * (y / d);
    assert x + y == (x / d + y / d) * d;
    ModMultiple(x / d + y / d, d);
  }

  /** A prefix ends on a multiple of every block size up to its own. */
  lemma HiMultiple(p: Prefix, n: nat)
    requires n <= 128 - p.len
    ensures Hi(p) % Pow2(n) == 0 && Lo(p) % Pow2(n) == 0
  {
    FinerMultiple(p.bits, n, 128 - p.len);
    ModMultiple(1, Pow2(128 - p.len));
    FinerMultiple(Pow2(128 - p.len), n, 128 - p.len);
    SumMultiple(p.bits, Pow2(128 - p.len), Pow2(n));
  }

  /** Where the shift stays inside the word it compares leading bits. */
  lemma ShiftTest(p: Prefix, q: Prefix)
    requires p.v4 == q.v4 && p.len <= q.len < p.len + 128
    ensures Contains(p, q) <==> Includes(p, q)
  {
    SignificantAligned(p, q);
    SignificantAligned(p, p);
    SameBlock(q.bits, p.bits, Pow2(128 - p.len));
    HiMultiple(p, 128 - q.len);
    if Lo(p) <= Lo(q) < Hi(p) {
      MultiplesApart(Lo(q), Hi(p), Pow2(128 - q.len));
    }
  }

  /** The shift by a whole word leaves the address as it is. */
  lemma WholeWord(q: Prefix)
    requires !q.v4 && q.len == 128
    ensures Contains(DEFAULT6, q) <==> q.bits == 0
    ensures Includes(DEFAULT6, q)
  {
    HiAtMost(q);
    Pow2Of128();
    assert Pow2(0) == 1;
  }

  /** The shift test is interval inclusion exactly off the pair of `::/0` and a single address. */
  lemma ContainsIsIntervalInclusion(p: Prefix, q: Prefix)
    ensures (Contains(p, q) <==> Includes(p, q)) <==> !Escapes(p, q)
    ensures Contains(p, q) <==> Includes(p, q) && !Escapes(p, q)
  {
    if q.len < p.len {
      Pow2Monotone(128 - p.len, 128 - q.len);
    } else if p.v4 == q.v4 {
      if q.len < p.len + 128 { ShiftTest(p, q); } else { OnlyDefault(p); WholeWord(q); }
    }
  }

  lemma OnlyDefault(p: Prefix)
    requires !p.v4 && p.len == 0
    ensures p == DEFAULT6
  {
    Pow2Of128();
    DivUnique(p.bits, TWO_128, 0, p.bits);
  }

  lemma MatchesIsMembership(p: Prefix, addr: IpAddr)
    ensures (Matches(p, addr) <==> Holds(p, addr)) <==> !Escapes(p, FromIp(addr))
    ensures Matches(p, addr) <==> Holds(p, addr) && !Escapes(p, FromIp(addr))
  {
    var q := FromIp(addr);
    ContainsIsIntervalInclusion(p, q);
    if p.v4 == q.v4 && Lo(q) < Hi(p) {
      HiMultiple(p, 128 - q.len);
      MultiplesApart(Lo(q), Hi(p), Pow2(128 - q.len));
    }
  }

  /** `::/0` contains `::/64`, which contains `::1`, which `::/0` does not contain. */
  lemma DefaultMissesHost()
    ensures var mid: Prefix := PrefixRep(0, 64, false);
            var host: Prefix := PrefixRep(1, 128, false);
            && Contains(DEFAULT6, mid) && Contains(mid, host) && !Contains(DEFAULT6, host)
            && Includes(DEFAULT6, host) && !Matches(DEFAULT6, V6(1)) && Holds(DEFAULT6, V6(1))
  {
    var mid: Prefix := PrefixRep(0, 64, false);
    var host: Prefix := PrefixRep(1, 128, false);
    Pow2Of128();
    Pow2Monotone(64, 128);
    Pow2Monotone(1, 64);
    assert Pow2(1) == 2;
    ContainsIsIntervalInclusion(DEFAULT6, mid);
    ContainsIsIntervalInclusion(mid, host);
    ContainsIsIntervalInclusion(DEFAULT6, host);
    MatchesIsMembership(DEFAULT6, V6(1));
  }

  /** The first and the last address under a prefix. */
  lemma EndAddresses(q: Prefix) returns (first: IpAddr, last: IpAddr)
    ensures first.V4? == q.v4 && last.V4? == q.v4
    ensures Lo(FromIp(first)) == Lo(q)
    ensures Lo(FromIp(last)) + Pow2(128 - FamilyLimit(q.v4)) == Hi(q)
  {
    HiMultiple(q, 128 - FamilyLimit(q.v4));
    Pow2Monotone(128 - FamilyLimit(q.v4), 128 - q.len);
    HiAtMost(q);
    if q.v4 {
      Pow2Of128();
      var a, b := Lo(q) / TWO_96, Hi(q) / TWO_96 - 1;
      MultipleRoundsToItself(Lo(q), TWO_96);
      MultipleRoundsToItself(Hi(q), TWO_96);
      first, last := V4(a), V4(b);
    } else {
      assert Pow2(0) == 1;
      first, last := V6(Lo(q)), V6(Hi(q) - 1);
    }
  }

  lemma HiAtMost(q: Prefix)
    ensures Hi(q) <= TWO_128
  {
    Pow2Of128();
    ModMultiple(1, TWO_128);
    FinerMultiple(TWO_128, 128 - q.len, 128);
    MultiplesApart(q.bits, TWO_128, Pow2(128 - q.len));
  }

  /** Every address of q is one of p. */
  ghost predicate AddressesIn(q: Prefix, p: Prefix) {
    forall a: IpAddr :: Holds(q, a) ==> Holds(p, a)
  }

  /** Interval inclusion is inclusion of the two sets of addresses. */
  lemma IncludesIsAddressInclusion(p: Prefix, q: Prefix)
    ensures Includes(p, q) <==> AddressesIn(q, p)
  {
    if !Includes(p, q) {
      var a := AddressOutside(p, q);
      assert Holds(q, a) && !Holds(p, a);
    }
  }

  lemma AddressOutside(p: Prefix, q: Prefix) returns (a: IpAddr)
    requires !Includes(p, q)
    ensures Holds(q, a) && !Holds(p, a)
  {
    var first, last := EndAddresses(q);
    a := if p.v4 != q.v4 || Lo(q) < Lo(p) then first else last;
    if p.v4 == q.v4 && Lo(p) <= Lo(q) {
      HiMultiple(q, 128 - FamilyLimit(q.v4));
      HiMultiple(p, 128 - FamilyLimit(q.v4));
      MultiplesApart(Hi(p), Hi(q), Pow2(128 - FamilyLimit(q.v4)));
    }
    Pow2Monotone(128 - FamilyLimit(q.v4), 128 - q.len);
  }

  /** `::/0` matches `::` alone, which every IPv6 prefix of zero bits matches too. */
  predicate Skewed(p: Prefix, q: Prefix) {
    !p.v4 && !q.v4 && ((p.len == 0 && 0 < q.len < 128) || (q.len == 0 && 0 < p.len && p.bits == 0))
  }

  /** Containment is inclusion of the two sets of matched addresses exactly off the pairs skewed by `::/0`. */
  lemma ContainsIsAddressInclusion(p: Prefix, q: Prefix)
    ensures (Contains(p, q) <==> forall a: IpAddr :: Matches(q, a) ==> Matches(p, a)) <==> !Skewed(p, q)
  {
    if !p.v4 && p.len == 0 {
      OnlyDefault(p);
      UnderDefault(q);
    } else if !q.v4 && q.len == 0 {
      OnlyDefault(q);
      OverDefault(p);
    } else {
      PlainInclusion(p, q);
    }
  }

  /** Off `::/0` matching is membership. */
  lemma PlainInclusion(p: Prefix, q: Prefix)
    requires p != DEFAULT6 && q != DEFAULT6
    ensures Contains(p, q) <==> forall a: IpAddr :: Matches(q, a) ==> Matches(p, a)
  {
    forall a: IpAddr
      ensures (Matches(q, a) <==> Holds(q, a)) && (Matches(p, a) <==> Holds(p, a))
    {
      MatchesIsMembership(q, a);
      MatchesIsMembership(p, a);
    }
    ContainsIsIntervalInclusion(p, q);
    IncludesIsAddressInclusion(p, q);
  }

  lemma DefaultMatches(a: IpAddr)
    ensures Matches(DEFAULT6, a) <==> a == V6(0)
  {
    if a.V6? { WholeWord(FromIp(a)); }
  }

  lemma HoldsFirst(q: Prefix) returns (first: IpAddr)
    ensures Matches(q, first) && Lo(FromIp(first)) == Lo(q)
  {
    var last;
    first, last := EndAddresses(q);
    MatchesIsMembership(q, first);
  }

  /** A prefix of more than one IPv6 address matches one that is not `::`. */
  lemma MatchesAnother(q: Prefix) returns (a: IpAddr)
    requires !q.v4 && 0 < q.len && (q.len < 128 || q.bits != 0)
    ensures Matches(q, a) && a != V6(0)
  {
    var first, last := EndAddresses(q);
    Pow2Monotone(1, if q.len < 128 then 128 - q.len else 1);
    assert Pow2(1) == 2 && Pow2(0) == 1;
    a := last;
    MatchesIsMembership(q, a);
  }

  lemma UnderDefault(q: Prefix)
    ensures (Contains(DEFAULT6, q) <==> forall a: IpAddr :: Matches(q, a) ==> Matches(DEFAULT6, a))
       <==> !(!q.v4 && 0 < q.len < 128)
  {
    ContainsIsIntervalInclusion(DEFAULT6, q);
    HiAtMost(q);
    Pow2Of128();
    var first := HoldsFirst(q);
    DefaultMatches(first);
    if !q.v4 && q.len == 128 && q.bits == 0 {
      forall a: IpAddr | Matches(q, a) ensures Matches(DEFAULT6, a) {
        MatchesIsMembership(q, a);
        assert Pow2(0) == 1;
        DefaultMatches(a);
      }
    } else if !q.v4 && q.len > 0 {
      var a := MatchesAnother(q);
      DefaultMatches(a);
    } else if !q.v4 {
      OnlyDefault(q);
    }
  }

  lemma OverDefault(p: Prefix)
    requires p.v4 || p.len > 0
    ensures (Contains(p, DEFAULT6) <==> forall a: IpAddr :: Matches(DEFAULT6, a) ==> Matches(p, a))
       <==> !(!p.v4 && p.bits == 0)
  {
    DefaultMatches(V6(0));
    MatchesIsMembership(p, V6(0));
    if Matches(p, V6(0)) {
      forall a: IpAddr | Matches(DEFAULT6, a) ensures Matches(p, a) { DefaultMatches(a); }
    }
  }

  /**
   * Two prefixes of one family are nested or match no common address; they are nested or have no common address
   * exactly off the pair of `::/0` and a single address.
   */
  lemma NestedOrDisjoint(p: Prefix, q: Prefix)
    requires p.v4 == q.v4
    ensures Contains(p, q) || Contains(q, p) || forall a: IpAddr :: !(Matches(p, a) && Matches(q, a))
    ensures (Contains(p, q) || Contains(q, p) || forall a: IpAddr :: !(Holds(p, a) && Holds(q, a)))
       <==> !Escapes(p, q) && !Escapes(q, p)
  {
    IncludedOrDisjoint(p, q);
    ContainsIsIntervalInclusion(p, q);
    ContainsIsIntervalInclusion(q, p);
    if Escapes(p, q) { EscapeApart(q); }
    if Escapes(q, p) { EscapeApart(p); }
    forall a: IpAddr ensures (Matches(p, a) ==> Holds(p, a)) && (Matches(q, a) ==> Holds(q, a)) {
      MatchesIsMembership(p, a);
      MatchesIsMembership(q, a);
    }
  }

  lemma IncludedOrDisjoint(p: Prefix, q: Prefix)
    requires p.v4 == q.v4
    ensures Includes(p, q) || Includes(q, p) || forall a: IpAddr :: !(Holds(p, a) && Holds(q, a))
  {
    if exists a: IpAddr :: Holds(p, a) && Holds(q, a) {
      if p.len <= q.len { Overlap(p, q); } else { Overlap(q, p); }
    }
  }

  /** `::/0` and a single address share that address, and match none together. */
  lemma EscapeApart(q: Prefix)
    requires Host6(q)
    ensures Holds(DEFAULT6, V6(q.bits)) && Holds(q, V6(q.bits)) && !Contains(q, DEFAULT6)
    ensures forall a: IpAddr :: !(Matches(DEFAULT6, a) && Matches(q, a))
  {
    Pow2Of128();
    assert Pow2(0) == 1;
    forall a: IpAddr ensures !(Matches(DEFAULT6, a) && Matches(q, a)) {
      DefaultMatches(a);
      MatchesIsMembership(q, a);
    }
  }

  lemma Overlap(p: Prefix, q: Prefix)
    requires p.len <= q.len && Lo(q) < Hi(p) && Lo(p) < Hi(q)
    ensures Lo(p) <= Lo(q) && Hi(q) <= Hi(p)
  {
    var n := 128 - q.len;
    HiMultiple(p, n);
    HiMultiple(q, n);
    MultiplesApart(Lo(q), Hi(p), Pow2(n));
    if Lo(q) < Lo(p) { MultiplesApart(Lo(q), Lo(p), Pow2(n)); }
  }

  /** Containment is a partial order, except that it is not transitive from `::/0` over a block to a single address. */
  lemma ContainsPartialOrder(p: Prefix, q: Prefix, r: Prefix)
    ensures Contains(p, p)
    ensures Contains(p, q) && Contains(q, p) ==> p == q
    ensures (Contains(p, q) && Contains(q, r) ==> Contains(p, r))
       <==> !(Escapes(p, r) && 0 < q.len < 128 && Includes(q, r))
  {
    ContainsIsIntervalInclusion(p, p);
    ContainsIsIntervalInclusion(p, q);
    ContainsIsIntervalInclusion(q, p);
    ContainsIsIntervalInclusion(q, r);
    ContainsIsIntervalInclusion(p, r);
    if !q.v4 && q.len == 0 { OnlyDefault(q); }
    if !q.v4 && q.len == 128 && !r.v4 && r.len == 128 { assert Pow2(0) == 1; }
    HiAtMost(q);
    Pow2Of128();
  }

  // ----- lists of blocks -----

  /** Some block of the list includes the prefix. */
  predicate WithinSome(p: Prefix, list: seq<Prefix>) {
    exists i :: 0 <= i < |list| && Includes(list[i], p)
  }

  /** A single IPv6 address that only `::/0` covers. */
  predicate Stranded(p: Prefix, list: seq<Prefix>) {
    Host6(p) && DEFAULT6 in list && forall i :: 0 <= i < |list| && Includes(list[i], p) ==> list[i] == DEFAULT6
  }

  /** A list covers a prefix exactly when a block of it includes it, unless only `::/0` does and it is one address. */
  lemma CoveredExactly(p: Prefix, list: seq<Prefix>)
    ensures (CoveredBySome(p, list) <==> WithinSome(p, list)) <==> !Stranded(p, list)
    ensures CoveredBySome(p, list) <==> WithinSome(p, list) && !Stranded(p, list)
  {
    forall i | 0 <= i < |list|
      ensures IsCoveredBy(p, list[i]) <==> Includes(list[i], p) && !Escapes(list[i], p)
    {
      ContainsIsIntervalInclusion(list[i], p);
    }
    if Stranded(p, list) {
      var i :| 0 <= i < |list| && list[i] == DEFAULT6;
      WholeWord(p);
      assert Includes(list[i], p);
    }
  }
}
