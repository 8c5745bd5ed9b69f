/** Decoding what was encoded: every message comes back in normal form, exactly when it is well formed. */
module WireRoundTrip {
  import opened Bytes
  import opened Prefixes
  import opened WireModel

  // ----- numbers -----

  lemma RoundTrip16(v: u16)
    ensures From16(U16(v)[0], U16(v)[1]) == v
  {}

  lemma Fits16(v: nat)
    requires v <= 0xFFFF
    ensures v % 0x1_0000 == v
  {}

  lemma RoundTrip32(v: u32)
    ensures var b := U32(v); From32(b[0], b[1], b[2], b[3]) == v
  {
    var n: nat := v;
    DivDiv(n, 256, 256);
    DivDiv(n, 0x1_0000, 256);
    FourFrom(n, n / 256, n / 0x1_0000, n / 0x100_0000);
  }

  lemma FourFrom(v: nat, v1: nat, v2: nat, v3: nat)
    requires v1 == v / 256 && v2 == v1 / 256 && v3 == v2 / 256
    ensures v == v3 * 0x100_0000 + v2 % 256 * 0x1_0000 + v1 % 256 * 256 + v % 256
  {}

  // ----- prefixes -----

  /** A multiple of 2^(8j) ends in j zero bytes. */
  lemma {:induction false} TrailingZeros(v: nat, n: nat, j: nat)
    requires j <= n && v % Pow2(8 * j) == 0
    ensures forall i :: n - j <= i < n ==> ToBE(v, n)[i] == 0
    decreases j
  {
    if j > 0 {
      ShiftedMultiple(v, j);
      TrailingZeros(v / 256, n - 1, j - 1);
    }
  }

  lemma ShiftedMultiple(v: nat, j: nat)
    requires j > 0 && v % Pow2(8 * j) == 0
    ensures v % 256 == 0 && v / 256 % Pow2(8 * (j - 1)) == 0
  {
    var d := Pow2(8 * (j - 1));
    Pow2Add(8 * (j - 1), 8);
    assert Pow2(8) == 256;
    var q := v / Pow2(8 * j);
    assert v == Pow2(8 * j) * q;
    assert d * 256 * q == (q * d) * 256;
    DivUnique(v, 256, q * d, 0);
    ModMultiple(q, d);
  }

  lemma CanonicalTail(p: Prefix)
    ensures p.len < 256 && NlriOctets(p.len) <= 16
    ensures ToBE(p.bits, 16) == ToBE(p.bits, 16)[..NlriOctets(p.len)] + Zeros(16 - NlriOctets(p.len))
  {
    var j := 16 - NlriOctets(p.len);
    FinerMultiple(p.bits, 8 * j, 128 - p.len);
    TrailingZeros(p.bits, 16, j);
  }

  lemma NlriRoundTrip(p: Prefix, rest: seq<byte>)
    ensures NextNlri(WriteNlri(p) + rest, p.v4) == Ok(Step(p, rest))
  {
    WordRoundTrip(p);
    NewCanonical(p);
    NlriCut(p, rest);
  }

  lemma WordRoundTrip(p: Prefix)
    ensures p.len < 256 && NlriOctets(p.len) <= 16 && PrefixWord(ToBE(p.bits, 16)[..NlriOctets(p.len)]) == p.bits
  {
    CanonicalTail(p);
    Pow2Of128();
    FromBEToBE(p.bits, 16);
  }

  lemma NlriCut(p: Prefix, rest: seq<byte>)
    requires NlriOctets(p.len) <= 16
    ensures var k, buf := NlriOctets(p.len), WriteNlri(p) + rest;
            |buf| >= 1 + k && buf[0] == p.len && buf[1..1 + k] == ToBE(p.bits, 16)[..k] && buf[1 + k..] == rest
  {}

  lemma NlrisStep(p: Prefix, rest: seq<byte>, got: seq<Prefix>)
    ensures ReadNlris(WriteNlri(p) + rest, p.v4, got) == ReadNlris(rest, p.v4, got + [p])
  {
    NlriRoundTrip(p, rest);
  }

  /** Moving the head of one list to the end of another. */
  lemma Rejoin<T>(a: seq<T>, s: seq<T>)
    requires s != []
    ensures a + [s[0]] + s[1..] == a + s
  {
    assert [s[0]] + s[1..] == s;
  }

  lemma {:induction false} NlrisRoundTrip(ps: seq<Prefix>, v4: bool, got: seq<Prefix>)
    requires forall i :: 0 <= i < |ps| ==> ps[i].v4 == v4
    ensures ReadNlris(WriteNlris(ps), v4, got) == Ok(got + ps)
    decreases |ps|
  {
    if ps == [] {
      assert got + ps == got;
    } else {
      NlrisStep(ps[0], WriteNlris(ps[1..]), got);
      NlrisRoundTrip(ps[1..], v4, got + [ps[0]]);
      Rejoin(got, ps);
    }
  }

  // ----- AS paths -----

  lemma {:induction false} AsnsRoundTrip(asns: seq<u32>)
    ensures ReadAsns(WriteAsns(asns), true) == asns
  {
    if asns != [] {
      AsnsRoundTrip(asns[1..]);
      RoundTrip32(asns[0]);
      var b := WriteAsns(asns);
      assert b[4..] == WriteAsns(asns[1..]);
    }
  }

  lemma SegmentCut(kind: byte, count: byte, body: seq<byte>, rest: seq<byte>)
    requires |body| == 4 * count
    ensures NextSegment([kind, count] + body + rest, true)
            == Ok(Step(Segment(kind == AS_SET, ReadAsns(body, true)), rest))
  {
    var buf := [kind, count] + body + rest;
    assert buf[0] == kind && buf[1] == count;
    assert buf[2..2 + |body|] == body && buf[2 + |body|..] == rest;
  }

  lemma SegmentRoundTrip(seg: Segment, rest: seq<byte>)
    requires |seg.asns| <= 255
    ensures NextSegment(WriteSegment(seg) + rest, true) == Ok(Step(seg, rest))
  {
    AsnsRoundTrip(seg.asns);
    assert |seg.asns| % 256 == |seg.asns|;
    SegmentCut(if seg.isSet then AS_SET else AS_SEQUENCE, |seg.asns|, WriteAsns(seg.asns), rest);
  }

  predicate ShortSegments(segs: seq<Segment>) {
    forall i :: 0 <= i < |segs| ==> |segs[i].asns| <= 255
  }

  lemma SegmentsStep(buf: seq<byte>, got: seq<Segment>, s: Step<Segment>)
    requires buf != [] && NextSegment(buf, true) == Ok(s)
    ensures ReadSegments(buf, true, got) == ReadSegments(s.rest, true, got + [s.item])
  {}

  lemma {:induction false} SegmentsRoundTrip(segs: seq<Segment>, got: seq<Segment>)
    requires ShortSegments(segs)
    ensures ReadSegments(WriteSegments(segs), true, got) == Ok(got + segs)
    decreases |segs|
  {
    if segs == [] {
      assert got + segs == got;
    } else {
      var head, tail := segs[0], segs[1..];
      SegmentsRoundTrip(tail, got + [head]);
      SegmentRoundTrip(head, WriteSegments(tail));
      SegmentsStep(WriteSegment(head) + WriteSegments(tail), got, Step(head, WriteSegments(tail)));
      assert got + [head] + tail == got + segs;
    }
  }

  // ----- next hops -----

  /** The IPv4-mapped block is read as IPv4. */
  function NormalHop(hop: IpAddr): IpAddr {
    match hop
    case V4(_) => hop
    case V6(ip) => if ip / 0x1_0000_0000 == 0xffff then V4(ip % 0x1_0000_0000) else hop
  }

  /** A number without its low n bytes. */
  function DropBytes(v: nat, n: nat): nat {
    if n == 0 then v else DropBytes(v / 256, n - 1)
  }

  lemma {:induction false} ToBESplit(v: nat, m: nat, n: nat)
    ensures ToBE(v, m + n) == ToBE(DropBytes(v, n), m) + ToBE(v, n)
    decreases n
  {
    if n > 0 { ToBESplit(v / 256, m, n - 1); }
  }

  lemma DropFour(v: nat)
    ensures DropBytes(v, 4) == v / 0x1_0000_0000
  {
    assert DropBytes(v, 4) == DropBytes(v / 256, 3) == DropBytes(v / 256 / 256, 2)
        == DropBytes(v / 256 / 256 / 256, 1) == v / 256 / 256 / 256 / 256;
  }

  lemma MappedBytes(v: nat)
    requires v < TWO_96
    ensures ToBE(v, 12) == MAPPED <==> v == 0xffff
  {
    Pow2Of128();
    FromBEToBE(v, 12);
    assert FromBE(MAPPED) == 0xffff by { MappedValue(); }
    ToBEFromBE(MAPPED);
  }

  lemma MappedValue()
    ensures FromBE(MAPPED) == 0xffff
  {
    assert MAPPED == Zeros(10) + [0xff, 0xff];
    ZerosValue(10);
    assert MAPPED[..11] == Zeros(10) + [0xff];
    assert MAPPED[..11][..10] == Zeros(10);
  }

  lemma {:induction false} ZerosValue(n: nat)
    ensures FromBE(Zeros(n)) == 0
  {
    if n > 0 {
      assert Zeros(n)[..n - 1] == Zeros(n - 1);
      ZerosValue(n - 1);
    }
  }

  lemma LowWord(v: nat)
    ensures ToBE(v, 4) == U32(v % 0x1_0000_0000)
  {
    LowDigits(v);
    assert ToBE(v / 256 / 256 / 256, 1) == [v / 256 / 256 / 256 % 256];
    assert ToBE(v / 256 / 256, 2) == ToBE(v / 256 / 256 / 256, 1) + [v / 256 / 256 % 256];
    assert ToBE(v / 256, 3) == ToBE(v / 256 / 256, 2) + [v / 256 % 256];
  }

  lemma LowDigits(v: nat)
    ensures var w := v % 0x1_0000_0000;
            && v / 256 / 256 / 256 % 256 == w / 0x100_0000
            && v / 256 / 256 % 256 == w / 0x1_0000 % 256
            && v / 256 % 256 == w / 256 % 256
            && v % 256 == w % 256
  {
    var v1 := v / 256;
    var v2 := v1 / 256;
    var v3 := v2 / 256;
    FourDigits(v3 / 256, v3 % 256, v2 % 256, v1 % 256, v % 256);
  }

  lemma FourDigits(q: nat, a: byte, b: byte, c: byte, d: byte)
    ensures var v := q * 0x1_0000_0000 + a * 0x100_0000 + b * 0x1_0000 + c * 256 + d;
            var w := v % 0x1_0000_0000;
            w / 0x100_0000 == a && w / 0x1_0000 % 256 == b && w / 256 % 256 == c && w % 256 == d
  {
    var w := a * 0x100_0000 + b * 0x1_0000 + c * 256 + d;
    DivUnique(q * 0x1_0000_0000 + w, 0x1_0000_0000, q, w);
    DivUnique(w, 0x100_0000, a, b * 0x1_0000 + c * 256 + d);
    DivUnique(w, 0x1_0000, a * 256 + b, c * 256 + d);
    DivUnique(a * 256 + b, 256, a, b);
    DivUnique(w, 256, a * 0x1_0000 + b * 256 + c, d);
    DivUnique(a * 0x1_0000 + b * 256 + c, 256, a * 256 + b, c);
  }

  lemma HopRoundTrip(hop: IpAddr)
    ensures ReadNextHop(WriteNextHop(hop)[1..]) == Ok(NormalHop(hop))
  {
    match hop
    case V4(ip) =>
      assert WriteNextHop(hop)[1..] == U32(ip);
      RoundTrip32(ip);
    case V6(ip) =>
      var b := ToBE(ip, 16);
      assert WriteNextHop(hop)[1..] == b;
      Hop6RoundTrip(ip);
  }

  lemma Hop6RoundTrip(ip: u128)
    ensures ReadNextHop(ToBE(ip, 16)) == Ok(NormalHop(V6(ip)))
  {
    var b := ToBE(ip, 16);
    ToBESplit(ip, 12, 4);
    DropFour(ip);
    assert b[..12] == ToBE(ip / 0x1_0000_0000, 12);
    assert b[12..] == ToBE(ip, 4);
    MappedBytes(ip / 0x1_0000_0000);
    if ip / 0x1_0000_0000 == 0xffff {
      LowWord(ip);
      RoundTrip32(ip % 0x1_0000_0000);
      assert [b[12], b[13], b[14], b[15]] == b[12..];
    } else {
      Pow2Of128();
      FromBEToBE(ip, 16);
      assert b[..16] + Zeros(0) == b;
    }
  }

  // ----- attributes -----

  /** What the decoder makes of an encoded attribute. */
  function FoundFor(attr: PathAttr): Found {
    match attr
    case Communities(cs) => MoreCommunities(cs)
    case MpReach(afi, safi, hop, nlri) => Attr(MpReach(afi, safi, NormalHop(hop), nlri))
    case _ => Attr(attr)
  }

  /** The count octet holds every segment's length, and a multiprotocol attribute with prefixes is not marked IPv4. */
  predicate AttrWellFormed(attr: PathAttr) {
    match attr
    case AsPath(segs) => ShortSegments(segs)
    case As4Path(segs) => ShortSegments(segs)
    case MpReach(afi, _, _, nlri) => afi == AFI_IPV4 ==> nlri == []
    case MpUnreach(afi, _, nlri) => afi == AFI_IPV4 ==> nlri == []
    case _ => true
  }

  lemma MpReachFields(afi: u16, safi: byte, hop: seq<byte>, nlri: seq<byte>)
    requires |hop| <= 255
    ensures SplitMpReach(U16(afi) + [safi] + ([|hop|] + hop) + [0] + nlri) == Ok(ReachFields(afi, safi, hop, nlri))
  {
    RoundTrip16(afi);
    var v := U16(afi) + [safi] + ([|hop|] + hop) + [0] + nlri;
    assert v == U16(afi) + [safi, |hop|] + hop + [0] + nlri;
    assert v[4..4 + |hop|] == hop;
    assert v[5 + |hop|..] == nlri;
  }

  lemma MpReachRoundTrip(afi: u16, safi: byte, hop: IpAddr, nlri: seq<Prefix>)
    requires afi == AFI_IPV4 ==> nlri == []
    requires !HasV4(nlri)
    ensures ReadMpReach(AttrValue(MpReach(afi, safi, hop, nlri))) == Ok(MpReach(afi, safi, NormalHop(hop), nlri))
  {
    ReachSplits(afi, safi, hop, nlri);
    HopRoundTrip(hop);
    NlrisRoundTrip(nlri, afi == AFI_IPV4, []);
    assert [] + nlri == nlri;
  }

  lemma ReachSplits(afi: u16, safi: byte, hop: IpAddr, nlri: seq<Prefix>)
    ensures SplitMpReach(AttrValue(MpReach(afi, safi, hop, nlri)))
            == Ok(ReachFields(afi, safi, WriteNextHop(hop)[1..], WriteNlris(nlri)))
  {
    var b := WriteNextHop(hop)[1..];
    assert WriteNextHop(hop) == [|b|] + b;
    MpReachFields(afi, safi, b, WriteNlris(nlri));
  }

  lemma MpUnreachRoundTrip(afi: u16, safi: byte, nlri: seq<Prefix>)
    requires afi == AFI_IPV4 ==> nlri == []
    requires !HasV4(nlri)
    ensures ReadMpUnreach(AttrValue(MpUnreach(afi, safi, nlri))) == Ok(MpUnreach(afi, safi, nlri))
  {
    MpUnreachFields(afi, safi, WriteNlris(nlri));
    NlrisRoundTrip(nlri, afi == AFI_IPV4, []);
    assert [] + nlri == nlri;
  }

  lemma MpUnreachFields(afi: u16, safi: byte, nlri: seq<byte>)
    ensures var v := U16(afi) + [safi] + nlri;
            |v| >= 3 && From16(v[0], v[1]) == afi && v[2] == safi && v[3..] == nlri
  {
    RoundTrip16(afi);
  }

  lemma ValueRoundTrip(attr: PathAttr)
    requires AttrWellFormed(attr) && !AttrRejected(attr)
    ensures ReadValue(AttrType(attr), AttrFlags(attr) >= 128, AttrValue(attr)) == Ok(FoundFor(attr))
  {
    match attr
    case Origin(_) =>
    case AsPath(segs) => PathValueRoundTrip(segs);
    case As4Path(segs) => PathValueRoundTrip(segs);
    case NextHop(ip) => RoundTrip32(ip);
    case Communities(cs) => AsnsRoundTrip(cs);
    case MpReach(afi, safi, hop, nlri) => MpReachRoundTrip(afi, safi, hop, nlri);
    case MpUnreach(afi, safi, nlri) => MpUnreachRoundTrip(afi, safi, nlri);
  }

  lemma PathValueRoundTrip(segs: seq<Segment>)
    requires ShortSegments(segs)
    ensures ReadSegments(WriteSegments(segs), true, []) == Ok(segs)
  {
    SegmentsRoundTrip(segs, []);
    assert [] + segs == segs;
  }

  lemma AttrRoundTrip(attr: PathAttr, rest: seq<byte>)
    requires AttrWellFormed(attr) && !AttrRejected(attr) && |AttrValue(attr)| <= 0xFFFF
    ensures NextAttr(WriteAttr(attr) + rest) == Ok(Step(FoundFor(attr), rest))
  {
    ValueRoundTrip(attr);
    HeaderRoundTrip(attr, rest);
  }

  /** Reading back the two forms of attribute header. */
  lemma HeaderRoundTrip(attr: PathAttr, rest: seq<byte>)
    requires |AttrValue(attr)| <= 0xFFFF
    ensures var r := SplitAttr(WriteAttr(attr) + rest);
            r.Ok? && r.value.ty == AttrType(attr) && r.value.value == AttrValue(attr) && r.value.rest == rest
            && (r.value.flags / 128 == 1 <==> AttrFlags(attr) >= 128)
  {
    var value := AttrValue(attr);
    if |value| > 255 {
      LongHeader(AttrFlags(attr) + 0x10, AttrType(attr), value, rest);
    } else {
      ShortHeader(AttrFlags(attr), AttrType(attr), value, rest);
    }
  }

  lemma LongHeader(flags: byte, ty: byte, value: seq<byte>, rest: seq<byte>)
    requires flags / 16 % 2 == 1 && |value| <= 0xFFFF
    ensures SplitAttr([flags, ty] + U16(|value| % 0x1_0000) + value + rest) == Ok(AttrFields(flags, ty, value, rest))
  {
    Fits16(|value|);
    RoundTrip16(|value|);
    LongCut(flags, ty, U16(|value|), value, rest);
  }

  lemma LongCut(flags: byte, ty: byte, len: seq<byte>, value: seq<byte>, rest: seq<byte>)
    requires flags / 16 % 2 == 1 && |len| == 2 && From16(len[0], len[1]) == |value|
    ensures SplitAttr([flags, ty] + len + value + rest) == Ok(AttrFields(flags, ty, value, rest))
  {
    var buf := [flags, ty] + len + value + rest;
    assert buf[0] == flags && buf[1] == ty && buf[2] == len[0] && buf[3] == len[1];
    assert buf[4..4 + |value|] == value;
    assert buf[4 + |value|..] == rest;
  }

  lemma ShortHeader(flags: byte, ty: byte, value: seq<byte>, rest: seq<byte>)
    requires flags / 16 % 2 == 0 && |value| <= 255
    ensures SplitAttr([flags, ty, |value|] + value + rest) == Ok(AttrFields(flags, ty, value, rest))
  {
    var buf := [flags, ty, |value|] + value + rest;
    assert buf[3..3 + |value|] == value;
    assert buf[3 + |value|..] == rest;
  }

  /** The attributes other than communities, next hops in normal form. */
  function PlainAttrs(attrs: seq<PathAttr>): seq<PathAttr> {
    if attrs == [] then []
    else
      var f := FoundFor(attrs[0]);
      if f.Attr? then [f.attr] + PlainAttrs(attrs[1..]) else PlainAttrs(attrs[1..])
  }

  function AllCommunities(attrs: seq<PathAttr>): seq<u32> {
    if attrs == [] then []
    else if attrs[0].Communities? then attrs[0].cs + AllCommunities(attrs[1..])
    else AllCommunities(attrs[1..])
  }

  function NormalAttrs(attrs: seq<PathAttr>): seq<PathAttr> {
    Gathered(PlainAttrs(attrs), AllCommunities(attrs))
  }

  predicate AllWellFormed(attrs: seq<PathAttr>) {
    forall i :: 0 <= i < |attrs| ==> AttrWellFormed(attrs[i])
  }

  lemma AttrSize(attr: PathAttr)
    ensures |WriteAttr(attr)| >= 3 + |AttrValue(attr)|
  {}

  lemma TailAttrs(attrs: seq<PathAttr>)
    requires attrs != [] && AllWellFormed(attrs) && !SomeRejected(attrs)
    ensures AttrWellFormed(attrs[0]) && !AttrRejected(attrs[0])
    ensures AllWellFormed(attrs[1..]) && !SomeRejected(attrs[1..])
  {
    var tail := attrs[1..];
    assert forall i :: 0 <= i < |tail| ==> tail[i] == attrs[i + 1];
  }

  function AfterAttr(got: seq<PathAttr>, f: Found): seq<PathAttr> {
    if f.Attr? then got + [f.attr] else got
  }

  function AfterCommunities(cs: seq<u32>, f: Found): seq<u32> {
    if f.MoreCommunities? then cs + f.cs else cs
  }

  lemma AttrsStep(head: PathAttr, tail: seq<byte>, got: seq<PathAttr>, cs: seq<u32>)
    requires AttrWellFormed(head) && !AttrRejected(head) && |AttrValue(head)| <= 0xFFFF
    ensures ReadAttrs(WriteAttr(head) + tail, got, cs)
         == ReadAttrs(tail, AfterAttr(got, FoundFor(head)), AfterCommunities(cs, FoundFor(head)))
  {
    AttrRoundTrip(head, tail);
    AttrSize(head);
  }

  lemma GatheredStep(attrs: seq<PathAttr>, got: seq<PathAttr>, cs: seq<u32>)
    requires attrs != []
    ensures var f := FoundFor(attrs[0]);
            && AfterAttr(got, f) + PlainAttrs(attrs[1..]) == got + PlainAttrs(attrs)
            && AfterCommunities(cs, f) + AllCommunities(attrs[1..]) == cs + AllCommunities(attrs)
  {}

  lemma {:induction false} AttrsRoundTrip(attrs: seq<PathAttr>, got: seq<PathAttr>, cs: seq<u32>)
    requires AllWellFormed(attrs) && !SomeRejected(attrs)
    requires |WriteAttrs(attrs)| <= 0xFFFF
    ensures ReadAttrs(WriteAttrs(attrs), got, cs) == Ok(Gathered(got + PlainAttrs(attrs), cs + AllCommunities(attrs)))
    decreases |attrs|
  {
    if attrs == [] {
      assert got + [] == got && cs + [] == cs;
    } else {
      TailAttrs(attrs);
      AttrSize(attrs[0]);
      var f := FoundFor(attrs[0]);
      AttrsRoundTrip(attrs[1..], AfterAttr(got, f), AfterCommunities(cs, f));
      AttrsStep(attrs[0], WriteAttrs(attrs[1..]), got, cs);
      GatheredStep(attrs, got, cs);
    }
  }

  // ----- capabilities -----

  lemma CapabilityRoundTrip(cap: Capability, rest: seq<byte>)
    ensures NextTlv(WriteCapability(cap) + rest) == Ok(Step(WriteCapability(cap), rest))
    ensures ReadCapability(WriteCapability(cap)) == Some(cap)
  {
    var w := WriteCapability(cap);
    var buf := w + rest;
    assert buf[1] == w[1] && |w| == 2 + w[1];
    assert buf[..|w|] == w && buf[|w|..] == rest;
    match cap
    case MpBgp(afi, _) => RoundTrip16(afi);
    case RouteRefreshCap =>
    case FourOctetAs(asn) => RoundTrip32(asn);
  }

  /** The AS number a list of capabilities leaves: that of the last four-octet capability. */
  function LastAs(as4: u32, caps: seq<Capability>): u32
    decreases |caps|
  {
    if caps == [] then as4
    else LastAs(if caps[0].FourOctetAs? then caps[0].asn else as4, caps[1..])
  }

  lemma CapabilitiesStep(cap: Capability, tail: seq<byte>, st: OpenState)
    ensures ReadCapabilities(WriteCapability(cap) + tail, st) == ReadCapabilities(tail, AddCapability(st, Some(cap)))
  {
    CapabilityRoundTrip(cap, tail);
  }

  lemma AddedCapability(st: OpenState, caps: seq<Capability>)
    requires caps != []
    ensures var st' := AddCapability(st, Some(caps[0]));
            LastAs(st'.as4, caps[1..]) == LastAs(st.as4, caps) && st'.caps + caps[1..] == st.caps + caps
  {
    Rejoin(st.caps, caps);
  }

  lemma {:induction false} CapabilitiesRoundTrip(caps: seq<Capability>, st: OpenState)
    ensures ReadCapabilities(WriteCapabilities(caps), st) == Ok(OpenState(LastAs(st.as4, caps), st.caps + caps))
    decreases |caps|
  {
    if caps == [] {
      assert st.caps + [] == st.caps;
    } else {
      CapabilitiesRoundTrip(caps[1..], AddCapability(st, Some(caps[0])));
      CapabilitiesStep(caps[0], WriteCapabilities(caps[1..]), st);
      AddedCapability(st, caps);
    }
  }

  lemma OneParameter(caps: seq<byte>, st: OpenState)
    requires |caps| <= 253
    ensures ReadParameters([2, |caps|] + caps, st) == ReadCapabilities(caps, st)
  {
    var buf := [2, |caps|] + caps;
    assert buf[..2 + |caps|] == buf && buf[2 + |caps|..] == [];
    assert buf[2..] == caps;
  }

  // ----- messages -----

  /** What a message becomes on the wire and back. */
  function Normal(m: Message): Message {
    match m
    case Open(as4, holdTime, bgpId, caps) => Open(LastAs(MyAs(as4), caps), holdTime, bgpId, caps)
    case Update(withdrawn, attrs, announced) => Update(withdrawn, NormalAttrs(attrs), announced)
    case _ => m
  }

  predicate WellFormed(m: Message) {
    match m
    case Open(_, _, _, caps) => |WriteCapabilities(caps)| <= 253
    case Update(_, attrs, _) => AllWellFormed(attrs)
    case _ => true
  }

  lemma OpenHead(x: seq<byte>, y: seq<byte>, z: seq<byte>)
    requires |x| == 2 && |y| == 2 && |z| == 4
    ensures var h := [BGP_VERSION] + x + y + z;
            |h| == 9 && h[1] == x[0] && h[2] == x[1] && h[3] == y[0] && h[4] == y[1]
            && h[5] == z[0] && h[6] == z[1] && h[7] == z[2] && h[8] == z[3]
  {}

  lemma OpenFieldsRead(as4: u32, holdTime: u16, bgpId: u32, caps: seq<byte>)
    requires |caps| <= 253
    ensures SplitOpen(OpenBody(as4, holdTime, bgpId, caps))
         == Ok(OpenFields(MyAs(as4), holdTime, bgpId, [2, |caps|] + caps))
  {
    var x, y, z := U16(MyAs(as4)), U16(holdTime), U32(bgpId);
    var params := [2, |caps|] + caps;
    assert OpenBody(as4, holdTime, bgpId, caps) == ([BGP_VERSION] + x + y + z) + [|params|] + params;
    OpenHead(x, y, z);
    OpenCut([BGP_VERSION] + x + y + z, |params|, params);
    RoundTrip16(MyAs(as4));
    RoundTrip16(holdTime);
    RoundTrip32(bgpId);
  }

  lemma OpenCut(head: seq<byte>, n: byte, params: seq<byte>)
    requires |head| == 9 && |params| == n
    ensures var b := head + [n] + params;
            SplitOpen(b) == Ok(OpenFields(From16(head[1], head[2]), From16(head[3], head[4]),
                From32(head[5], head[6], head[7], head[8]), params))
  {
    var b := head + [n] + params;
    assert b[10..10 + |params|] == params;
  }

  lemma OpenRoundTrip(as4: u32, holdTime: u16, bgpId: u32, capabilities: seq<Capability>)
    requires |WriteCapabilities(capabilities)| <= 253
    ensures DecodeOpen(OpenBody(as4, holdTime, bgpId, WriteCapabilities(capabilities)))
         == Ok(Open(LastAs(MyAs(as4), capabilities), holdTime, bgpId, capabilities))
  {
    var caps := WriteCapabilities(capabilities);
    OpenFieldsRead(as4, holdTime, bgpId, caps);
    OneParameter(caps, OpenState(MyAs(as4), []));
    CapabilitiesRoundTrip(capabilities, OpenState(MyAs(as4), []));
    assert [] + capabilities == capabilities;
  }

  lemma UpdateTailRead(y: seq<byte>, a: seq<byte>, n: seq<byte>, m: Message)
    requires |y| == 2 && From16(y[0], y[1]) == |a| && m.Update?
    requires ReadAttrs(a, [], []) == Ok(m.attrs) && ReadNlris(n, true, []) == Ok(m.announced)
    ensures DecodeUpdateTail(m.withdrawn, y + a + n) == Ok(m)
  {
    var t := y + a + n;
    assert t[2..2 + |a|] == a && t[2 + |a|..] == n;
  }

  lemma UpdateCut(x: seq<byte>, w: seq<byte>, y: seq<byte>, a: seq<byte>, n: seq<byte>)
    requires |x| == 2
    ensures var b := x + w + y + a + n;
            b[0] == x[0] && b[1] == x[1] && b[2..2 + |w|] == w && b[2 + |w|..] == y + a + n
  {}

  lemma UpdateRead(x: seq<byte>, w: seq<byte>, y: seq<byte>, a: seq<byte>, n: seq<byte>, m: Message)
    requires |x| == 2 && |y| == 2 && From16(x[0], x[1]) == |w| && From16(y[0], y[1]) == |a| && m.Update?
    requires ReadNlris(w, true, []) == Ok(m.withdrawn) && ReadAttrs(a, [], []) == Ok(m.attrs)
            && ReadNlris(n, true, []) == Ok(m.announced)
    ensures DecodeUpdate(x + w + y + a + n) == Ok(m)
  {
    UpdateCut(x, w, y, a, n);
    UpdateTailRead(y, a, n, m);
  }

  lemma UpdateRoundTrip(m: Message)
    requires m.Update? && EncodeBody(m).Ok? && WellFormed(m)
    ensures DecodeUpdate(EncodeBody(m).value) == Ok(Normal(m))
  {
    var w, a, n := WriteNlris(m.withdrawn), WriteAttrs(m.attrs), WriteNlris(m.announced);
    assert ReadNlris(w, true, []) == Ok(m.withdrawn) by {
      NlrisRoundTrip(m.withdrawn, true, []);
      assert [] + m.withdrawn == m.withdrawn;
    }
    assert ReadNlris(n, true, []) == Ok(m.announced) by {
      NlrisRoundTrip(m.announced, true, []);
      assert [] + m.announced == m.announced;
    }
    assert ReadAttrs(a, [], []) == Ok(NormalAttrs(m.attrs)) by {
      AttrsRoundTrip(m.attrs, [], []);
      assert [] + PlainAttrs(m.attrs) == PlainAttrs(m.attrs) && [] + AllCommunities(m.attrs) == AllCommunities(m.attrs);
    }
    Fits16(|w|);
    Fits16(|a|);
    RoundTrip16(|w|);
    RoundTrip16(|a|);
    UpdateRead(U16(|w|), w, U16(|a|), a, n, Normal(m));
  }

  lemma BodyRoundTrip(m: Message)
    requires EncodeBody(m).Ok? && WellFormed(m)
    ensures DecodeBody(MessageType(m), EncodeBody(m).value) == Ok(Normal(m))
  {
    match m
    case Open(as4, holdTime, bgpId, caps) => OpenRoundTrip(as4, holdTime, bgpId, caps);
    case Update(_, _, _) => UpdateRoundTrip(m);
    case Notification(code, subcode, data) => assert ([code, subcode] + data)[2..] == data;
    case Keepalive =>
    case RouteRefresh(afi, safi) => RoundTrip16(afi);
  }

  lemma FrameCut(marker: seq<byte>, len: seq<byte>, ty: byte, body: seq<byte>)
    requires |marker| == 16 && |len| == 2
    ensures var f := marker + len + [ty] + body;
            && |f| == HEADER_LEN + |body|
            && f[..16] == marker && f[16] == len[0] && f[17] == len[1] && f[18] == ty
            && f[HEADER_LEN..] == body
  {}

  lemma FrameRoundTrip(ty: byte, body: seq<byte>)
    requires HEADER_LEN + |body| <= MAX_MSG_LEN
    ensures var f := Frame(ty, body);
            |f| == HEADER_LEN + |body| && MarkerOk(f) && From16(f[16], f[17]) == |f|
                && Decode(f) == DecodeBody(ty, body)
  {
    Fits16(HEADER_LEN + |body|);
    var len := U16(HEADER_LEN + |body|);
    assert From16(len[0], len[1]) == HEADER_LEN + |body| by { RoundTrip16(HEADER_LEN + |body|); }
    FrameCut(Marker(), len, ty, body);
    var f := Marker() + len + [ty] + body;
    forall i | 0 <= i < 16 ensures f[i] == 0xff { assert f[i] == f[..16][i]; }
    FrameDecodes(f, ty, body);
  }

  lemma FrameDecodes(f: seq<byte>, ty: byte, body: seq<byte>)
    requires |f| == HEADER_LEN + |body| && MarkerOk(f) && From16(f[16], f[17]) == |f| && f[18] == ty
            && f[HEADER_LEN..] == body
    ensures Decode(f) == DecodeBody(ty, body)
  {}

  /** A well-formed message that encodes comes back in normal form. */
  lemma MessageRoundTrip(m: Message)
    requires Encode(m).Ok? && WellFormed(m)
    ensures Decode(Encode(m).value) == Ok(Normal(m))
  {
    BodyRoundTrip(m);
    FrameRoundTrip(MessageType(m), EncodeBody(m).value);
  }
}
