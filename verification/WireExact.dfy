/** The round trip holds for well-formed messages only: what the decoder can return at all. */
module WireExact {
  import opened Bytes
  import opened Prefixes
  import opened WireModel
  import opened WireRoundTrip

  // ----- the decoder's image -----

  lemma {:induction false} SegmentsRead(buf: seq<byte>, wide: bool, got: seq<Segment>)
    requires ShortSegments(got)
    ensures ReadSegments(buf, wide, got).Ok? ==> ShortSegments(ReadSegments(buf, wide, got).value)
    decreases |buf|
  {
    if buf != [] && NextSegment(buf, wide).Ok? {
      var s := NextSegment(buf, wide).value;
      SegmentRead(buf, wide);
      SegmentsRead(s.rest, wide, got + [s.item]);
    }
  }

  lemma SegmentRead(buf: seq<byte>, wide: bool)
    requires buf != [] && NextSegment(buf, wide).Ok?
    ensures |NextSegment(buf, wide).value.item.asns| <= 255
  {
    var count: nat := buf[1];
    var width := if wide then 4 else 2;
    assert |buf[2..2 + count * width]| == count * width;
    assert count * width / width == count;
  }

  lemma NlriRead(buf: seq<byte>, v4: bool)
    requires buf != [] && NextNlri(buf, v4).Ok?
    ensures NextNlri(buf, v4).value.item.v4 == v4
  {}

  lemma {:induction false} NlrisRead(buf: seq<byte>, got: seq<Prefix>)
    requires !HasV6(got)
    ensures ReadNlris(buf, true, got).Ok? ==> !HasV6(ReadNlris(buf, true, got).value)
    decreases |buf|
  {
    if buf != [] && NextNlri(buf, true).Ok? {
      var s := NextNlri(buf, true).value;
      NlriRead(buf, true);
      NlrisRead(s.rest, got + [s.item]);
    }
  }

  /** What every attribute the decoder returns satisfies. */
  predicate AttrReadable(attr: PathAttr) {
    match attr
    case AsPath(segs) => ShortSegments(segs)
    case As4Path(segs) => ShortSegments(segs)
    case MpReach(afi, _, _, nlri) => afi == AFI_IPV4 ==> !HasV6(nlri)
    case MpUnreach(afi, _, nlri) => afi == AFI_IPV4 ==> !HasV6(nlri)
    case _ => true
  }

  predicate AllReadable(attrs: seq<PathAttr>) {
    forall i :: 0 <= i < |attrs| ==> AttrReadable(attrs[i])
  }

  lemma ReachRead(v: seq<byte>)
    ensures ReadMpReach(v).Ok? ==> AttrReadable(ReadMpReach(v).value)
  {
    if SplitMpReach(v).Ok? { NlrisRead(SplitMpReach(v).value.nlri, []); }
  }

  lemma UnreachRead(v: seq<byte>)
    ensures ReadMpUnreach(v).Ok? ==> AttrReadable(ReadMpUnreach(v).value)
  {
    if |v| >= 3 { NlrisRead(v[3..], []); }
  }

  lemma ValueRead(ty: byte, optional: bool, value: seq<byte>)
    ensures var r := ReadValue(ty, optional, value); r.Ok? && r.value.Attr? ==> AttrReadable(r.value.attr)
  {
    if ty == 2 || ty == 17 {
      SegmentsRead(value, true, []);
      SegmentsRead(value, false, []);
    } else if ty == 14 {
      ReachRead(value);
    } else if ty == 15 {
      UnreachRead(value);
    }
  }

  lemma {:induction false} AttrsRead(buf: seq<byte>, got: seq<PathAttr>, cs: seq<u32>)
    requires AllReadable(got)
    ensures ReadAttrs(buf, got, cs).Ok? ==> AllReadable(ReadAttrs(buf, got, cs).value)
    decreases |buf|
  {
    if buf != [] && NextAttr(buf).Ok? {
      var f := SplitAttr(buf).value;
      ValueRead(f.ty, f.flags / 128 == 1, f.value);
      var s := NextAttr(buf).value;
      AttrsRead(s.rest, AfterAttr(got, s.item), AfterCommunities(cs, s.item));
    }
  }

  // ----- a message that survives was well formed -----

  lemma {:induction false} PlainMember(attrs: seq<PathAttr>, i: nat)
    requires i < |attrs| && !attrs[i].Communities?
    ensures FoundFor(attrs[i]).attr in PlainAttrs(attrs)
  {
    if i > 0 {
      PlainMember(attrs[1..], i - 1);
      assert attrs[1..][i - 1] == attrs[i];
    }
  }

  lemma ReadableWasWellFormed(attr: PathAttr)
    requires !attr.Communities? && !AttrRejected(attr) && AttrReadable(FoundFor(attr).attr)
    ensures AttrWellFormed(attr)
  {
    if attr.MpReach? || attr.MpUnreach? {
      NoPrefixes(attr.nlri);
    }
  }

  lemma NoPrefixes(nlri: seq<Prefix>)
    requires !HasV4(nlri)
    ensures nlri == [] || HasV6(nlri)
  {
    if nlri != [] { assert !nlri[0].v4; }
  }

  lemma SurvivingAttrs(attrs: seq<PathAttr>)
    requires AllReadable(NormalAttrs(attrs)) && !SomeRejected(attrs)
    ensures AllWellFormed(attrs)
  {
    var n := NormalAttrs(attrs);
    forall i | 0 <= i < |attrs| ensures AttrWellFormed(attrs[i]) {
      if !attrs[i].Communities? {
        PlainMember(attrs, i);
        assert FoundFor(attrs[i]).attr in n;
        ReadableWasWellFormed(attrs[i]);
      }
    }
  }

  lemma UpdateTailRead(withdrawn: seq<Prefix>, tail: seq<byte>)
    requires |tail| >= 2
    ensures var r := DecodeUpdateTail(withdrawn, tail); r.Ok? ==> r.value.Update? && AllReadable(r.value.attrs)
  {
    var alen: nat := From16(tail[0], tail[1]);
    if |tail| >= 2 + alen { AttrsRead(tail[2..2 + alen], [], []); }
  }

  lemma UpdateRead(body: seq<byte>)
    ensures DecodeUpdate(body).Ok? ==> DecodeUpdate(body).value.Update? && AllReadable(DecodeUpdate(body).value.attrs)
  {
    if |body| >= 4 {
      var wlen: nat := From16(body[0], body[1]);
      if |body| >= 4 + wlen && ReadNlris(body[2..2 + wlen], true, []).Ok? {
        UpdateTailRead(ReadNlris(body[2..2 + wlen], true, []).value, body[2 + wlen..]);
      }
    }
  }

  /** With 254 or 255 octets of capabilities the parameter length wraps around and they are lost. */
  lemma CapabilitiesLost(as4: u32, holdTime: u16, bgpId: u32, caps: seq<byte>)
    requires 254 <= |caps| <= 255
    ensures var r := DecodeOpen(OpenBody(as4, holdTime, bgpId, caps));
            if |caps| == 254 then r == Ok(Open(MyAs(as4), holdTime, bgpId, [])) else r == Err(BadOpen)
  {
    var x, y, z := U16(MyAs(as4)), U16(holdTime), U32(bgpId);
    var tail := [2, |caps|] + caps;
    var n: byte := |caps| - 254;
    assert OpenBody(as4, holdTime, bgpId, caps) == ([BGP_VERSION] + x + y + z) + [n] + tail;
    OpenHead(x, y, z);
    RoundTrip16(MyAs(as4));
    RoundTrip16(holdTime);
    RoundTrip32(bgpId);
    LostCut([BGP_VERSION] + x + y + z, n, tail);
    assert tail[..0] == [] && tail[..1] == [2];
  }

  lemma LostCut(head: seq<byte>, n: byte, tail: seq<byte>)
    requires |head| == 9 && n <= |tail|
    ensures var b := head + [n] + tail;
            SplitOpen(b) == Ok(OpenFields(From16(head[1], head[2]), From16(head[3], head[4]),
                                          From32(head[5], head[6], head[7], head[8]), tail[..n]))
  {
    var b := head + [n] + tail;
    assert b[10..10 + (n as int)] == tail[..n];
  }

  lemma CapabilitiesWritten(caps: seq<Capability>)
    ensures WriteCapabilities(caps) != [] ==> caps != []
  {}

  lemma BodyExactly(m: Message)
    requires EncodeBody(m).Ok?
    ensures DecodeBody(MessageType(m), EncodeBody(m).value) == Ok(Normal(m)) <==> WellFormed(m)
  {
    if WellFormed(m) {
      BodyRoundTrip(m);
    } else if m.Open? {
      CapabilitiesWritten(m.capabilities);
      CapabilitiesLost(m.as4, m.holdTime, m.bgpId, WriteCapabilities(m.capabilities));
    } else {
      UpdateRead(EncodeBody(m).value);
      if DecodeBody(MessageType(m), EncodeBody(m).value) == Ok(Normal(m)) {
        SurvivingAttrs(m.attrs);
      }
    }
  }

  /**
   * Of the messages that encode, exactly the well-formed ones come back: capabilities of at most 253 octets,
   * segments of at most 255 ASNs, and no prefixes under an IPv4 multiprotocol attribute.
   */
  lemma RoundTripExactly(m: Message)
    requires Encode(m).Ok?
    ensures Decode(Encode(m).value) == Ok(Normal(m)) <==> WellFormed(m)
  {
    BodyExactly(m);
    FrameRoundTrip(MessageType(m), EncodeBody(m).value);
  }

  lemma {:induction false} NormalAttrsIdempotent(attrs: seq<PathAttr>)
    ensures PlainAttrs(PlainAttrs(attrs)) == PlainAttrs(attrs) && AllCommunities(PlainAttrs(attrs)) == []
  {
    if attrs != [] {
      NormalAttrsIdempotent(attrs[1..]);
      var p := PlainAttrs(attrs);
      if !attrs[0].Communities? {
        assert p[1..] == PlainAttrs(attrs[1..]);
        assert FoundFor(FoundFor(attrs[0]).attr) == FoundFor(attrs[0]);
      }
    }
  }

  lemma {:induction false} PlainSnoc(a: seq<PathAttr>, cs: seq<u32>)
    ensures PlainAttrs(a + [Communities(cs)]) == PlainAttrs(a)
  {
    if a == [] {
      assert a + [Communities(cs)] == [Communities(cs)];
    } else {
      PlainSnoc(a[1..], cs);
      assert (a + [Communities(cs)])[1..] == a[1..] + [Communities(cs)];
    }
  }

  lemma {:induction false} CommunitiesSnoc(a: seq<PathAttr>, cs: seq<u32>)
    requires AllCommunities(a) == []
    ensures AllCommunities(a + [Communities(cs)]) == cs
  {
    if a == [] {
      assert a + [Communities(cs)] == [Communities(cs)];
      assert AllCommunities([Communities(cs)]) == cs + [];
    } else {
      CommunitiesSnoc(a[1..], cs);
      assert (a + [Communities(cs)])[1..] == a[1..] + [Communities(cs)];
    }
  }

  lemma {:induction false} LastAsAgain(as4: u32, other: u32, caps: seq<Capability>)
    ensures LastAs(LastAs(as4, caps), caps) == LastAs(as4, caps)
    ensures (exists i :: 0 <= i < |caps| && caps[i].FourOctetAs?) ==> LastAs(as4, caps) == LastAs(other, caps)
    ensures (forall i :: 0 <= i < |caps| ==> !caps[i].FourOctetAs?) ==> LastAs(as4, caps) == as4
    decreases |caps|
  {
    if caps != [] {
      var tail := caps[1..];
      assert forall i :: 0 <= i < |tail| ==> tail[i] == caps[i + 1];
      var here := if caps[0].FourOctetAs? then caps[0].asn else as4;
      LastAsAgain(here, if caps[0].FourOctetAs? then caps[0].asn else other, tail);
      LastAsAgain(here, if caps[0].FourOctetAs? then caps[0].asn else LastAs(as4, caps), tail);
    }
  }

  /** A second trip changes nothing more. */
  lemma NormalIdempotent(m: Message)
    ensures Normal(Normal(m)) == Normal(m)
  {
    match m
    case Open(as4, _, _, caps) => NormalOpenIdempotent(as4, caps);
    case Update(_, attrs, _) =>
      var p, cs := PlainAttrs(attrs), AllCommunities(attrs);
      NormalAttrsIdempotent(attrs);
      PlainSnoc(p, cs);
      CommunitiesSnoc(p, cs);
    case _ =>
  }

  lemma NormalOpenIdempotent(as4: u32, caps: seq<Capability>)
    ensures LastAs(MyAs(LastAs(MyAs(as4), caps)), caps) == LastAs(MyAs(as4), caps)
  {
    LastAsAgain(MyAs(as4), MyAs(LastAs(MyAs(as4), caps)), caps);
    LastAsAgain(MyAs(LastAs(MyAs(as4), caps)), 0, caps);
  }
}
