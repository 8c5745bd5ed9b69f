/**
 * The codec as it runs: loops that append to a buffer or shrink one, proved against the functions of the wire model.
 */
module Codec {
  import opened Bytes
  import opened Prefixes
  import opened WireModel
  import opened WirePanics

  // ----- encoding -----

  method WriteNlriList(out: seq<byte>, ps: seq<Prefix>) returns (r: seq<byte>)
    ensures r == out + WriteNlris(ps)
  {
    r := out;
    for i := 0 to |ps|
      invariant out + WriteNlris(ps) == r + WriteNlris(ps[i..])
    {
      r := r + WriteNlri(ps[i]);
      assert ps[i..][1..] == ps[i + 1..];
    }
  }

  method WriteAsnList(out: seq<byte>, asns: seq<u32>) returns (r: seq<byte>)
    ensures r == out + WriteAsns(asns)
  {
    r := out;
    for i := 0 to |asns|
      invariant out + WriteAsns(asns) == r + WriteAsns(asns[i..])
    {
      r := r + U32(asns[i]);
      assert asns[i..][1..] == asns[i + 1..];
    }
  }

  lemma Assoc(a: seq<byte>, b: seq<byte>, c: seq<byte>)
    ensures a + (b + c) == a + b + c
  {}

  lemma SegmentsFrom(segs: seq<Segment>, i: nat, v: seq<byte>)
    requires i < |segs|
    ensures v + WriteSegments(segs[i..]) ==
            v + [if segs[i].isSet then AS_SET else AS_SEQUENCE,
                |segs[i].asns| % 256] + WriteAsns(segs[i].asns) + WriteSegments(segs[i + 1..])
  {
    assert segs[i..][1..] == segs[i + 1..];
    var head := [if segs[i].isSet then AS_SET else AS_SEQUENCE, |segs[i].asns| % 256];
    Assoc(v, WriteSegment(segs[i]), WriteSegments(segs[i + 1..]));
    Assoc(v, head, WriteAsns(segs[i].asns));
  }

  method WriteSegmentList(segs: seq<Segment>) returns (r: seq<byte>)
    ensures r == WriteSegments(segs)
  {
    r := [];
    for i := 0 to |segs|
      invariant WriteSegments(segs) == r + WriteSegments(segs[i..])
    {
      var seg := segs[i];
      SegmentsFrom(segs, i, r);
      r := WriteAsnList(r + [if seg.isSet then AS_SET else AS_SEQUENCE, |seg.asns| % 256], seg.asns);
    }
  }

  /** The prefixes of a multiprotocol attribute; an IPv4 one is refused. */
  method WriteV6List(out: seq<byte>, ps: seq<Prefix>) returns (r: Result<seq<byte>>)
    ensures r == if HasV4(ps) then Err(BadUpdate) else Ok(out + WriteNlris(ps))
  {
    var v := out;
    for i := 0 to |ps|
      invariant out + WriteNlris(ps) == v + WriteNlris(ps[i..])
      invariant forall j :: 0 <= j < i ==> !ps[j].v4
    {
      if ps[i].v4 { return Err(BadUpdate); }
      v := v + WriteNlri(ps[i]);
      assert ps[i..][1..] == ps[i + 1..];
    }
    assert !HasV4(ps) && v == out + WriteNlris(ps);
    return Ok(v);
  }

  method WriteAttrValue(attr: PathAttr) returns (r: Result<seq<byte>>)
    ensures r == if AttrRejected(attr) then Err(BadUpdate) else Ok(AttrValue(attr))
  {
    match attr
    case Origin(o) => r := Ok([o]);
    case AsPath(segs) =>
      var v := WriteSegmentList(segs);
      r := Ok(v);
    case As4Path(segs) =>
      var v := WriteSegmentList(segs);
      r := Ok(v);
    case NextHop(ip) => r := Ok(U32(ip));
    case Communities(cs) =>
      var v := WriteAsnList([], cs);
      assert [] + WriteAsns(cs) == WriteAsns(cs);
      r := Ok(v);
    case MpReach(afi, safi, hop, nlri) =>
      r := WriteV6List(U16(afi) + [safi] + WriteNextHop(hop) + [0], nlri);
    case MpUnreach(afi, safi, nlri) =>
      r := WriteV6List(U16(afi) + [safi], nlri);
  }

  method WriteOneAttr(attr: PathAttr) returns (r: Result<seq<byte>>)
    ensures r == if AttrRejected(attr) then Err(BadUpdate) else Ok(WriteAttr(attr))
  {
    var value := WriteAttrValue(attr);
    if value.Err? { return value; }
    var v := value.value;
    r := Ok(if |v| > 255 then [AttrFlags(attr) + 0x10, AttrType(attr)] + U16(|v| % 0x1_0000) + v
            else [AttrFlags(attr), AttrType(attr), |v|] + v);
  }

  lemma AttrsFrom(attrs: seq<PathAttr>, i: nat, v: seq<byte>)
    requires i < |attrs|
    ensures v + WriteAttrs(attrs[i..]) == v + WriteAttr(attrs[i]) + WriteAttrs(attrs[i + 1..])
  {
    assert attrs[i..][1..] == attrs[i + 1..];
    Assoc(v, WriteAttr(attrs[i]), WriteAttrs(attrs[i + 1..]));
  }

  lemma CapabilitiesFrom(caps: seq<Capability>, i: nat, v: seq<byte>)
    requires i < |caps|
    ensures v + WriteCapabilities(caps[i..]) == v + WriteCapability(caps[i]) + WriteCapabilities(caps[i + 1..])
  {
    assert caps[i..][1..] == caps[i + 1..];
    Assoc(v, WriteCapability(caps[i]), WriteCapabilities(caps[i + 1..]));
  }

  method WriteAttrList(attrs: seq<PathAttr>) returns (r: Result<seq<byte>>)
    ensures r == if SomeRejected(attrs) then Err(BadUpdate) else Ok(WriteAttrs(attrs))
  {
    var v := [];
    for i := 0 to |attrs|
      invariant WriteAttrs(attrs) == v + WriteAttrs(attrs[i..])
      invariant forall j :: 0 <= j < i ==> !AttrRejected(attrs[j])
    {
      AttrsFrom(attrs, i, v);
      var w := WriteOneAttr(attrs[i]);
      if w.Err? { return w; }
      v := v + w.value;
    }
    assert v + WriteAttrs(attrs[|attrs|..]) == v;
    return Ok(v);
  }

  method WriteCapabilityList(caps: seq<Capability>) returns (r: seq<byte>)
    ensures r == WriteCapabilities(caps)
  {
    r := [];
    for i := 0 to |caps|
      invariant WriteCapabilities(caps) == r + WriteCapabilities(caps[i..])
    {
      CapabilitiesFrom(caps, i, r);
      r := r + WriteCapability(caps[i]);
    }
  }

  method WriteUpdate(m: Message) returns (r: Result<seq<byte>>)
    requires m.Update?
    ensures r == EncodeBody(m)
  {
    if HasV6(m.withdrawn) || HasV6(m.announced) { return Err(BadUpdate); }
    var w := WriteNlriList([], m.withdrawn);
    assert w == WriteNlris(m.withdrawn);
    if |w| > 0xFFFF { return Err(TooLong); }
    var a := WriteAttrList(m.attrs);
    if a.Err? { return a; }
    if |a.value| > 0xFFFF { return Err(TooLong); }
    var body := WriteNlriList(U16(|w| % 0x1_0000) + w + U16(|a.value| % 0x1_0000) + a.value, m.announced);
    return Ok(body);
  }

  method WriteBody(m: Message) returns (r: Result<seq<byte>>)
    ensures r == EncodeBody(m)
  {
    match m
    case Open(as4, holdTime, bgpId, capabilities) =>
      var caps := WriteCapabilityList(capabilities);
      r := if |caps| > 255 then Err(TooLong) else Ok(OpenBody(as4, holdTime, bgpId, caps));
    case Update(_, _, _) => r := WriteUpdate(m);
    case Notification(code, subcode, data) => r := Ok([code, subcode] + data);
    case Keepalive => r := Ok([]);
    case RouteRefresh(afi, safi) => r := Ok(U16(afi) + [0, safi]);
  }

  /** Appends a message: nineteen marker octets first, then the body, then length and type are patched in. */
  method EncodeMessage(m: Message, out: seq<byte>) returns (r: seq<byte>, error: Option<WireError>)
    ensures error.None? ==> Encode(m).Ok? && r == out + Encode(m).value
    ensures error.Some? ==> Encode(m) == Err(error.value) && out <= r
    ensures error == Some(TooLong) && EncodeBody(m).Ok? ==> r == out
  {
    r := out + Marker() + [0xff, 0xff, 0xff];
    var body := WriteBody(m);
    if body.Err? { return r, Some(body.error); }
    if HEADER_LEN + |body.value| > MAX_MSG_LEN { return out, Some(TooLong); }
    r := PatchHeader(out, body.value, MessageType(m));
    return r, None;
  }

  /** Length and type go over the last three octets of the header. */
  method PatchHeader(out: seq<byte>, body: seq<byte>, ty: byte) returns (r: seq<byte>)
    requires HEADER_LEN + |body| <= MAX_MSG_LEN
    ensures r == out + Frame(ty, body)
  {
    r := out + Marker() + [0xff, 0xff, 0xff] + body;
    var len := U16((HEADER_LEN + |body|) % 0x1_0000);
    r := r[|out| + 16 := len[0]][|out| + 17 := len[1]][|out| + 18 := ty];
    Patched(out, Marker(), len, ty, body);
  }

  lemma Patched(out: seq<byte>, marker: seq<byte>, len: seq<byte>, ty: byte, body: seq<byte>)
    requires |marker| == 16 && |len| == 2
    ensures (out + marker + [0xff, 0xff, 0xff] + body)[|out| + 16 := len[0]][|out| + 17 := len[1]][|out| + 18 := ty]
         == out + (marker + len + [ty] + body)
  {}

  // ----- decoding -----

  method ReadNlriList(data: seq<byte>, v4: bool) returns (r: Result<seq<Prefix>>)
    ensures r == ReadNlris(data, v4, [])
  {
    var buf, got := data, [];
    while buf != []
      invariant ReadNlris(data, v4, []) == ReadNlris(buf, v4, got)
      decreases |buf|
    {
      var s := NextNlri(buf, v4);
      if !s.Ok? { return s.PropagateFailure(); }
      got := got + [s.value.item];
      buf := s.value.rest;
    }
    return Ok(got);
  }

  method ReadAsnList(data: seq<byte>, wide: bool) returns (asns: seq<u32>)
    ensures asns == ReadAsns(data, wide)
  {
    asns := [];
    var width := if wide then 4 else 2;
    var buf := data;
    while |buf| >= width
      invariant ReadAsns(data, wide) == asns + ReadAsns(buf, wide)
      decreases |buf|
    {
      asns := asns + [if wide then From32(buf[0], buf[1], buf[2], buf[3]) else From16(buf[0], buf[1])];
      buf := buf[width..];
    }
  }

  method ReadSegmentList(data: seq<byte>, wide: bool) returns (r: Result<seq<Segment>>)
    ensures r == ReadSegments(data, wide, [])
  {
    var buf, got := data, [];
    while buf != []
      invariant ReadSegments(data, wide, []) == ReadSegments(buf, wide, got)
      decreases |buf|
    {
      if |buf| < 2 { return Err(Truncated); }
      var count: nat := buf[1];
      var size := count * if wide then 4 else 2;
      if |buf| < 2 + size { return Err(Truncated); }
      var asns := ReadAsnList(buf[2..2 + size], wide);
      got := got + [Segment(buf[0] == AS_SET, asns)];
      buf := buf[2 + size..];
    }
    return Ok(got);
  }

  method ReadReach(v: seq<byte>) returns (r: Result<PathAttr>)
    ensures r == ReadMpReach(v)
  {
    var f := SplitMpReach(v);
    if !f.Ok? { return f.PropagateFailure(); }
    var hop := ReadNextHop(f.value.hop);
    if !hop.Ok? { return hop.PropagateFailure(); }
    var nlri := ReadNlriList(f.value.nlri, f.value.afi == AFI_IPV4);
    if !nlri.Ok? { return nlri.PropagateFailure(); }
    return Ok(MpReach(f.value.afi, f.value.safi, hop.value, nlri.value));
  }

  method ReadUnreach(v: seq<byte>) returns (r: Result<PathAttr>)
    ensures r == ReadMpUnreach(v)
  {
    if |v| < 3 { return Err(Truncated); }
    var afi := From16(v[0], v[1]);
    var nlri := ReadNlriList(v[3..], afi == AFI_IPV4);
    if !nlri.Ok? { return nlri.PropagateFailure(); }
    return Ok(MpUnreach(afi, v[2], nlri.value));
  }

  method ReadPath(value: seq<byte>) returns (r: Result<seq<Segment>>)
    ensures r == ReadAsPath(value)
  {
    r := ReadSegmentList(value, true);
    if !r.Ok? { r := ReadSegmentList(value, false); }
  }

  method ReadAttrValue(ty: byte, optional: bool, value: seq<byte>) returns (r: Result<Found>)
    ensures r == ReadValue(ty, optional, value)
  {
    if ty == 2 {
      var segs := ReadPath(value);
      r := if segs.Ok? then Ok(Attr(AsPath(segs.value))) else segs.PropagateFailure();
    } else if ty == 8 && |value| % 4 == 0 {
      var cs := ReadAsnList(value, true);
      r := Ok(MoreCommunities(cs));
    } else if ty == 14 {
      var a := ReadReach(value);
      r := if a.Ok? then Ok(Attr(a.value)) else a.PropagateFailure();
    } else if ty == 15 {
      var a := ReadUnreach(value);
      r := if a.Ok? then Ok(Attr(a.value)) else a.PropagateFailure();
    } else if ty == 17 {
      var segs := ReadSegmentList(value, true);
      r := if segs.Ok? then Ok(Attr(As4Path(segs.value))) else segs.PropagateFailure();
    } else {
      r := ReadValue(ty, optional, value);
    }
  }

  method ReadAttrList(data: seq<byte>) returns (r: Result<seq<PathAttr>>)
    ensures r == ReadAttrs(data, [], [])
  {
    var buf, attrs, cs := data, [], [];
    while buf != []
      invariant ReadAttrs(data, [], []) == ReadAttrs(buf, attrs, cs)
      decreases |buf|
    {
      var f := SplitAttr(buf);
      if !f.Ok? { return f.PropagateFailure(); }
      var found := ReadAttrValue(f.value.ty, f.value.flags / 128 == 1, f.value.value);
      if !found.Ok? { return found.PropagateFailure(); }
      match found.value {
        case Attr(a) => attrs := attrs + [a];
        case MoreCommunities(more) => cs := cs + more;
        case Skipped =>
      }
      buf := f.value.rest;
    }
    return Ok(Gathered(attrs, cs));
  }

  method ReadCapabilityList(data: seq<byte>, start: OpenState) returns (r: Result<OpenState>)
    ensures r == ReadCapabilities(data, start)
  {
    var buf, st := data, start;
    while buf != []
      invariant ReadCapabilities(data, start) == ReadCapabilities(buf, st)
      decreases |buf|
    {
      var s := NextTlv(buf);
      if !s.Ok? { return s.PropagateFailure(); }
      st := AddCapability(st, ReadCapability(s.value.item));
      buf := s.value.rest;
    }
    return Ok(st);
  }

  method ReadParameterList(data: seq<byte>, start: OpenState) returns (r: Result<OpenState>)
    ensures r == ReadParameters(data, start)
  {
    var buf, st := data, start;
    while buf != []
      invariant ReadParameters(data, start) == ReadParameters(buf, st)
      decreases |buf|
    {
      var s := NextTlv(buf);
      if !s.Ok? { return s.PropagateFailure(); }
      if s.value.item[0] == 2 {
        var caps := ReadCapabilityList(s.value.item[2..], st);
        if !caps.Ok? { return caps; }
        st := caps.value;
      }
      buf := s.value.rest;
    }
    return Ok(st);
  }

  method DecodeOpenBody(body: seq<byte>) returns (r: Result<Message>)
    ensures r == DecodeOpen(body)
  {
    var f := SplitOpen(body);
    if !f.Ok? { return f.PropagateFailure(); }
    var st := ReadParameterList(f.value.params, OpenState(f.value.myAs, []));
    if !st.Ok? { return st.PropagateFailure(); }
    return Ok(Open(st.value.as4, f.value.holdTime, f.value.bgpId, st.value.caps));
  }

  method DecodeRest(withdrawn: seq<Prefix>, tail: seq<byte>) returns (r: Result<Message>)
    requires |tail| >= 2
    ensures r == DecodeUpdateTail(withdrawn, tail)
  {
    var alen: nat := From16(tail[0], tail[1]);
    if |tail| < 2 + alen { return Err(Truncated); }
    var attrs := ReadAttrList(tail[2..2 + alen]);
    if !attrs.Ok? { return attrs.PropagateFailure(); }
    var announced := ReadNlriList(tail[2 + alen..], true);
    if !announced.Ok? { return announced.PropagateFailure(); }
    return Ok(Update(withdrawn, attrs.value, announced.value));
  }

  method DecodeUpdateBody(body: seq<byte>) returns (r: Result<Message>)
    ensures r == DecodeUpdate(body)
  {
    if |body| < 4 { return Err(Truncated); }
    var wlen: nat := From16(body[0], body[1]);
    if |body| < 4 + wlen { return Err(Truncated); }
    var withdrawn := ReadNlriList(body[2..2 + wlen], true);
    if !withdrawn.Ok? { return withdrawn.PropagateFailure(); }
    r := DecodeRest(withdrawn.value, body[2 + wlen..]);
  }

  /** One whole frame. */
  method DecodeMessage(buf: seq<byte>) returns (r: Result<Message>)
    ensures r == Decode(buf)
    ensures r.Panic? <==> FrameOverruns(buf)
  {
    DecodePanicsExactly(buf);
    if |buf| < HEADER_LEN { return Err(Truncated); }
    if !MarkerOk(buf) { return Err(BadMarker); }
    var len := From16(buf[16], buf[17]);
    if len != |buf| { return Err(BadLength(len)); }
    var body := buf[HEADER_LEN..];
    if buf[18] == TYPE_OPEN {
      r := DecodeOpenBody(body);
    } else if buf[18] == TYPE_UPDATE {
      r := DecodeUpdateBody(body);
    } else {
      r := DecodeBody(buf[18], body);
    }
  }
}
