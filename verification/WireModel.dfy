/** The eBGP message format: what the encoder writes and what the decoder reads, as functions on byte strings. */
module WireModel {
  import opened Bytes
  import opened Prefixes

  const HEADER_LEN: nat := 19
  const MAX_MSG_LEN: nat := 4096
  const BGP_VERSION: byte := 4
  const AS_TRANS: u16 := 23456

  const TYPE_OPEN: byte := 1
  const TYPE_UPDATE: byte := 2
  const TYPE_NOTIFICATION: byte := 3
  const TYPE_KEEPALIVE: byte := 4
  const TYPE_ROUTE_REFRESH: byte := 5

  const AFI_IPV4: u16 := 1

  const CAP_MP_BGP: byte := 1
  const CAP_ROUTE_REFRESH: byte := 2
  const CAP_FOUR_OCTET_AS: byte := 65

  const AS_SET: byte := 1
  const AS_SEQUENCE: byte := 2

  datatype WireError =
    | BadMarker
    | BadLength(length: u16)
    | Truncated
    | BadOpen
    | BadUpdate
    | UnknownWellKnown(ty: byte)
    | TooLong
    | BadType(ty: byte)

  /** `Panic` is a slice bound violated at run time. */
  datatype Result<+T> = Ok(value: T) | Err(error: WireError) | Panic {
    predicate IsFailure() { !Ok? }
    function PropagateFailure<U>(): Result<U>
      requires !Ok?
    {
      if Err? then Err(error) else Panic
    }
    function Extract(): T
      requires Ok?
    {
      value
    }
  }

  datatype Capability = MpBgp(afi: u16, safi: byte) | RouteRefreshCap | FourOctetAs(asn: u32)

  datatype Segment = Segment(isSet: bool, asns: seq<u32>)

  datatype PathAttr =
    | Origin(origin: byte)
    | AsPath(segs: seq<Segment>)
    | As4Path(segs: seq<Segment>)
    | NextHop(hop: u32)
    | Communities(cs: seq<u32>)
    | MpReach(afi: u16, safi: byte, nextHop: IpAddr, nlri: seq<Prefix>)
    | MpUnreach(afi: u16, safi: byte, nlri: seq<Prefix>)

  datatype Message =
    | Open(as4: u32, holdTime: u16, bgpId: u32, capabilities: seq<Capability>)
    | Update(withdrawn: seq<Prefix>, attrs: seq<PathAttr>, announced: seq<Prefix>)
    | Notification(code: byte, subcode: byte, data: seq<byte>)
    | Keepalive
    | RouteRefresh(afi: u16, safi: byte)

  // ----- numbers -----

  function U16(v: u16): (r: seq<byte>)
    ensures |r| == 2
  {
    [v / 256, v % 256]
  }

  function From16(hi: byte, lo: byte): u16 {
    hi * 256 + lo
  }

  function U32(v: u32): (r: seq<byte>)
    ensures |r| == 4
  {
    [v / 0x100_0000, v / 0x1_0000 % 256, v / 256 % 256, v % 256]
  }

  function From32(a: byte, b: byte, c: byte, d: byte): u32 {
    a * 0x100_0000 + b * 0x1_0000 + c * 256 + d
  }

  // ----- encoding -----

  function NlriOctets(len: byte): nat {
    len / 8 + if len % 8 == 0 then 0 else 1
  }

  function WriteNlri(p: Prefix): (r: seq<byte>)
    ensures |r| == 1 + NlriOctets(p.len)
  {
    [p.len] + ToBE(p.bits, 16)[..NlriOctets(p.len)]
  }

  function WriteNlris(ps: seq<Prefix>): seq<byte> {
    if ps == [] then [] else WriteNlri(ps[0]) + WriteNlris(ps[1..])
  }

  function WriteAsns(asns: seq<u32>): (r: seq<byte>)
    ensures |r| == 4 * |asns|
  {
    if asns == [] then [] else U32(asns[0]) + WriteAsns(asns[1..])
  }

  /** The count octet keeps only the low eight bits of the number of ASNs. */
  function WriteSegment(seg: Segment): seq<byte> {
    [if seg.isSet then AS_SET else AS_SEQUENCE, |seg.asns| % 256] + WriteAsns(seg.asns)
  }

  function WriteSegments(segs: seq<Segment>): seq<byte> {
    if segs == [] then [] else WriteSegment(segs[0]) + WriteSegments(segs[1..])
  }

  function WriteNextHop(hop: IpAddr): (r: seq<byte>)
    ensures |r| == if hop.V4? then 5 else 17
  {
    match hop
    case V4(ip) => [4] + U32(ip)
    case V6(ip) => [16] + ToBE(ip, 16)
  }

  predicate HasV4(ps: seq<Prefix>) {
    exists i :: 0 <= i < |ps| && ps[i].v4
  }

  predicate HasV6(ps: seq<Prefix>) {
    exists i :: 0 <= i < |ps| && !ps[i].v4
  }

  function AttrType(attr: PathAttr): byte {
    match attr
    case Origin(_) => 1
    case AsPath(_) => 2
    case NextHop(_) => 3
    case Communities(_) => 8
    case MpReach(_, _, _, _) => 14
    case MpUnreach(_, _, _) => 15
    case As4Path(_) => 17
  }

  /** Well-known attributes are transitive; AS4_PATH is optional transitive; the rest is optional. */
  function AttrFlags(attr: PathAttr): byte {
    if attr.As4Path? then 0xC0
    else if attr.Communities? || attr.MpReach? || attr.MpUnreach? then 0x80
    else 0x40
  }

  function AttrValue(attr: PathAttr): seq<byte> {
    match attr
    case Origin(o) => [o]
    case AsPath(segs) => WriteSegments(segs)
    case As4Path(segs) => WriteSegments(segs)
    case NextHop(ip) => U32(ip)
    case Communities(cs) => WriteAsns(cs)
    case MpReach(afi, safi, hop, nlri) => U16(afi) + [safi] + WriteNextHop(hop) + [0] + WriteNlris(nlri)
    case MpUnreach(afi, safi, nlri) => U16(afi) + [safi] + WriteNlris(nlri)
  }

  /** The multiprotocol attributes carry no IPv4 prefix. */
  predicate AttrRejected(attr: PathAttr) {
    (attr.MpReach? || attr.MpUnreach?) && HasV4(attr.nlri)
  }

  /** A value of up to 255 octets has a short length, a longer one the extended-length flag and two octets. */
  function WriteAttr(attr: PathAttr): seq<byte> {
    var value := AttrValue(attr);
    if |value| > 255 then [AttrFlags(attr) + 0x10, AttrType(attr)] + U16(|value| % 0x1_0000) + value
    else [AttrFlags(attr), AttrType(attr), |value|] + value
  }

  function WriteAttrs(attrs: seq<PathAttr>): seq<byte> {
    if attrs == [] then [] else WriteAttr(attrs[0]) + WriteAttrs(attrs[1..])
  }

  function WriteCapability(cap: Capability): (r: seq<byte>)
    ensures |r| >= 2
  {
    match cap
    case MpBgp(afi, safi) => [CAP_MP_BGP, 4] + U16(afi) + [0, safi]
    case RouteRefreshCap => [CAP_ROUTE_REFRESH, 0]
    case FourOctetAs(asn) => [CAP_FOUR_OCTET_AS, 4] + U32(asn)
  }

  function WriteCapabilities(caps: seq<Capability>): seq<byte> {
    if caps == [] then [] else WriteCapability(caps[0]) + WriteCapabilities(caps[1..])
  }

  function MyAs(as4: u32): u16 {
    if as4 > 0xFFFF then AS_TRANS else as4
  }

  function MessageType(m: Message): byte {
    match m
    case Open(_, _, _, _) => TYPE_OPEN
    case Update(_, _, _) => TYPE_UPDATE
    case Notification(_, _, _) => TYPE_NOTIFICATION
    case Keepalive => TYPE_KEEPALIVE
    case RouteRefresh(_, _) => TYPE_ROUTE_REFRESH
  }

  /** The two length octets of the optional parameter wrap around when the capabilities take more than 253. */
  function OpenBody(as4: u32, holdTime: u16, bgpId: u32, caps: seq<byte>): seq<byte> {
    [BGP_VERSION] + U16(MyAs(as4)) + U16(holdTime) + U32(bgpId) + [(|caps| + 2) % 256, 2, |caps| % 256] + caps
  }

  function UpdateBody(withdrawn: seq<byte>, attrs: seq<byte>, announced: seq<byte>): seq<byte> {
    U16(|withdrawn| % 0x1_0000) + withdrawn + U16(|attrs| % 0x1_0000) + attrs + announced
  }

  predicate SomeRejected(attrs: seq<PathAttr>) {
    exists i :: 0 <= i < |attrs| && AttrRejected(attrs[i])
  }

  function EncodeBody(m: Message): Result<seq<byte>> {
    match m
    case Open(as4, holdTime, bgpId, capabilities) =>
      var caps := WriteCapabilities(capabilities);
      if |caps| > 255 then Err(TooLong) else Ok(OpenBody(as4, holdTime, bgpId, caps))
    case Update(withdrawn, attrs, announced) =>
      if HasV6(withdrawn) || HasV6(announced) then Err(BadUpdate)
      else if |WriteNlris(withdrawn)| > 0xFFFF then Err(TooLong)
      else if SomeRejected(attrs) then Err(BadUpdate)
      else if |WriteAttrs(attrs)| > 0xFFFF then Err(TooLong)
      else Ok(UpdateBody(WriteNlris(withdrawn), WriteAttrs(attrs), WriteNlris(announced)))
    case Notification(code, subcode, data) => Ok([code, subcode] + data)
    case Keepalive => Ok([])
    case RouteRefresh(afi, safi) => Ok(U16(afi) + [0, safi])
  }

  function Marker(): (r: seq<byte>)
    ensures |r| == 16 && forall i :: 0 <= i < 16 ==> r[i] == 0xff
  {
    seq(16, _ => 0xff)
  }

  function Frame(ty: byte, body: seq<byte>): seq<byte> {
    Marker() + U16((HEADER_LEN + |body|) % 0x1_0000) + [ty] + body
  }

  function Encode(m: Message): Result<seq<byte>> {
    var body :- EncodeBody(m);
    if HEADER_LEN + |body| > MAX_MSG_LEN then Err(TooLong) else Ok(Frame(MessageType(m), body))
  }

  // ----- decoding -----

  function Zeros(n: nat): (r: seq<byte>)
    ensures |r| == n && forall i :: 0 <= i < n ==> r[i] == 0
  {
    seq(n, _ => 0)
  }

  datatype Step<+T> = Step(item: T, rest: seq<byte>)

  /** The 16-byte word the octets of a prefix are copied into. */
  function PrefixWord(octets: seq<byte>): (r: u128)
    requires |octets| <= 16
  {
    ToBEFromBE(octets + Zeros(16 - |octets|));
    Pow2Of128();
    FromBE(octets + Zeros(16 - |octets|))
  }

  /** One prefix. A length octet above 128 overruns the 16-byte copy before the length is checked. */
  function NextNlri(buf: seq<byte>, v4: bool): (r: Result<Step<Prefix>>)
    requires buf != []
    ensures r.Ok? ==> |r.value.rest| < |buf|
  {
    var octets := NlriOctets(buf[0]);
    if |buf| < 1 + octets then Err(Truncated)
    else if octets > 16 then Panic
    else
      match New(PrefixWord(buf[1..1 + octets]), buf[0], v4)
      case None => Err(BadUpdate)
      case Some(p) => Ok(Step(p, buf[1 + octets..]))
  }

  function ReadNlris(buf: seq<byte>, v4: bool, got: seq<Prefix>): Result<seq<Prefix>>
    decreases |buf|
  {
    if buf == [] then Ok(got)
    else
      var s :- NextNlri(buf, v4);
      ReadNlris(s.rest, v4, got + [s.item])
  }

  /** Groups of four octets, or of two, as numbers; a tail that is too short is left out. */
  function ReadAsns(buf: seq<byte>, wide: bool): (r: seq<u32>)
    ensures |r| == |buf| / (if wide then 4 else 2)
  {
    if wide then
      if |buf| < 4 then [] else [From32(buf[0], buf[1], buf[2], buf[3])] + ReadAsns(buf[4..], wide)
    else
      if |buf| < 2 then [] else [From16(buf[0], buf[1])] + ReadAsns(buf[2..], wide)
  }

  function NextSegment(buf: seq<byte>, wide: bool): (r: Result<Step<Segment>>)
    requires buf != []
    ensures r.Ok? ==> |r.value.rest| < |buf|
  {
    if |buf| < 2 then Err(Truncated)
    else
      var count: nat := buf[1];
      var size := count * if wide then 4 else 2;
      if |buf| < 2 + size then Err(Truncated)
      else Ok(Step(Segment(buf[0] == AS_SET, ReadAsns(buf[2..2 + size], wide)), buf[2 + size..]))
  }

  function ReadSegments(buf: seq<byte>, wide: bool, got: seq<Segment>): Result<seq<Segment>>
    decreases |buf|
  {
    if buf == [] then Ok(got)
    else
      var s :- NextSegment(buf, wide);
      ReadSegments(s.rest, wide, got + [s.item])
  }

  /** An AS_PATH is read with four-octet ASNs if that consumes it exactly, else with two-octet ones. */
  function ReadAsPath(value: seq<byte>): Result<seq<Segment>> {
    var wide := ReadSegments(value, true, []);
    if wide.Ok? then wide else ReadSegments(value, false, [])
  }

  const MAPPED: seq<byte> := [0, 0, 0, 0, 0, 0, 0, 0, 0, 0, 0xff, 0xff]

  /** A next hop; an IPv4-mapped address is read as the IPv4 address. */
  function ReadNextHop(b: seq<byte>): Result<IpAddr> {
    if |b| == 4 then Ok(V4(From32(b[0], b[1], b[2], b[3])))
    else if |b| == 16 || |b| == 32 then
      if b[..12] == MAPPED then Ok(V4(From32(b[12], b[13], b[14], b[15])))
      else Ok(V6(PrefixWord(b[..16])))
    else Err(BadUpdate)
  }

  datatype ReachFields = ReachFields(afi: u16, safi: byte, hop: seq<byte>, nlri: seq<byte>)

  /** Cuts MP_REACH into its fields; the octet after the next hop is reserved. */
  function SplitMpReach(v: seq<byte>): Result<ReachFields> {
    if |v| < 4 then Err(Truncated)
    else
      var n: nat := v[3];
      if |v| < 4 + n + 1 then Err(Truncated)
      else Ok(ReachFields(From16(v[0], v[1]), v[2], v[4..4 + n], v[5 + n..]))
  }

  function ReadMpReach(v: seq<byte>): Result<PathAttr> {
    var f :- SplitMpReach(v);
    var hop :- ReadNextHop(f.hop);
    var nlri :- ReadNlris(f.nlri, f.afi == AFI_IPV4, []);
    Ok(MpReach(f.afi, f.safi, hop, nlri))
  }

  function ReadMpUnreach(v: seq<byte>): Result<PathAttr> {
    if |v| < 3 then Err(Truncated)
    else
      var afi := From16(v[0], v[1]);
      var nlri :- ReadNlris(v[3..], afi == AFI_IPV4, []);
      Ok(MpUnreach(afi, v[2], nlri))
  }

  /** What one attribute adds: an attribute, communities for the common list, or nothing. */
  datatype Found = Attr(attr: PathAttr) | MoreCommunities(cs: seq<u32>) | Skipped

  function ReadValue(ty: byte, optional: bool, value: seq<byte>): Result<Found> {
    if ty == 1 && |value| == 1 then Ok(Attr(Origin(value[0])))
    else if ty == 2 then
      var segs :- ReadAsPath(value);
      Ok(Attr(AsPath(segs)))
    else if ty == 3 && |value| == 4 then Ok(Attr(NextHop(From32(value[0], value[1], value[2], value[3]))))
    else if ty == 8 then
      if |value| % 4 != 0 then Err(BadUpdate) else Ok(MoreCommunities(ReadAsns(value, true)))
    else if ty == 14 then
      var a :- ReadMpReach(value);
      Ok(Attr(a))
    else if ty == 15 then
      var a :- ReadMpUnreach(value);
      Ok(Attr(a))
    else if ty == 17 then
      var segs :- ReadSegments(value, true, []);
      Ok(Attr(As4Path(segs)))
    else if optional then Ok(Skipped)
    else Err(UnknownWellKnown(ty))
  }

  datatype AttrFields = AttrFields(flags: byte, ty: byte, value: seq<byte>, rest: seq<byte>)

  /** Cuts the first attribute off; flag 0x10 announces a two-octet length. */
  function SplitAttr(buf: seq<byte>): (r: Result<AttrFields>)
    ensures r.Ok? ==> |r.value.rest| < |buf|
  {
    if |buf| < 2 then Err(Truncated)
    else
      var ext := buf[0] / 16 % 2 == 1;
      var hdr := if ext then 4 else 3;
      if |buf| < hdr then Err(Truncated)
      else
        var len := if ext then From16(buf[2], buf[3]) else buf[2];
        if |buf| < hdr + len then Err(Truncated)
        else Ok(AttrFields(buf[0], buf[1], buf[hdr..hdr + len], buf[hdr + len..]))
  }

  function NextAttr(buf: seq<byte>): (r: Result<Step<Found>>)
    requires buf != []
    ensures r.Ok? ==> |r.value.rest| < |buf|
  {
    var f :- SplitAttr(buf);
    var found :- ReadValue(f.ty, f.flags / 128 == 1, f.value);
    Ok(Step(found, f.rest))
  }

  /** Communities are gathered from all attributes and put at the end. */
  function Gathered(attrs: seq<PathAttr>, cs: seq<u32>): seq<PathAttr> {
    if cs == [] then attrs else attrs + [Communities(cs)]
  }

  function ReadAttrs(buf: seq<byte>, attrs: seq<PathAttr>, cs: seq<u32>): Result<seq<PathAttr>>
    decreases |buf|
  {
    if buf == [] then Ok(Gathered(attrs, cs))
    else
      var s :- NextAttr(buf);
      match s.item
      case Attr(a) => ReadAttrs(s.rest, attrs + [a], cs)
      case MoreCommunities(more) => ReadAttrs(s.rest, attrs, cs + more)
      case Skipped => ReadAttrs(s.rest, attrs, cs)
  }

  function ReadCapability(b: seq<byte>): Option<Capability>
    requires |b| >= 2
  {
    if b[0] == CAP_MP_BGP && |b| == 6 then Some(MpBgp(From16(b[2], b[3]), b[5]))
    else if b[0] == CAP_ROUTE_REFRESH && |b| == 2 then Some(RouteRefreshCap)
    else if b[0] == CAP_FOUR_OCTET_AS && |b| == 6 then Some(FourOctetAs(From32(b[2], b[3], b[4], b[5])))
    else None
  }

  /** A type-length-value item; both optional parameters and capabilities have this form. */
  function NextTlv(buf: seq<byte>): (r: Result<Step<seq<byte>>>)
    requires buf != []
    ensures r.Ok? ==> |r.value.rest| < |buf| && |r.value.item| >= 2 && |r.value.item| + |r.value.rest| == |buf|
  {
    if |buf| < 2 then Err(BadOpen)
    else
      var n: nat := buf[1];
      if |buf| < 2 + n then Err(BadOpen) else Ok(Step(buf[..2 + n], buf[2 + n..]))
  }

  /** The AS number and the capabilities read so far. */
  datatype OpenState = OpenState(as4: u32, caps: seq<Capability>)

  function AddCapability(st: OpenState, cap: Option<Capability>): OpenState {
    if cap.None? then st
    else OpenState(if cap.value.FourOctetAs? then cap.value.asn else st.as4, st.caps + [cap.value])
  }

  function ReadCapabilities(buf: seq<byte>, st: OpenState): Result<OpenState>
    decreases |buf|
  {
    if buf == [] then Ok(st)
    else
      var s :- NextTlv(buf);
      ReadCapabilities(s.rest, AddCapability(st, ReadCapability(s.item)))
  }

  function ReadParameters(buf: seq<byte>, st: OpenState): Result<OpenState>
    decreases |buf|
  {
    if buf == [] then Ok(st)
    else
      var s :- NextTlv(buf);
      if s.item[0] == 2 then
        var st' :- ReadCapabilities(s.item[2..], st);
        ReadParameters(s.rest, st')
      else ReadParameters(s.rest, st)
  }

  datatype OpenFields = OpenFields(myAs: u16, holdTime: u16, bgpId: u32, params: seq<byte>)

  function SplitOpen(body: seq<byte>): Result<OpenFields> {
    if |body| < 10 then Err(Truncated)
    else
      var n: nat := body[9];
      if |body| < 10 + n then Err(Truncated)
      else Ok(OpenFields(From16(body[1], body[2]), From16(body[3], body[4]),
                         From32(body[5], body[6], body[7], body[8]), body[10..10 + n]))
  }

  function DecodeOpen(body: seq<byte>): Result<Message> {
    var f :- SplitOpen(body);
    var st :- ReadParameters(f.params, OpenState(f.myAs, []));
    Ok(Open(st.as4, f.holdTime, f.bgpId, st.caps))
  }

  /** What follows the withdrawn routes: the attributes with their length, then the announced routes. */
  function DecodeUpdateTail(withdrawn: seq<Prefix>, tail: seq<byte>): Result<Message>
    requires |tail| >= 2
  {
    var alen: nat := From16(tail[0], tail[1]);
    if |tail| < 2 + alen then Err(Truncated)
    else
      var attrs :- ReadAttrs(tail[2..2 + alen], [], []);
      var announced :- ReadNlris(tail[2 + alen..], true, []);
      Ok(Update(withdrawn, attrs, announced))
  }

  function DecodeUpdate(body: seq<byte>): Result<Message> {
    if |body| < 4 then Err(Truncated)
    else
      var wlen: nat := From16(body[0], body[1]);
      if |body| < 4 + wlen then Err(Truncated)
      else
        var withdrawn :- ReadNlris(body[2..2 + wlen], true, []);
        DecodeUpdateTail(withdrawn, body[2 + wlen..])
  }

  function DecodeBody(ty: byte, body: seq<byte>): Result<Message> {
    if ty == TYPE_KEEPALIVE then Ok(Keepalive)
    else if ty == TYPE_OPEN then DecodeOpen(body)
    else if ty == TYPE_UPDATE then DecodeUpdate(body)
    else if ty == TYPE_NOTIFICATION then
      if |body| < 2 then Err(Truncated) else Ok(Notification(body[0], body[1], body[2..]))
    else if ty == TYPE_ROUTE_REFRESH then
      if |body| != 4 then Err(Truncated) else Ok(RouteRefresh(From16(body[0], body[1]), body[3]))
    else Err(BadType(ty))
  }

  predicate MarkerOk(buf: seq<byte>)
    requires |buf| >= 16
  {
    forall i :: 0 <= i < 16 ==> buf[i] == 0xff
  }

  /** One whole frame. */
  function Decode(buf: seq<byte>): Result<Message> {
    if |buf| < HEADER_LEN then Err(Truncated)
    else if !MarkerOk(buf) then Err(BadMarker)
    else
      var len := From16(buf[16], buf[17]);
      if len != |buf| then Err(BadLength(len)) else DecodeBody(buf[18], buf[HEADER_LEN..])
  }
}
