/** Exactly which frames make the decoder panic. */
module WirePanics {
  import opened Bytes
  import opened Prefixes
  import opened WireModel

  // ----- runs of prefixes -----

  /** The position of a length octet and that of the next one, over a prefix the family allows. */
  predicate Leads(buf: seq<byte>, from: nat, to: nat, v4: bool)
    decreases |buf| - from
  {
    from == to || (from < |buf| && buf[from] <= FamilyLimit(v4) && Leads(buf, from + 1 + NlriOctets(buf[from]), to, v4))
  }

  /** A length octet above 128 with all its octets behind it. */
  predicate Overrun(buf: seq<byte>, i: nat) {
    i < |buf| && buf[i] > 128 && i + NlriOctets(buf[i]) < |buf|
  }

  ghost predicate RunOverruns(buf: seq<byte>, from: nat, v4: bool) {
    exists i: nat :: Leads(buf, from, i, v4) && Overrun(buf, i)
  }

  lemma NextOverruns(buf: seq<byte>, from: nat, v4: bool, next: nat)
    requires from < |buf| && buf[from] <= FamilyLimit(v4) && next == from + 1 + NlriOctets(buf[from])
    ensures RunOverruns(buf, from, v4) <==> RunOverruns(buf, next, v4)
  {
    if RunOverruns(buf, from, v4) {
      var i: nat :| Leads(buf, from, i, v4) && Overrun(buf, i);
      assert Leads(buf, next, i, v4);
    }
    if RunOverruns(buf, next, v4) {
      var i: nat :| Leads(buf, next, i, v4) && Overrun(buf, i);
      assert Leads(buf, from, i, v4);
    }
  }

  lemma StepFrom(buf: seq<byte>, from: nat, v4: bool, next: nat)
    requires from < |buf| && next == from + 1 + NlriOctets(buf[from])
    ensures var r := NextNlri(buf[from..], v4);
            && (r.Panic? <==> Overrun(buf, from))
            && (r.Ok? <==> buf[from] <= FamilyLimit(v4) && next <= |buf|)
            && (r.Ok? ==> r.value.rest == buf[next..])
  {
    var tail, octets := buf[from..], NlriOctets(buf[from]);
    if 1 + octets <= |tail| { assert tail[1 + octets..] == buf[next..]; }
  }

  lemma RunEnds(buf: seq<byte>, from: nat, v4: bool)
    requires from < |buf| && buf[from] > FamilyLimit(v4)
    ensures RunOverruns(buf, from, v4) <==> Overrun(buf, from)
  {
    assert Leads(buf, from, from, v4);
  }

  lemma RunBeyond(buf: seq<byte>, from: nat, v4: bool)
    requires from >= |buf|
    ensures !RunOverruns(buf, from, v4)
  {}

  /** Reading a run panics exactly when a length octet it comes to overruns the 16-byte copy. */
  lemma {:induction false} RunPanics(buf: seq<byte>, from: nat, v4: bool, got: seq<Prefix>)
    requires from <= |buf|
    ensures ReadNlris(buf[from..], v4, got).Panic? <==> RunOverruns(buf, from, v4)
    decreases |buf| - from
  {
    if from == |buf| {
      RunBeyond(buf, from, v4);
    } else {
      var next := from + 1 + NlriOctets(buf[from]);
      StepFrom(buf, from, v4, next);
      if buf[from] > FamilyLimit(v4) {
        RunEnds(buf, from, v4);
      } else {
        NextOverruns(buf, from, v4, next);
        if next <= |buf| {
          RunPanics(buf, next, v4, got + [NextNlri(buf[from..], v4).value.item]);
        } else {
          RunBeyond(buf, next, v4);
        }
      }
    }
  }

  lemma NlrisPanic(buf: seq<byte>, v4: bool)
    ensures ReadNlris(buf, v4, []).Panic? <==> RunOverruns(buf, 0, v4)
  {
    assert buf[0..] == buf;
    RunPanics(buf, 0, v4, []);
  }

  // ----- attributes -----

  lemma {:induction false} SegmentsNoPanic(buf: seq<byte>, wide: bool, got: seq<Segment>)
    ensures !ReadSegments(buf, wide, got).Panic?
    decreases |buf|
  {
    if buf != [] && NextSegment(buf, wide).Ok? {
      var s := NextSegment(buf, wide).value;
      SegmentsNoPanic(s.rest, wide, got + [s.item]);
    }
  }

  /** The prefixes of the two multiprotocol attributes. */
  ghost predicate ValueOverruns(ty: byte, value: seq<byte>) {
    || (ty == 14 && SplitMpReach(value).Ok?
        && var f := SplitMpReach(value).value; |f.hop| in {4, 16, 32} && RunOverruns(f.nlri, 0, f.afi == AFI_IPV4))
    || (ty == 15 && |value| >= 3 && RunOverruns(value[3..], 0, From16(value[0], value[1]) == AFI_IPV4))
  }

  lemma ReachPanics(v: seq<byte>)
    ensures ReadMpReach(v).Panic? <==> ValueOverruns(14, v)
  {
    if SplitMpReach(v).Ok? {
      var f := SplitMpReach(v).value;
      NlrisPanic(f.nlri, f.afi == AFI_IPV4);
    }
  }

  lemma UnreachPanics(v: seq<byte>)
    ensures ReadMpUnreach(v).Panic? <==> ValueOverruns(15, v)
  {
    if |v| >= 3 { NlrisPanic(v[3..], From16(v[0], v[1]) == AFI_IPV4); }
  }

  lemma PathsNoPanic(ty: byte, optional: bool, value: seq<byte>)
    requires ty == 2 || ty == 17
    ensures !ReadValue(ty, optional, value).Panic?
  {
    SegmentsNoPanic(value, true, []);
    SegmentsNoPanic(value, false, []);
  }

  lemma ValuePanics(ty: byte, optional: bool, value: seq<byte>)
    ensures ReadValue(ty, optional, value).Panic? <==> ValueOverruns(ty, value)
  {
    if ty == 14 {
      ReachPanics(value);
    } else if ty == 15 {
      UnreachPanics(value);
    } else if ty == 2 || ty == 17 {
      PathsNoPanic(ty, optional, value);
    }
  }

  /** Where the attribute after one that is read starts. */
  function AttrNext(buf: seq<byte>, from: nat): (next: nat)
    requires from < |buf| && NextAttr(buf[from..]).Ok?
    ensures from < next <= |buf|
  {
    |buf| - |NextAttr(buf[from..]).value.rest|
  }

  /** The start of an attribute and that of the next one, over an attribute that is read. */
  predicate AttrLeads(buf: seq<byte>, from: nat, to: nat)
    decreases |buf| - from
  {
    from == to || (from < |buf| && NextAttr(buf[from..]).Ok? && AttrLeads(buf, AttrNext(buf, from), to))
  }

  ghost predicate AttrOverruns(buf: seq<byte>, i: nat) {
    i < |buf| && SplitAttr(buf[i..]).Ok? && ValueOverruns(SplitAttr(buf[i..]).value.ty, SplitAttr(buf[i..]).value.value)
  }

  ghost predicate AttrsOverrun(buf: seq<byte>, from: nat) {
    exists i: nat :: AttrLeads(buf, from, i) && AttrOverruns(buf, i)
  }

  lemma AttrPanics(buf: seq<byte>, i: nat)
    requires i < |buf|
    ensures NextAttr(buf[i..]).Panic? <==> AttrOverruns(buf, i)
  {
    if SplitAttr(buf[i..]).Ok? {
      var f := SplitAttr(buf[i..]).value;
      ValuePanics(f.ty, f.flags / 128 == 1, f.value);
    }
  }

  lemma AttrRest(buf: seq<byte>, from: nat, next: nat)
    requires from < |buf| && NextAttr(buf[from..]).Ok? && next == AttrNext(buf, from)
    ensures from < next && NextAttr(buf[from..]).value.rest == buf[next..]
  {
    var tail := buf[from..];
    var f := SplitAttr(tail).value;
    assert f.rest == tail[|tail| - |f.rest|..];
  }

  lemma AttrLeadsNext(buf: seq<byte>, from: nat, next: nat, i: nat)
    requires from < |buf| && NextAttr(buf[from..]).Ok? && next == AttrNext(buf, from)
    ensures AttrLeads(buf, from, i) <==> from == i || AttrLeads(buf, next, i)
  {}

  lemma AttrsOverrunNext(buf: seq<byte>, from: nat, next: nat)
    requires from < |buf| && NextAttr(buf[from..]).Ok? && next == AttrNext(buf, from)
    ensures AttrsOverrun(buf, from) <==> AttrsOverrun(buf, next)
  {
    AttrPanics(buf, from);
    forall i: nat ensures AttrLeads(buf, from, i) <==> from == i || AttrLeads(buf, next, i) {
      AttrLeadsNext(buf, from, next, i);
    }
    SameOverrun(buf, from, next);
  }

  lemma SameOverrun(buf: seq<byte>, from: nat, next: nat)
    requires !AttrOverruns(buf, from)
    requires forall i: nat :: AttrLeads(buf, from, i) <==> from == i || AttrLeads(buf, next, i)
    ensures AttrsOverrun(buf, from) <==> AttrsOverrun(buf, next)
  {}

  lemma ReadAttrsNext(tail: seq<byte>, attrs: seq<PathAttr>, cs: seq<u32>)
      returns (attrs': seq<PathAttr>, cs': seq<u32>)
    requires tail != [] && NextAttr(tail).Ok?
    ensures ReadAttrs(tail, attrs, cs) == ReadAttrs(NextAttr(tail).value.rest, attrs', cs')
  {
    attrs', cs' := attrs, cs;
    match NextAttr(tail).value.item
    case Attr(a) => attrs' := attrs + [a];
    case MoreCommunities(more) => cs' := cs + more;
    case Skipped =>
  }

  lemma ReadAttrsStops(buf: seq<byte>, from: nat, attrs: seq<PathAttr>, cs: seq<u32>)
    requires from < |buf| && !NextAttr(buf[from..]).Ok?
    ensures ReadAttrs(buf[from..], attrs, cs).Panic? <==> AttrsOverrun(buf, from)
  {
    AttrPanics(buf, from);
    assert AttrsOverrun(buf, from) <==> AttrOverruns(buf, from) by { assert AttrLeads(buf, from, from); }
  }

  /** Reading attributes panics exactly at a multiprotocol attribute with such a run, all before it being read. */
  lemma {:induction false} AttrsPanic(buf: seq<byte>, from: nat, attrs: seq<PathAttr>, cs: seq<u32>)
    requires from <= |buf|
    ensures ReadAttrs(buf[from..], attrs, cs).Panic? <==> AttrsOverrun(buf, from)
    decreases |buf| - from
  {
    if from == |buf| {
      AttrsEnd(buf, attrs, cs);
    } else if NextAttr(buf[from..]).Ok? {
      var next := AttrNext(buf, from);
      AttrRest(buf, from, next);
      AttrsOverrunNext(buf, from, next);
      var attrs', cs' := ReadAttrsNext(buf[from..], attrs, cs);
      AttrsPanic(buf, next, attrs', cs');
    } else {
      ReadAttrsStops(buf, from, attrs, cs);
    }
  }

  lemma AttrsEnd(buf: seq<byte>, attrs: seq<PathAttr>, cs: seq<u32>)
    ensures ReadAttrs(buf[|buf|..], attrs, cs).Ok? && !AttrsOverrun(buf, |buf|)
  {}

  // ----- messages -----

  lemma {:induction false} CapabilitiesNoPanic(buf: seq<byte>, st: OpenState)
    ensures !ReadCapabilities(buf, st).Panic?
    decreases |buf|
  {
    if buf != [] && NextTlv(buf).Ok? {
      var s := NextTlv(buf).value;
      CapabilitiesNoPanic(s.rest, AddCapability(st, ReadCapability(s.item)));
    }
  }

  lemma {:induction false} ParametersNoPanic(buf: seq<byte>, st: OpenState)
    ensures !ReadParameters(buf, st).Panic?
    decreases |buf|
  {
    if buf != [] && NextTlv(buf).Ok? {
      var s := NextTlv(buf).value;
      if s.item[0] == 2 {
        CapabilitiesNoPanic(s.item[2..], st);
        var r := ReadCapabilities(s.item[2..], st);
        if r.Ok? { ParametersNoPanic(s.rest, r.value); }
      } else {
        ParametersNoPanic(s.rest, st);
      }
    }
  }

  ghost predicate TailOverruns(tail: seq<byte>) {
    |tail| >= 2 &&
    var alen: nat := From16(tail[0], tail[1]);
    && 2 + alen <= |tail|
    && (|| AttrsOverrun(tail[2..2 + alen], 0)
        || (ReadAttrs(tail[2..2 + alen], [], []).Ok? && RunOverruns(tail[2 + alen..], 0, true)))
  }

  /** The withdrawn routes overrun, or they are read and the attributes or the announced routes do. */
  ghost predicate UpdateOverruns(body: seq<byte>) {
    |body| >= 4 &&
    var wlen: nat := From16(body[0], body[1]);
    && 4 + wlen <= |body|
    && (|| RunOverruns(body[2..2 + wlen], 0, true)
        || (ReadNlris(body[2..2 + wlen], true, []).Ok? && TailOverruns(body[2 + wlen..])))
  }

  lemma AllAttrsPanic(buf: seq<byte>)
    ensures ReadAttrs(buf, [], []).Panic? <==> AttrsOverrun(buf, 0)
  {
    assert buf[0..] == buf;
    AttrsPanic(buf, 0, [], []);
  }

  lemma TailIs(withdrawn: seq<Prefix>, tail: seq<byte>, alen: nat, attrs: Result<seq<PathAttr>>,
      announced: Result<seq<Prefix>>)
    requires |tail| >= 2 && alen == From16(tail[0], tail[1]) && 2 + alen <= |tail|
    requires attrs == ReadAttrs(tail[2..2 + alen], [], []) && announced == ReadNlris(tail[2 + alen..], true, [])
    ensures DecodeUpdateTail(withdrawn, tail).Panic? <==> attrs.Panic? || (attrs.Ok? && announced.Panic?)
  {}

  lemma TailPanics(withdrawn: seq<Prefix>, tail: seq<byte>)
    requires |tail| >= 2
    ensures DecodeUpdateTail(withdrawn, tail).Panic? <==> TailOverruns(tail)
  {
    var alen: nat := From16(tail[0], tail[1]);
    if 2 + alen <= |tail| {
      AllAttrsPanic(tail[2..2 + alen]);
      NlrisPanic(tail[2 + alen..], true);
      TailIs(withdrawn, tail, alen, ReadAttrs(tail[2..2 + alen], [], []), ReadNlris(tail[2 + alen..], true, []));
    }
  }

  lemma UpdatePanics(body: seq<byte>)
    ensures DecodeUpdate(body).Panic? <==> UpdateOverruns(body)
  {
    if |body| >= 4 {
      var wlen: nat := From16(body[0], body[1]);
      if 4 + wlen <= |body| {
        var withdrawn := ReadNlris(body[2..2 + wlen], true, []);
        NlrisPanic(body[2..2 + wlen], true);
        if withdrawn.Ok? { TailPanics(withdrawn.value, body[2 + wlen..]); }
      }
    }
  }

  lemma OpenNoPanic(body: seq<byte>)
    ensures !DecodeOpen(body).Panic?
  {
    if SplitOpen(body).Ok? {
      var f := SplitOpen(body).value;
      ParametersNoPanic(f.params, OpenState(f.myAs, []));
    }
  }

  /** A whole UPDATE frame of the announced length with a run that overruns. */
  ghost predicate FrameOverruns(buf: seq<byte>) {
    && |buf| >= HEADER_LEN && MarkerOk(buf) && From16(buf[16], buf[17]) == |buf|
    && buf[18] == TYPE_UPDATE && UpdateOverruns(buf[HEADER_LEN..])
  }

  /** Decoding any bytes panics exactly on such frames, so no other message type ever does. */
  lemma DecodePanicsExactly(buf: seq<byte>)
    ensures Decode(buf).Panic? <==> FrameOverruns(buf)
  {
    if |buf| >= HEADER_LEN {
      UpdatePanics(buf[HEADER_LEN..]);
      OpenNoPanic(buf[HEADER_LEN..]);
    }
  }

  /** One announced prefix with a length octet of 129 and its 17 octets, in an otherwise empty UPDATE. */
  function OverlongFrame(): seq<byte> {
    Frame(TYPE_UPDATE, [0, 0, 0, 0] + ([129] + Zeros(17)))
  }

  lemma OverlongBody(body: seq<byte>, announced: seq<byte>)
    requires body == [0, 0, 0, 0] + announced && announced == [129] + Zeros(17)
    ensures UpdateOverruns(body)
  {
    assert Overrun(announced, 0) && Leads(announced, 0, 0, true);
    assert body[2..][2..] == announced && body[2..][2..2] == [] && body[2..2] == [];
    assert TailOverruns(body[2..]);
  }

  lemma OverlongFramePanics()
    ensures Decode(OverlongFrame()) == Panic
  {
    var body := [0, 0, 0, 0] + ([129] + Zeros(17));
    OverlongBody(body, [129] + Zeros(17));
    FramedOverruns(OverlongFrame(), body);
    DecodePanicsExactly(OverlongFrame());
  }

  lemma FramedOverruns(frame: seq<byte>, body: seq<byte>)
    requires |body| == 22 && UpdateOverruns(body) && frame == Frame(TYPE_UPDATE, body)
    ensures FrameOverruns(frame)
  {
    assert frame[HEADER_LEN..] == body && frame[16] == 0 && frame[17] == 41 && frame[18] == TYPE_UPDATE;
    assert MarkerOk(frame);
  }
}
