/** The incremental frame reader: arbitrary pieces of a byte stream in, whole messages out. */
module FrameReader {
  import opened Bytes
  import Codec
  import opened WireModel
  import opened WireRoundTrip

  /** How a feed ended: waiting for more bytes, or failed. */
  datatype Status = More | Failed(error: WireError) | Crashed

  datatype Parsed = Parsed(messages: seq<Message>, rest: seq<byte>, status: Status)

  /** What stands at the front of the buffer. */
  datatype Front = Wait | Bad(error: WireError) | Whole(len: nat)

  function FrontOf(buf: seq<byte>): (r: Front)
    ensures r.Whole? ==> HEADER_LEN <= r.len <= |buf| && r.len <= MAX_MSG_LEN
    ensures r.Wait? ==> |buf| < MAX_MSG_LEN
  {
    if |buf| < HEADER_LEN then Wait
    else if !MarkerOk(buf) then Bad(BadMarker)
    else
      var len: nat := From16(buf[16], buf[17]);
      if len < HEADER_LEN || len > MAX_MSG_LEN then Bad(BadLength(len))
      else if |buf| < len then Wait
      else Whole(len)
  }

  function StatusOf(r: Result<Message>): Status {
    match r
    case Ok(_) => More
    case Err(e) => Failed(e)
    case Panic => Crashed
  }

  /** All messages at the front of a buffer; a frame that fails to decode stays in it. */
  function Parse(buf: seq<byte>): Parsed
    decreases |buf|
  {
    match FrontOf(buf)
    case Wait => Parsed([], buf, More)
    case Bad(e) => Parsed([], buf, Failed(e))
    case Whole(len) =>
      var r := Decode(buf[..len]);
      if r.Ok? then
        var p := Parse(buf[len..]);
        p.(messages := [r.value] + p.messages)
      else Parsed([], buf, StatusOf(r))
  }

  // ----- chunks -----

  /** More bytes never change what stands in front of them, unless it was waiting. */
  lemma FrontStable(a: seq<byte>, b: seq<byte>)
    requires !FrontOf(a).Wait?
    ensures FrontOf(a + b) == FrontOf(a)
  {
    assert forall i :: 0 <= i < |a| ==> (a + b)[i] == a[i];
  }

  lemma ParseOne(buf: seq<byte>, len: nat)
    requires FrontOf(buf) == Whole(len) && Decode(buf[..len]).Ok?
    ensures Parse(buf) == Parse(buf[len..]).(messages := [Decode(buf[..len]).value] + Parse(buf[len..]).messages)
  {}

  /** Parsing some bytes and then more equals parsing them together. */
  ghost predicate Splits(a: seq<byte>, b: seq<byte>) {
    var p := Parse(a);
    if p.status.More? then
      var q := Parse(p.rest + b);
      Parse(a + b) == q.(messages := p.messages + q.messages)
    else
      Parse(a + b) == p.(rest := p.rest + b)
  }

  lemma SplitsAfterOne(a: seq<byte>, b: seq<byte>, len: nat)
    requires FrontOf(a) == Whole(len) && len <= |a| && Decode(a[..len]).Ok? && Splits(a[len..], b)
    ensures Splits(a, b)
  {
    FrontStable(a, b);
    assert (a + b)[..len] == a[..len];
    assert (a + b)[len..] == a[len..] + b;
    ParseOne(a, len);
    ParseOne(a + b, len);
    PrependAssoc(Decode(a[..len]).value, Parse(a[len..]).messages, Parse(Parse(a[len..]).rest + b).messages);
  }

  lemma {:induction false} ParseMore(a: seq<byte>, b: seq<byte>)
    ensures Splits(a, b)
    decreases |a|
  {
    var front := FrontOf(a);
    if front.Wait? {
      var q := Parse(a + b);
      assert [] + q.messages == q.messages;
    } else {
      FrontStable(a, b);
      if front.Whole? {
        var len := front.len;
        assert (a + b)[..len] == a[..len];
        if Decode(a[..len]).Ok? {
          ParseMore(a[len..], b);
          SplitsAfterOne(a, b, len);
        }
      }
    }
  }

  lemma PrependAssoc(x: Message, a: seq<Message>, b: seq<Message>)
    ensures [x] + (a + b) == ([x] + a) + b
  {}

  /** Feeding pieces one after the other, up to the first failure. */
  function FeedAll(chunks: seq<seq<byte>>): Parsed {
    if chunks == [] then Parsed([], [], More)
    else
      var p := FeedAll(chunks[..|chunks| - 1]);
      if !p.status.More? then p
      else
        var q := Parse(p.rest + chunks[|chunks| - 1]);
        q.(messages := p.messages + q.messages)
  }

  function Flatten(chunks: seq<seq<byte>>): seq<byte> {
    if chunks == [] then [] else Flatten(chunks[..|chunks| - 1]) + chunks[|chunks| - 1]
  }

  /** Any way of cutting a stream gives the messages and the outcome of parsing it whole. */
  lemma {:induction false} ChunkingIrrelevant(chunks: seq<seq<byte>>)
    ensures FeedAll(chunks).messages == Parse(Flatten(chunks)).messages
    ensures FeedAll(chunks).status == Parse(Flatten(chunks)).status
    ensures FeedAll(chunks).status.More? ==> FeedAll(chunks).rest == Parse(Flatten(chunks)).rest
  {
    if chunks != [] {
      ChunkingIrrelevant(chunks[..|chunks| - 1]);
      ParseMore(Flatten(chunks[..|chunks| - 1]), chunks[|chunks| - 1]);
    }
  }

  /** Two cuttings of one stream agree. */
  lemma ChunkingsAgree(a: seq<seq<byte>>, b: seq<seq<byte>>)
    requires Flatten(a) == Flatten(b)
    ensures FeedAll(a).messages == FeedAll(b).messages && FeedAll(a).status == FeedAll(b).status
    ensures FeedAll(a).status.More? ==> FeedAll(a).rest == FeedAll(b).rest
  {
    ChunkingIrrelevant(a);
    ChunkingIrrelevant(b);
  }

  /** While the stream is good, less than one maximal message stays buffered. */
  lemma {:induction false} BufferBounded(buf: seq<byte>)
    ensures Parse(buf).status.More? ==> |Parse(buf).rest| < MAX_MSG_LEN
    decreases |buf|
  {
    var front := FrontOf(buf);
    if front.Whole? && Decode(buf[..front.len]).Ok? { BufferBounded(buf[front.len..]); }
  }

  lemma FeedAllBounded(chunks: seq<seq<byte>>)
    ensures FeedAll(chunks).status.More? ==> |FeedAll(chunks).rest| < MAX_MSG_LEN
  {
    ChunkingIrrelevant(chunks);
    BufferBounded(Flatten(chunks));
  }

  // ----- streams of encoded messages -----

  predicate Sendable(m: Message) {
    Encode(m).Ok? && WellFormed(m)
  }

  function EncodeAll(ms: seq<Message>): seq<byte>
    requires forall i :: 0 <= i < |ms| ==> Sendable(ms[i])
  {
    if ms == [] then []
    else
      assert Sendable(ms[0]);
      Encode(ms[0]).value + EncodeAll(ms[1..])
  }

  function NormalAll(ms: seq<Message>): (r: seq<Message>)
    ensures |r| == |ms| && forall i :: 0 <= i < |ms| ==> r[i] == Normal(ms[i])
  {
    if ms == [] then [] else [Normal(ms[0])] + NormalAll(ms[1..])
  }

  lemma EncodedFront(m: Message, rest: seq<byte>)
    requires Sendable(m)
    ensures var f := Encode(m).value;
            FrontOf(f + rest) == Whole(|f|) && (f + rest)[..|f|] == f && (f + rest)[|f|..] == rest
  {
    var f := Encode(m).value;
    FrameRoundTrip(MessageType(m), EncodeBody(m).value);
    assert FrontOf(f) == Whole(|f|);
    FrontStable(f, rest);
  }

  lemma {:induction false} ParseEncoded(ms: seq<Message>)
    requires forall i :: 0 <= i < |ms| ==> Sendable(ms[i])
    ensures Parse(EncodeAll(ms)) == Parsed(NormalAll(ms), [], More)
  {
    if ms != [] {
      EncodedFront(ms[0], EncodeAll(ms[1..]));
      MessageRoundTrip(ms[0]);
      ParseEncoded(ms[1..]);
    }
  }

  /** Well-formed messages, encoded one after the other and cut anywhere, come out in order with nothing left over. */
  lemma StreamRoundTrip(ms: seq<Message>, chunks: seq<seq<byte>>)
    requires forall i :: 0 <= i < |ms| ==> Sendable(ms[i])
    requires Flatten(chunks) == EncodeAll(ms)
    ensures FeedAll(chunks) == Parsed(NormalAll(ms), [], More)
  {
    ParseEncoded(ms);
    ChunkingIrrelevant(chunks);
  }

  // ----- the reader object -----

  class FrameReader {
    var buf: seq<byte>

    constructor ()
      ensures buf == []
    {
      buf := [];
    }

    /** Appends the bytes and takes every whole message off the front; stops at the first that fails. */
    method Feed(data: seq<byte>, got: seq<Message>) returns (out: seq<Message>, status: Status)
      modifies this
      ensures var p := Parse(old(buf) + data); out == got + p.messages && buf == p.rest && status == p.status
    {
      buf := buf + data;
      out := got;
      ghost var whole := Parse(buf);
      while true
        invariant var p := Parse(buf);
                whole.rest == p.rest && whole.status == p.status && got + whole.messages == out + p.messages
        decreases |buf|
      {
        match FrontOf(buf) {
          case Wait =>
            return out, More;
          case Bad(e) =>
            return out, Failed(e);
          case Whole(len) =>
            var r := Codec.DecodeMessage(buf[..len]);
            if !r.Ok? { return out, StatusOf(r); }
            out := out + [r.value];
            buf := buf[len..];
        }
      }
    }
  }
}
