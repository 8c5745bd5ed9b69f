/** The Internet checksum and the ICMP echo packets of the tunnel probe. */
module Icmp {
  import opened Bytes

  const TWO_32: nat := 0x1_0000_0000

  // ----- the checksum -----

  function Pair(hi: byte, lo: byte): u16 {
    var h: int, l: int := hi, lo;
    h * 256 + l
  }

  /** The sum of the big-endian 16-bit words, an odd last byte taken as the high half. */
  function WordSum(data: seq<byte>): nat {
    if |data| == 0 then 0
    else if |data| == 1 then Pair(data[0], 0)
    else Pair(data[0], data[1]) + WordSum(data[2..])
  }

  /** The one's complement sum in 16 bits: congruent modulo 65535, zero only for zero. */
  function Fold(s: nat): u16 {
    if s == 0 then 0 else (s - 1) % 0xFFFF + 1
  }

  function Checksum16(data: seq<byte>): u16 {
    0xFFFF - Fold(WordSum(data) % TWO_32)
  }

  lemma FoldStep(s: nat)
    ensures Fold(s % 0x1_0000 + s / 0x1_0000) == Fold(s)
  {
    var lo, hi := s % 0x1_0000, s / 0x1_0000;
    if s > 0 {
      var t := lo + hi - 1;
      var q, r := t / 0xFFFF, t % 0xFFFF;
      assert s - 1 == 0xFFFF * (hi + q) + r;
      DivUnique(s - 1, 0xFFFF, hi + q, r);
    }
  }

  lemma FoldSmall(s: nat)
    requires s < 0x1_0000
    ensures Fold(s) == s
  {}

  /** The word sum up to an even position. */
  lemma {:induction false} WordSumSplit(a: seq<byte>, b: seq<byte>)
    requires |a| % 2 == 0
    ensures WordSum(a + b) == WordSum(a) + WordSum(b)
  {
    if a == [] {
      assert a + b == b;
    } else {
      assert (a + b)[2..] == a[2..] + b;
      WordSumSplit(a[2..], b);
    }
  }

  lemma AddWord(data: seq<byte>, i: nat)
    requires i % 2 == 0 && i + 1 < |data|
    ensures WordSum(data[..i + 2]) == WordSum(data[..i]) + Pair(data[i], data[i + 1])
  {
    assert data[..i + 2] == data[..i] + data[i..i + 2];
    WordSumSplit(data[..i], data[i..i + 2]);
    assert data[i..i + 2][2..] == [];
  }

  lemma AddTail(data: seq<byte>, i: nat)
    requires i % 2 == 0 && i + 1 == |data|
    ensures WordSum(data) == WordSum(data[..i]) + Pair(data[i], 0)
  {
    assert data == data[..i] + data[i..];
    WordSumSplit(data[..i], data[i..]);
  }

  /** The 32-bit accumulator, then end-around carries until 16 bits are left. */
  method ComputeChecksum16(data: seq<byte>) returns (ck: u16)
    ensures ck == Checksum16(data)
  {
    var sum := SumWords(data);
    ghost var total := sum;
    while sum / 0x1_0000 != 0
      invariant Fold(sum) == Fold(total)
      decreases sum
    {
      FoldStep(sum);
      sum := sum % 0x1_0000 + sum / 0x1_0000;
    }
    FoldSmall(sum);
    ck := 0xFFFF - sum;
  }

  lemma AddMod(x: nat, y: nat)
    ensures (x % TWO_32 + y) % TWO_32 == (x + y) % TWO_32
  {}

  method SumWords(data: seq<byte>) returns (sum: nat)
    ensures sum == WordSum(data) % TWO_32
  {
    sum := 0;
    var i := 0;
    while i + 1 < |data|
      invariant i % 2 == 0 && 0 <= i <= |data| && sum == WordSum(data[..i]) % TWO_32
    {
      AddWord(data, i);
      AddMod(WordSum(data[..i]), Pair(data[i], data[i + 1]));
      sum := (sum + Pair(data[i], data[i + 1])) % TWO_32;
      i := i + 2;
    }
    if |data| % 2 == 1 {
      AddTail(data, i);
      AddMod(WordSum(data[..i]), Pair(data[i], 0));
      sum := (sum + Pair(data[|data| - 1], 0)) % TWO_32;
    } else {
      assert data[..i] == data;
    }
  }

  lemma {:induction false} WordSumBound(data: seq<byte>)
    ensures WordSum(data) <= 0xFFFF * ((|data| + 1) / 2)
  {
    if |data| >= 2 { WordSumBound(data[2..]); }
  }

  /** Short enough for the accumulator not to wrap. */
  predicate Fits(data: seq<byte>) {
    |data| <= 0x1_0000
  }

  lemma NoWrap(data: seq<byte>)
    requires Fits(data)
    ensures WordSum(data) % TWO_32 == WordSum(data)
  {
    WordSumBound(data);
  }

  function Patch(data: seq<byte>, k: nat, v: u16): (r: seq<byte>)
    requires k + 1 < |data|
    ensures |r| == |data| && r[k] == v / 256 && r[k + 1] == v % 256
    ensures forall i :: 0 <= i < |data| && i != k && i != k + 1 ==> r[i] == data[i]
  {
    data[k := v / 256][k + 1 := v % 256]
  }

  lemma {:induction false} WordSumPatch(data: seq<byte>, k: nat, v: u16)
    requires k % 2 == 0 && k + 1 < |data| && data[k] == 0 && data[k + 1] == 0
    ensures WordSum(Patch(data, k, v)) == WordSum(data) + v
  {
    var r := Patch(data, k, v);
    if k == 0 {
      assert r[2..] == data[2..];
    } else {
      assert r[2..] == Patch(data[2..], k - 2, v);
      WordSumPatch(data[2..], k - 2, v);
    }
  }

  function Sealed(data: seq<byte>, k: nat): seq<byte>
    requires k + 1 < |data|
  {
    Patch(data, k, Checksum16(data))
  }

  lemma FoldComplement(s: nat)
    ensures Fold(s + (0xFFFF - Fold(s))) == 0xFFFF
  {
    if s > 0 {
      var q, r := (s - 1) / 0xFFFF, (s - 1) % 0xFFFF;
      DivUnique(s + (0xFFFF - Fold(s)) - 1, 0xFFFF, q, 0xFFFE);
    }
  }

  /** A checksum computed over a zero field and written into it makes the whole sum to zero. */
  lemma SealedSumsToZero(data: seq<byte>, k: nat)
    requires Fits(data) && k % 2 == 0 && k + 1 < |data| && data[k] == 0 && data[k + 1] == 0
    ensures Checksum16(Sealed(data, k)) == 0
  {
    NoWrap(data);
    NoWrap(Sealed(data, k));
    WordSumPatch(data, k, Checksum16(data));
    FoldComplement(WordSum(data));
  }

  // ----- packets -----

  function U16(v: u16): (s: seq<byte>)
    ensures |s| == 2
  {
    [v / 256, v % 256]
  }

  function Word(data: seq<byte>, k: nat): u16
    requires k + 1 < |data|
  {
    Pair(data[k], data[k + 1])
  }

  type Ip4 = s: seq<byte> | |s| == 4 witness [0, 0, 0, 0]

  function IpHeader(length: u16, src: Ip4, dst: Ip4): (s: seq<byte>)
    ensures |s| == 20
  {
    [0x45, 0] + U16(length) + [0, 0, 0x40, 0, 64, 1, 0, 0] + src + dst
  }

  function EchoBody(ident: u16, number: u16, payload: seq<byte>): (s: seq<byte>)
    ensures |s| == 8 + |payload|
  {
    [8, 0, 0, 0] + U16(ident) + U16(number) + payload
  }

  /** An echo request; the length field keeps 16 bits. */
  function EchoRequest(src: Ip4, dst: Ip4, ident: u16, number: u16, payload: seq<byte>): seq<byte> {
    var icmp := Sealed(EchoBody(ident, number, payload), 2);
    Sealed(IpHeader((20 + |icmp|) % 0x1_0000, src, dst), 10) + icmp
  }

  datatype Echo = Request(src: Ip4, reply: seq<byte>) | Reply(ident: u16, number: u16) | Other

  function HeaderLength(packet: seq<byte>): nat
    requires packet != []
  {
    packet[0] % 16 * 4
  }

  /** The addresses swapped, type 0, both checksums anew; the first ten header bytes as they came. */
  function Answer(packet: seq<byte>): seq<byte>
    requires |packet| >= 28 && |packet| >= HeaderLength(packet) + 8
  {
    var icmp := packet[HeaderLength(packet)..][0 := 0][2 := 0][3 := 0];
    Sealed(packet[..10] + [0, 0] + packet[16..20] + packet[12..16], 10) + Sealed(icmp, 2)
  }

  function ParseEcho(packet: seq<byte>): Echo {
    if |packet| < 28 || packet[0] / 16 != 4 || packet[9] != 1 || |packet| < HeaderLength(packet) + 8 then Other
    else
      var h := HeaderLength(packet);
      if packet[h] == 8 then Request(packet[12..16], Answer(packet))
      else if packet[h] == 0 then Reply(Word(packet, h + 4), Word(packet, h + 6))
      else Other
  }

  method BuildEchoRequest(src: Ip4, dst: Ip4, ident: u16, number: u16, payload: seq<byte>) returns (ip: seq<byte>)
    ensures ip == EchoRequest(src, dst, ident, number, payload)
  {
    var icmp := [8, 0, 0, 0] + U16(ident) + U16(number) + payload;
    var ck := ComputeChecksum16(icmp);
    icmp := Patch(icmp, 2, ck);
    var total := 20 + |icmp|;
    ip := IpHeader(total % 0x1_0000, src, dst);
    ck := ComputeChecksum16(ip);
    ip := Patch(ip, 10, ck) + icmp;
  }

  method BuildAnswer(packet: seq<byte>) returns (ip: seq<byte>)
    requires |packet| >= 28 && |packet| >= HeaderLength(packet) + 8
    ensures ip == Answer(packet)
  {
    var reply := packet[HeaderLength(packet)..];
    reply := reply[0 := 0][2 := 0][3 := 0];
    var ck := ComputeChecksum16(reply);
    reply := Patch(reply, 2, ck);
    ip := packet[..10] + [0, 0] + packet[16..20] + packet[12..16];
    ck := ComputeChecksum16(ip);
    ip := Patch(ip, 10, ck) + reply;
  }

  // ----- the laws -----

  /** Header and body each sum to zero. */
  ghost predicate SumsToZero(packet: seq<byte>) {
    |packet| >= 28 && Checksum16(packet[..20]) == 0 && Checksum16(packet[20..]) == 0
  }

  lemma Parts(a: seq<byte>, b: seq<byte>)
    requires |a| == 20
    ensures (a + b)[..20] == a && (a + b)[20..] == b
  {}

  lemma RequestSums(src: Ip4, dst: Ip4, ident: u16, number: u16, payload: seq<byte>)
    requires |payload| <= 65507
    ensures SumsToZero(EchoRequest(src, dst, ident, number, payload))
  {
    var body := EchoBody(ident, number, payload);
    var header := IpHeader((20 + |body|) % 0x1_0000, src, dst);
    SealedSumsToZero(body, 2);
    SealedSumsToZero(header, 10);
    Parts(Sealed(header, 10), Sealed(body, 2));
  }

  /** What the header fields of a request say. */
  lemma RequestFields(src: Ip4, dst: Ip4, ident: u16, number: u16, payload: seq<byte>)
    requires |payload| <= 65507
    ensures var p := EchoRequest(src, dst, ident, number, payload);
            && |p| == 28 + |payload| == Word(p, 2)
            && p[0] == 0x45 && p[9] == 1 && p[12..16] == src && p[16..20] == dst
            && p[20] == 8 && Word(p, 24) == ident && Word(p, 26) == number && p[28..] == payload
  {
    var p := EchoRequest(src, dst, ident, number, payload);
    BodyFields(ident, number, payload);
    HeaderFields((28 + |payload|) % 0x1_0000, src, dst);
    var icmp := Sealed(EchoBody(ident, number, payload), 2);
    var header := Sealed(IpHeader((28 + |payload|) % 0x1_0000, src, dst), 10);
    assert p == header + icmp;
    assert p[28..] == icmp[8..] && p[12..16] == header[12..16] && p[16..20] == header[16..20];
  }

  lemma BodyFields(ident: u16, number: u16, payload: seq<byte>)
    ensures var b := Sealed(EchoBody(ident, number, payload), 2);
            |b| == 8 + |payload| && b[0] == 8 && Word(b, 4) == ident && Word(b, 6) == number && b[8..] == payload
  {
    var b := Sealed(EchoBody(ident, number, payload), 2);
    assert b[8..] == EchoBody(ident, number, payload)[8..] == payload;
  }

  lemma HeaderFields(length: u16, src: Ip4, dst: Ip4)
    ensures var h := Sealed(IpHeader(length, src, dst), 10);
            |h| == 20 && h[0] == 0x45 && h[9] == 1 && Word(h, 2) == length && h[12..16] == src && h[16..20] == dst
  {
    var h := Sealed(IpHeader(length, src, dst), 10);
    assert h[12..16] == IpHeader(length, src, dst)[12..16] == src;
    assert h[16..20] == IpHeader(length, src, dst)[16..20] == dst;
  }

  /** What an answer keeps of the request and what it swaps. */
  lemma AnswerFields(packet: seq<byte>)
    requires |packet| >= 28 && |packet| >= HeaderLength(packet) + 8
    ensures var r, h := Answer(packet), HeaderLength(packet);
            && |r| == 20 + |packet| - h
            && r[..10] == packet[..10] && r[12..16] == packet[16..20] && r[16..20] == packet[12..16]
            && r[20] == 0 && r[21] == packet[h + 1] && r[24..] == packet[h + 4..]
  {
    var h := HeaderLength(packet);
    var head := packet[..10] + [0, 0] + packet[16..20] + packet[12..16];
    var icmp := packet[h..][0 := 0][2 := 0][3 := 0];
    AnswerHead(packet, head);
    var a, b := Sealed(head, 10), Sealed(icmp, 2);
    assert b[4..] == packet[h + 4..];
    var r := a + b;
    assert r[..10] == a[..10] && r[12..16] == a[12..16] && r[16..20] == a[16..20] && r[24..] == b[4..];
  }

  lemma AnswerHead(packet: seq<byte>, head: seq<byte>)
    requires |packet| >= 28 && head == packet[..10] + [0, 0] + packet[16..20] + packet[12..16]
    ensures var a := Sealed(head, 10);
            |a| == 20 && a[..10] == packet[..10] && a[12..16] == packet[16..20] && a[16..20] == packet[12..16]
  {
    var a := Sealed(head, 10);
    assert a[..10] == head[..10] == packet[..10];
    assert a[12..16] == head[12..16] == packet[16..20];
    assert a[16..20] == head[16..20] == packet[12..16];
  }

  /** Every answer sums to zero twice. */
  lemma AnswerSums(packet: seq<byte>)
    requires 28 <= |packet| <= 65535 && |packet| >= HeaderLength(packet) + 8
    ensures SumsToZero(Answer(packet))
  {
    var head := packet[..10] + [0, 0] + packet[16..20] + packet[12..16];
    var icmp := packet[HeaderLength(packet)..][0 := 0][2 := 0][3 := 0];
    SealedSumsToZero(head, 10);
    SealedSumsToZero(icmp, 2);
    Parts(Sealed(head, 10), Sealed(icmp, 2));
  }

  /** The answer to a packet without header options reads back as the reply to it. */
  lemma AnswerParses(packet: seq<byte>)
    requires ParseEcho(packet).Request? && HeaderLength(packet) == 20
    ensures ParseEcho(Answer(packet)) == Reply(Word(packet, 24), Word(packet, 26))
  {
    AnswerFields(packet);
    var r := Answer(packet);
    assert r[0] == r[..10][0] && r[9] == r[..10][9] && packet[0] == packet[..10][0] && packet[9] == packet[..10][9];
    assert forall i :: 0 <= i < 4 ==> r[24 + i] == r[24..][i] && packet[24 + i] == packet[24..][i];
    assert r[24] == r[24 + 0] && r[25] == r[24 + 1] && r[26] == r[24 + 2] && r[27] == r[24 + 3];
    assert packet[24] == packet[24 + 0] && packet[25] == packet[24 + 1] && packet[26] == packet[24 + 2]
        && packet[27] == packet[24 + 3];
  }

  /** An answer is cut to a plain header, so its own header length is right exactly when the request had no options. */
  lemma AnswerHeaderLength(packet: seq<byte>)
    requires |packet| >= 28 && |packet| >= HeaderLength(packet) + 8
    ensures HeaderLength(Answer(packet)) == |Answer(packet)| - (|packet| - HeaderLength(packet)) <==>
            HeaderLength(packet) == 20
  {
    AnswerFields(packet);
    assert Answer(packet)[0] == Answer(packet)[..10][0] == packet[..10][0];
  }

  /**
   * Ping: a request answered gives back the payload, the addresses swapped, good sums and the identity of the request.
   */
  lemma EchoRoundTrip(src: Ip4, dst: Ip4, ident: u16, number: u16, payload: seq<byte>)
    requires |payload| <= 65507
    ensures var p := EchoRequest(src, dst, ident, number, payload);
            && SumsToZero(p) && ParseEcho(p) == Request(src, Answer(p)) && SumsToZero(Answer(p))
            && ParseEcho(Answer(p)) == Reply(ident, number)
            && Answer(p)[12..16] == dst && Answer(p)[16..20] == src && Answer(p)[28..] == payload
  {
    var p := EchoRequest(src, dst, ident, number, payload);
    RequestSums(src, dst, ident, number, payload);
    RequestFields(src, dst, ident, number, payload);
    AnswerSums(p);
    AnswerParses(p);
    AnswerFields(p);
    assert Answer(p)[28..] == Answer(p)[24..][4..] == p[24..][4..] == p[28..];
  }
}
