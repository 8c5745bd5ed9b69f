/** Base32 without padding: bit strings as the reference, and the shifting loops proved against them. */
module Base32 {
  import opened Bytes
  import opened Prefixes

  type bit = x: int | 0 <= x < 2
  type quintet = x: int | 0 <= x < 32

  const TWO_64: nat := 0x1_0000_0000_0000_0000

  // ----- bit strings -----

  /** The low n bits of a number, most significant first. */
  function Bits(v: nat, n: nat): (s: seq<bit>)
    ensures |s| == n
  {
    if n == 0 then [] else Bits(v / 2, n - 1) + [v % 2]
  }

  function Value(s: seq<bit>): nat {
    if s == [] then 0 else 2 * Value(s[..|s| - 1]) + s[|s| - 1]
  }

  lemma {:induction false} BitsOfValue(s: seq<bit>)
    ensures Bits(Value(s), |s|) == s && Value(s) < Pow2(|s|)
  {
    if s != [] {
      BitsOfValue(s[..|s| - 1]);
      assert s == s[..|s| - 1] + [s[|s| - 1]];
    }
  }

  lemma {:induction false} ValueOfBits(v: nat, n: nat)
    requires v < Pow2(n)
    ensures Value(Bits(v, n)) == v
  {
    if n > 0 {
      ValueOfBits(v / 2, n - 1);
      assert Bits(v, n)[..n - 1] == Bits(v / 2, n - 1);
    }
  }

  function Shr(v: nat, k: nat): nat {
    if k == 0 then v else Shr(v / 2, k - 1)
  }

  function Shl(v: nat, k: nat): nat {
    if k == 0 then v else 2 * Shl(v, k - 1)
  }

  lemma {:induction false} BitsSplit(v: nat, n: nat, m: nat)
    ensures Bits(v, n + m) == Bits(Shr(v, m), n) + Bits(v, m)
  {
    if m > 0 {
      BitsSplit(v / 2, n, m - 1);
      assert Bits(v, n + m) == Bits(v / 2, n + (m - 1)) + [v % 2];
    } else {
      assert Bits(v, n) == Bits(v, n) + [];
    }
  }

  /** Bits above the window of interest do not matter. */
  lemma {:induction false} BitsMod(v: nat, n: nat, m: nat)
    requires n <= m
    ensures Bits(v % Pow2(m), n) == Bits(v, n)
  {
    if n > 0 {
      HalfMod(v, Pow2(m - 1));
      BitsMod(v / 2, n - 1, m - 1);
    }
  }

  lemma HalfMod(v: nat, p: nat)
    requires p > 0
    ensures v % (2 * p) / 2 == v / 2 % p && v % (2 * p) % 2 == v % 2
  {
    var q, r := v / 2 / p, v / 2 % p;
    assert v == 2 * (p * q + r) + v % 2;
    assert 2 * (p * q) == 2 * p * q;
    DivUnique(v, 2 * p, q, 2 * r + v % 2);
  }

  lemma {:induction false} BitsAppend(v: nat, b: nat, n: nat, k: nat)
    requires b < Pow2(k)
    ensures Bits(Shl(v, k) + b, n + k) == Bits(v, n) + Bits(b, k)
  {
    if k > 0 {
      BitsAppend(v, b / 2, n, k - 1);
      assert Bits(Shl(v, k) + b, n + k) == Bits(Shl(v, k - 1) + b / 2, n + (k - 1)) + [b % 2];
    } else {
      assert Bits(v, n) == Bits(v, n) + [];
    }
  }

  /** Shifting bits into a 64-bit buffer appends them, whatever is lost at the top. */
  lemma ShiftIn(v: nat, b: nat, n: nat, k: nat)
    requires n + k <= 64 && b < Pow2(k)
    ensures Bits((Shl(v, k) + b) % TWO_64, n + k) == Bits(v, n) + Bits(b, k)
  {
    Pow2Of64();
    BitsMod(Shl(v, k) + b, n + k, 64);
    BitsAppend(v, b, n, k);
  }

  lemma Pow2Of64()
    ensures Pow2(64) == TWO_64
  {
    Pow2Of32();
    Pow2Add(32, 32);
  }

  /** The top bits leave, the rest stays pending. */
  lemma ShiftOut(v: nat, n: nat, k: nat)
    ensures Bits(v, k + n) == Bits(Shr(v, n) % Pow2(k), k) + Bits(v, n)
  {
    BitsSplit(v, k, n);
    BitsMod(Shr(v, n), k, k);
  }

  function Zeros(n: nat): (s: seq<bit>)
    ensures |s| == n
  {
    if n == 0 then [] else Zeros(n - 1) + [0]
  }

  lemma {:induction false} BitsOfZero(n: nat)
    ensures Bits(0, n) == Zeros(n)
  {
    if n > 0 { BitsOfZero(n - 1); }
  }

  /** Padding the pending bits on the right. */
  lemma ShiftPad(v: nat, n: nat, k: nat)
    ensures Bits(Shl(v, k), n + k) == Bits(v, n) + Zeros(k)
  {
    BitsAppend(v, 0, n, k);
    BitsOfZero(k);
  }

  ghost predicate Below(vs: seq<nat>, m: nat) {
    forall i :: 0 <= i < |vs| ==> vs[i] < m
  }

  // ----- groups of bits -----

  function Flat(vs: seq<nat>, k: nat): seq<bit> {
    if vs == [] then [] else Flat(vs[..|vs| - 1], k) + Bits(vs[|vs| - 1], k)
  }

  function Times(k: nat, n: nat): nat {
    if n == 0 then 0 else Times(k, n - 1) + k
  }

  lemma {:induction false} TimesIs(n: nat)
    ensures Times(5, n) == 5 * n && Times(8, n) == 8 * n
  {
    if n > 0 { TimesIs(n - 1); }
  }

  lemma {:induction false} FlatLength(vs: seq<nat>, k: nat)
    ensures |Flat(vs, k)| == Times(k, |vs|)
  {
    if vs != [] { FlatLength(vs[..|vs| - 1], k); }
  }

  lemma FlatLength5(vs: seq<nat>)
    ensures |Flat(vs, 5)| == 5 * |vs|
  {
    FlatLength(vs, 5);
    TimesIs(|vs|);
  }

  lemma FlatLength8(vs: seq<nat>)
    ensures |Flat(vs, 8)| == 8 * |vs|
  {
    FlatLength(vs, 8);
    TimesIs(|vs|);
  }

  lemma FlatSnoc(vs: seq<nat>, v: nat, k: nat)
    ensures Flat(vs + [v], k) == Flat(vs, k) + Bits(v, k)
  {
    assert (vs + [v])[..|vs|] == vs;
  }

  /** The groups of k bits, counted from the end. */
  function Groups(s: seq<bit>, k: nat): seq<nat>
    requires k > 0
    decreases |s|
  {
    if |s| < k then [] else Groups(s[..|s| - k], k) + [Value(s[|s| - k..])]
  }

  /** The groups of some bits, spelled out, are the bits. */
  ghost predicate Regroups(s: seq<bit>, k: nat) {
    k > 0 && Flat(Groups(s, k), k) == s
  }

  lemma FlatJoin(front: seq<bit>, last: seq<bit>, k: nat)
    requires |last| == k && Regroups(front, k)
    ensures Regroups(front + last, k)
  {
    GroupsSnoc(front, last, k);
  }

  lemma FlatStep(s: seq<bit>, k: nat)
    requires 0 < k <= |s| && Regroups(s[..|s| - k], k)
    ensures Regroups(s, k)
  {
    FlatJoin(s[..|s| - k], s[|s| - k..], k);
    assert s == s[..|s| - k] + s[|s| - k..];
  }

  lemma FlatNone(s: seq<bit>, k: nat)
    requires k > 0 && s == []
    ensures Regroups(s, k)
  {
    assert Groups(s, k) == [];
  }

  /** A whole number of groups holds all the bits. */
  lemma {:induction false} FlatOfGroups(s: seq<bit>, k: nat, n: nat)
    requires k > 0 && |s| == Times(k, n)
    ensures Regroups(s, k)
    decreases n
  {
    if n > 0 {
      FlatOfGroups(s[..|s| - k], k, n - 1);
      FlatStep(s, k);
    } else {
      FlatNone(s, k);
    }
  }

  lemma GroupsSnoc(front: seq<bit>, last: seq<bit>, k: nat)
    requires |last| == k > 0
    ensures Flat(Groups(front + last, k), k) == Flat(Groups(front, k), k) + last
  {
    var s := front + last;
    assert s[..|s| - k] == front && s[|s| - k..] == last;
    OneMoreGroup(Groups(front, k), last, k);
  }

  lemma OneMoreGroup(vs: seq<nat>, last: seq<bit>, k: nat)
    requires |last| == k
    ensures Flat(vs + [Value(last)], k) == Flat(vs, k) + last
  {
    BitsOfValue(last);
    FlatSnoc(vs, Value(last), k);
  }

  lemma {:induction false} GroupsBelow(s: seq<bit>, k: nat)
    requires k > 0
    ensures Below(Groups(s, k), Pow2(k))
    decreases |s|
  {
    if |s| >= k {
      GroupsBelow(s[..|s| - k], k);
      BitsOfValue(s[|s| - k..]);
    }
  }

  /** Equal bit strings come from equal groups. */
  lemma LastGroup(a: seq<nat>, b: seq<nat>, k: nat, n: nat)
    requires k > 0 && |a| == |b| == n + 1 && Flat(a, k) == Flat(b, k)
    requires a[n] < Pow2(k) && b[n] < Pow2(k)
    ensures Flat(a[..n], k) == Flat(b[..n], k) && a[n] == b[n]
  {
    FlatLength(a[..n], k);
    FlatLength(b[..n], k);
    CutEqual(Flat(a[..n], k), Bits(a[n], k), Flat(b[..n], k), Bits(b[n], k));
    ValueOfBits(a[n], k);
    ValueOfBits(b[n], k);
  }

  lemma SnocEqual(a: seq<nat>, b: seq<nat>, n: nat)
    requires |a| == |b| == n + 1 && a[..n] == b[..n] && a[n] == b[n]
    ensures a == b
  {
    assert a == a[..n] + [a[n]] && b == b[..n] + [b[n]];
  }

  lemma {:induction false} FlatInjective(a: seq<nat>, b: seq<nat>, k: nat)
    requires k > 0 && |a| == |b| && Flat(a, k) == Flat(b, k)
    requires Below(a, Pow2(k)) && Below(b, Pow2(k))
    ensures a == b
  {
    if a != [] {
      var n := |a| - 1;
      LastGroup(a, b, k, n);
      FlatInjective(a[..n], b[..n], k);
      SnocEqual(a, b, n);
    }
  }

  lemma CutEqual(a: seq<bit>, x: seq<bit>, b: seq<bit>, y: seq<bit>)
    requires a + x == b + y && |a| == |b|
    ensures a == b && x == y
  {
    assert a == (a + x)[..|a|] && b == (b + y)[..|b|];
    assert x == (a + x)[|a|..] && y == (b + y)[|b|..];
  }

  // ----- the codec -----

  /** Bits missing to a full quintet. */
  function Pad(n: nat): nat {
    (5 - n % 5) % 5
  }

  function CharOf(v: quintet): char {
    if v < 26 then 'A' + v as char else '2' + (v - 26) as char
  }

  function IndexOf(c: char): (r: Option<quintet>)
    ensures r.Some? ==> CharOf(r.value) == c
    ensures r.None? ==> forall v: quintet :: CharOf(v) != c
  {
    if 'A' <= c <= 'Z' then Some((c - 'A') as int)
    else if '2' <= c <= '7' then Some((c - '2') as int + 26)
    else None
  }

  function Text(vs: seq<nat>): (s: string)
    requires Below(vs, 32)
    ensures |s| == |vs|
  {
    if vs == [] then [] else Text(vs[..|vs| - 1]) + [CharOf(vs[|vs| - 1])]
  }

  function Untext(s: string): (r: Option<seq<nat>>)
    ensures r.Some? ==> |r.value| == |s| && Below(r.value, 32)
  {
    if s == [] then Some([])
    else
      var front, last := Untext(s[..|s| - 1]), IndexOf(s[|s| - 1]);
      if front.None? || last.None? then None else Some(front.value + [last.value])
  }

  lemma {:induction false} UntextText(vs: seq<nat>)
    requires Below(vs, 32)
    ensures Untext(Text(vs)) == Some(vs)
  {
    if vs != [] {
      var front, last := vs[..|vs| - 1], vs[|vs| - 1];
      UntextText(front);
      assert Text(vs)[..|vs| - 1] == Text(front);
      assert vs == front + [last];
      CharIndex(last);
    }
  }

  lemma CharIndex(v: quintet)
    ensures IndexOf(CharOf(v)) == Some(v)
  {}

  lemma {:induction false} TextUntext(s: string)
    requires Untext(s).Some?
    ensures Text(Untext(s).value) == s
  {
    if s != [] {
      var vs := Untext(s).value;
      TextUntext(s[..|s| - 1]);
      assert vs[..|vs| - 1] == Untext(s[..|s| - 1]).value;
      assert s == s[..|s| - 1] + [s[|s| - 1]];
    }
  }

  function Padded(data: seq<byte>): seq<bit> {
    Flat(data, 8) + Zeros(Pad(8 * |data|))
  }

  function Quintets(data: seq<byte>): (vs: seq<nat>)
    ensures Below(vs, 32)
  {
    GroupsBelow(Padded(data), 5);
    assert Pow2(5) == 32;
    Groups(Padded(data), 5)
  }

  lemma QuintetsMean(data: seq<byte>)
    ensures Flat(Quintets(data), 5) == Padded(data)
  {
    PaddedLength(data);
    FlatOfGroups(Padded(data), 5, |Padded(data)| / 5);
  }

  lemma PaddedLength(data: seq<byte>)
    ensures |Padded(data)| == 8 * |data| + Pad(8 * |data|) == Times(5, |Padded(data)| / 5)
  {
    FlatLength8(data);
    PadMultiple(8 * |data|);
    TimesIs(|Padded(data)| / 5);
  }

  lemma PadMultiple(n: nat)
    ensures n + Pad(n) == 5 * ((n + Pad(n)) / 5)
  {}

  function Encode(data: seq<byte>): string {
    Text(Quintets(data))
  }

  /** How many of so many bits fill whole bytes. */
  function WholeBits(n: nat): (r: nat)
    ensures r <= n && n - r == n % 8
  {
    n - n % 8
  }

  function Tail(s: seq<bit>): (r: seq<bit>)
    ensures |r| == |s| % 8
  {
    s[WholeBits(|s|)..]
  }

  function Whole(s: seq<bit>): seq<byte> {
    GroupsBelow(s[..WholeBits(|s|)], 8);
    assert Pow2(8) == 256;
    Groups(s[..WholeBits(|s|)], 8)
  }

  lemma WholeLength(n: nat)
    ensures WholeBits(n) == Times(8, n / 8)
  {
    TimesIs(n / 8);
  }

  lemma FlatWhole(s: seq<bit>, front: seq<bit>)
    requires front == s[..WholeBits(|s|)]
    ensures Flat(Groups(front, 8), 8) == front
  {
    WholeLength(|s|);
    FlatOfGroups(front, 8, |s| / 8);
  }

  lemma Rejoined(s: seq<bit>, n: nat, front: seq<bit>, back: seq<bit>)
    requires n <= |s| && front == s[..n] && back == s[n..]
    ensures front + back == s
  {}

  lemma WholeMeans(s: seq<bit>)
    ensures Flat(Whole(s), 8) + Tail(s) == s
  {
    var front := s[..WholeBits(|s|)];
    FlatWhole(s, front);
    assert Whole(s) == Groups(front, 8);
    Rejoined(s, WholeBits(|s|), front, Tail(s));
  }

  /** Every character in the alphabet and the bits after the last whole byte all zero. */
  function Decode(s: string): Option<seq<byte>> {
    var vs := Untext(s);
    if vs.None? then None
    else
      var bits := Flat(vs.value, 5);
      if Tail(bits) == Zeros(|Tail(bits)|) then Some(Whole(bits)) else None
  }

  // ----- the laws -----

  /** Splitting into whole bytes and a short rest is unique. */
  lemma WholeUnique(bytes: seq<byte>, rest: seq<bit>)
    requires |rest| < 8
    ensures Whole(Flat(bytes, 8) + rest) == bytes && Tail(Flat(bytes, 8) + rest) == rest
  {
    TailIs(bytes, rest);
    WholeMeans(Flat(bytes, 8) + rest);
    SameBytes(Whole(Flat(bytes, 8) + rest), bytes, rest);
  }

  lemma TailIs(bytes: seq<byte>, rest: seq<bit>)
    requires |rest| < 8
    ensures Tail(Flat(bytes, 8) + rest) == rest
  {
    var front := Flat(bytes, 8);
    FlatLength8(bytes);
    assert |front + rest| % 8 == |rest|;
    assert (front + rest)[|front|..] == rest;
  }

  lemma SameBytes(a: seq<byte>, b: seq<byte>, rest: seq<bit>)
    requires Flat(a, 8) + rest == Flat(b, 8) + rest
    ensures a == b
  {
    FlatLength8(a);
    FlatLength8(b);
    CutEqual(Flat(a, 8), rest, Flat(b, 8), rest);
    assert Pow2(8) == 256;
    FlatInjective(a, b, 8);
  }

  lemma SameQuintets(a: seq<nat>, b: seq<nat>)
    requires Flat(a, 5) == Flat(b, 5) && Below(a, 32) && Below(b, 32)
    ensures a == b
  {
    FlatLength5(a);
    FlatLength5(b);
    assert Pow2(5) == 32;
    FlatInjective(a, b, 5);
  }

  lemma DecodeEncode(data: seq<byte>)
    ensures Decode(Encode(data)) == Some(data)
  {
    UntextText(Quintets(data));
    QuintetsMean(data);
    WholeUnique(data, Zeros(Pad(8 * |data|)));
  }

  lemma EncodedLength(data: seq<byte>)
    ensures 5 * |Encode(data)| == 8 * |data| + Pad(8 * |data|)
  {
    QuintetsMean(data);
    PaddedLength(data);
    FlatLength5(Quintets(data));
  }

  lemma DecodedLength(s: string)
    requires Decode(s).Some?
    ensures 8 * |Decode(s).value| + 5 * |s| % 8 == 5 * |s|
  {
    var bits := Flat(Untext(s).value, 5);
    FlatLength5(Untext(s).value);
    FlatLength8(Whole(bits));
    WholeMeans(bits);
  }

  /** An accepted text is the encoding of its value exactly when its spare bits are fewer than a character holds. */
  lemma EncodeDecodeExactly(s: string)
    requires Decode(s).Some?
    ensures Encode(Decode(s).value) == s <==> 5 * |s| % 8 < 5
  {
    DecodedLength(s);
    EncodedLength(Decode(s).value);
    if 5 * |s| % 8 < 5 { EncodeDecode(s); }
  }

  lemma EncodeDecode(s: string)
    requires Decode(s).Some? && 5 * |s| % 8 < 5
    ensures Encode(Decode(s).value) == s
  {
    var vs := Untext(s).value;
    var bits := Flat(vs, 5);
    DecodedLength(s);
    FlatLength5(vs);
    WholeMeans(bits);
    TextUntext(s);
    EncodeIs(vs, Whole(bits), |bits| % 8);
  }

  lemma PadIs(n: nat, k: nat, m: nat)
    requires n + k == 5 * m && k < 5
    ensures Pad(n) == k
  {}

  /** The 52-character secrets that decode are exactly the encodings of the 32-byte values, one each. */
  lemma SecretsBijective(s: string, data: seq<byte>)
    requires |s| == 52
    ensures Decode(s) == Some(data) <==> |data| == 32 && s == Encode(data)
  {
    if Decode(s) == Some(data) {
      EncodeDecodeExactly(s);
      DecodedLength(s);
    }
    if s == Encode(data) { DecodeEncode(data); }
  }

  // ----- the loops -----

  /** Emitted groups of k bits and the pending low bits of the buffer make up a bit string. */
  ghost predicate Holds(vs: seq<nat>, k: nat, buffer: nat, bits: nat, s: seq<bit>) {
    Flat(vs, k) + Bits(buffer, bits) == s
  }

  lemma Regroup(a: seq<bit>, b: seq<bit>, c: seq<bit>)
    ensures a + b + c == a + (b + c)
  {}

  /** A group of j bits shifted in. */
  lemma HoldsIn(vs: seq<nat>, k: nat, buffer: nat, bits: nat, from: seq<nat>, v: nat, j: nat)
    requires Holds(vs, k, buffer, bits, Flat(from, j)) && bits + j <= 64 && v < Pow2(j)
    ensures Holds(vs, k, (Shl(buffer, j) + v) % TWO_64, bits + j, Flat(from + [v], j))
  {
    ShiftIn(buffer, v, bits, j);
    FlatSnoc(from, v, j);
    Regroup(Flat(vs, k), Bits(buffer, bits), Bits(v, j));
  }

  /** A group of k bits shifted out. */
  lemma HoldsOut(vs: seq<nat>, k: nat, buffer: nat, bits: nat, s: seq<bit>)
    requires Holds(vs, k, buffer, k + bits, s)
    ensures Holds(vs + [Shr(buffer, bits) % Pow2(k)], k, buffer, bits, s)
  {
    ShiftOut(buffer, bits, k);
    FlatSnoc(vs, Shr(buffer, bits) % Pow2(k), k);
    Regroup(Flat(vs, k), Bits(Shr(buffer, bits) % Pow2(k), k), Bits(buffer, bits));
  }

  lemma TextSnoc(vs: seq<nat>, v: quintet)
    requires Below(vs, 32)
    ensures Below(vs + [v], 32) && Text(vs + [v]) == Text(vs) + [CharOf(v)]
  {
    assert (vs + [v])[..|vs|] == vs;
  }

  method Emit(out: string, buffer: nat, bits: nat, ghost vs: seq<nat>, ghost s: seq<bit>)
    returns (more: string, left: nat, ghost ws: seq<nat>)
    requires Below(vs, 32) && out == Text(vs) && Holds(vs, 5, buffer, bits, s)
    ensures left < 5 && Below(ws, 32) && more == Text(ws) && Holds(ws, 5, buffer, left, s)
  {
    more, left, ws := out, bits, vs;
    while left >= 5
      invariant Below(ws, 32) && more == Text(ws) && Holds(ws, 5, buffer, left, s)
    {
      left := left - 5;
      assert Pow2(5) == 32;
      var v := Shr(buffer, left) % 32;
      HoldsOut(ws, 5, buffer, left, s);
      TextSnoc(ws, v);
      more, ws := more + [CharOf(v)], ws + [v];
    }
  }

  /** The text so far spells the whole quintets of the data so far, the rest is pending. */
  ghost predicate Encoding(out: string, vs: seq<nat>, buffer: nat, bits: nat, data: seq<byte>) {
    bits < 5 && Below(vs, 32) && out == Text(vs) && Holds(vs, 5, buffer, bits, Flat(data, 8))
  }

  /** One byte shifted in, and the quintets it completes out. */
  method TakeByte(out: string, buffer: nat, bits: nat, b: byte, ghost vs: seq<nat>, ghost from: seq<byte>)
    returns (out': string, buffer': nat, bits': nat, ghost vs': seq<nat>)
    requires Encoding(out, vs, buffer, bits, from)
    ensures Encoding(out', vs', buffer', bits', from + [b])
  {
    assert Pow2(8) == 256;
    HoldsIn(vs, 5, buffer, bits, from, b, 8);
    buffer' := (Shl(buffer, 8) + b) % TWO_64;
    out', bits', vs' := Emit(out, buffer', bits + 8, vs, Flat(from + [b], 8));
  }

  method ComputeEncode(data: seq<byte>) returns (out: string)
    ensures out == Encode(data)
  {
    out := [];
    var buffer: nat := 0;
    var bits: nat := 0;
    ghost var vs: seq<nat> := [];
    ghost var done: seq<byte> := [];
    assert Encoding(out, vs, buffer, bits, done);
    for i := 0 to |data|
      invariant done == data[..i] && Encoding(out, vs, buffer, bits, done)
    {
      out, buffer, bits, vs := TakeByte(out, buffer, bits, data[i], vs, done);
      done := done + [data[i]];
    }
    assert done == data;
    out := Finish(out, buffer, bits, vs, data);
  }

  method Finish(out: string, buffer: nat, bits: nat, ghost vs: seq<nat>, data: seq<byte>) returns (all: string)
    requires Encoding(out, vs, buffer, bits, data)
    ensures all == Encode(data)
  {
    if bits > 0 {
      var v := Shl(buffer, 5 - bits) % 32;
      PadLast(vs, buffer, bits, data);
      TextSnoc(vs, v);
      EncodeIs(vs + [v], data, 5 - bits);
      all := out + [CharOf(v)];
    } else {
      assert Flat(vs, 5) == Flat(data, 8) + Zeros(0);
      EncodeIs(vs, data, 0);
      all := out;
    }
  }

  lemma PadLast(vs: seq<nat>, buffer: nat, bits: nat, data: seq<byte>)
    requires 0 < bits < 5 && Holds(vs, 5, buffer, bits, Flat(data, 8))
    ensures Flat(vs + [Shl(buffer, 5 - bits) % 32], 5) == Flat(data, 8) + Zeros(5 - bits)
  {
    var k := 5 - bits;
    PadBits(buffer, bits, k);
    FlatSnoc(vs, Shl(buffer, k) % 32, 5);
    Regroup(Flat(vs, 5), Bits(buffer, bits), Zeros(k));
  }

  lemma PadBits(buffer: nat, bits: nat, k: nat)
    requires bits + k == 5
    ensures Bits(Shl(buffer, k) % 32, 5) == Bits(buffer, bits) + Zeros(k)
  {
    assert Pow2(5) == 32;
    ShiftPad(buffer, bits, k);
    BitsMod(Shl(buffer, k), 5, 5);
  }

  lemma EncodeIs(vs: seq<nat>, data: seq<byte>, k: nat)
    requires k < 5 && Flat(vs, 5) == Flat(data, 8) + Zeros(k) && Below(vs, 32)
    ensures Text(vs) == Encode(data)
  {
    FlatLength5(vs);
    FlatLength8(data);
    PadIs(8 * |data|, k, |vs|);
    QuintetsMean(data);
    SameQuintets(vs, Quintets(data));
  }

  /** One character shifted in, and a byte out when there is one. */
  method TakeChar(out: seq<byte>, buffer: nat, bits: nat, v: quintet, ghost vs: seq<nat>)
    returns (out': seq<byte>, buffer': nat, bits': nat)
    requires bits < 8 && Holds(out, 8, buffer, bits, Flat(vs, 5))
    ensures bits' < 8 && Holds(out', 8, buffer', bits', Flat(vs + [v], 5))
  {
    buffer', bits' := AddQuintet(out, buffer, bits, v, vs);
    out' := out;
    if bits' >= 8 { out', bits' := EmitByte(out, buffer', bits', Flat(vs + [v], 5)); }
  }

  method AddQuintet(ghost out: seq<byte>, buffer: nat, bits: nat, v: quintet, ghost vs: seq<nat>)
    returns (buffer': nat, bits': nat)
    requires bits < 8 && Holds(out, 8, buffer, bits, Flat(vs, 5))
    ensures bits' == bits + 5 && Holds(out, 8, buffer', bits', Flat(vs + [v], 5))
  {
    assert Pow2(5) == 32;
    HoldsIn(out, 8, buffer, bits, vs, v, 5);
    buffer', bits' := (Shl(buffer, 5) + v) % TWO_64, bits + 5;
  }

  method EmitByte(out: seq<byte>, buffer: nat, bits: nat, ghost s: seq<bit>) returns (out': seq<byte>, bits': nat)
    requires bits >= 8 && Holds(out, 8, buffer, bits, s)
    ensures bits' == bits - 8 && Holds(out', 8, buffer, bits', s)
  {
    assert Pow2(8) == 256;
    bits' := bits - 8;
    HoldsOut(out, 8, buffer, bits', s);
    out' := out + [Shr(buffer, bits') % 256];
  }

  method ComputeDecode(s: string) returns (r: Option<seq<byte>>)
    ensures r == Decode(s)
  {
    var out: seq<byte> := [];
    var buffer: nat := 0;
    var bits: nat := 0;
    ghost var vs: seq<nat> := [];
    for i := 0 to |s|
      invariant bits < 8 && Untext(s[..i]) == Some(vs) && Holds(out, 8, buffer, bits, Flat(vs, 5))
    {
      assert s[..i + 1][..i] == s[..i];
      var v := IndexOf(s[i]);
      if v.None? {
        UntextPrefix(s, i + 1);
        return None;
      }
      out, buffer, bits := TakeChar(out, buffer, bits, v.value, vs);
      vs := vs + [v.value];
    }
    assert s[..|s|] == s;
    Decoded(s, vs, out, buffer, bits);
    if bits > 0 && buffer % Pow2(bits) != 0 { return None; }
    r := Some(out);
  }

  lemma Decoded(s: string, vs: seq<nat>, out: seq<byte>, buffer: nat, bits: nat)
    requires Untext(s) == Some(vs) && bits < 8 && Holds(out, 8, buffer, bits, Flat(vs, 5))
    ensures Decode(s) == if bits > 0 && buffer % Pow2(bits) != 0 then None else Some(out)
  {
    WholeUnique(out, Bits(buffer, bits));
    RestZero(buffer, bits);
  }

  lemma {:induction false} UntextPrefix(s: string, n: nat)
    requires n <= |s| && Untext(s[..n]).None?
    ensures Untext(s).None?
    decreases |s| - n
  {
    if n < |s| {
      assert s[..n + 1][..n] == s[..n];
      UntextPrefix(s, n + 1);
    } else {
      assert s[..n] == s;
    }
  }

  lemma RestZero(v: nat, n: nat)
    ensures Bits(v, n) == Zeros(n) <==> v % Pow2(n) == 0
  {
    BitsMod(v, n, n);
    BitsOfZero(n);
    ValueOfBits(v % Pow2(n), n);
    ValueOfBits(0, n);
  }
}
