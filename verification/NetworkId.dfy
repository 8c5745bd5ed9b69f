/** Network ids: the 32-bit FNV-1a hash of a network's name. */
module NetworkIds {
  import opened Bytes

  const FNV_OFFSET: u32 := 0x811c_9dc5
  const FNV_PRIME: nat := 0x0100_0193
  const TWO_32: nat := 0x1_0000_0000

  function XorBit(a: nat, b: nat, place: nat): nat
    requires place > 0
  {
    if a / place % 2 == b / place % 2 then 0 else place
  }

  /** Exclusive or of two octets. */
  function Xor(a: nat, b: nat): nat {
    XorBit(a, b, 128) + XorBit(a, b, 64) + XorBit(a, b, 32) + XorBit(a, b, 16)
    + XorBit(a, b, 8) + XorBit(a, b, 4) + XorBit(a, b, 2) + XorBit(a, b, 1)
  }

  /** One octet into the hash, wrapping at the word size; names are ASCII. */
  function Mix(h: u32, c: char): u32 {
    (h / 256 * 256 + Xor(h % 256, c as int % 256)) * FNV_PRIME % TWO_32
  }

  function Fnv(name: string): u32 {
    if name == [] then FNV_OFFSET else Mix(Fnv(name[..|name| - 1]), name[|name| - 1])
  }

  /** Zero is kept for no network. */
  function NetworkId(name: string): (id: u32)
    ensures id != 0
  {
    if Fnv(name) == 0 then 1 else Fnv(name)
  }

  // ----- a collision -----

  /**
   * One octet on numbers: the hash is `q` above its low octet, which becomes `x`; the product is `k` words and the
   * hash `h`.
   */
  datatype Round = Round(q: nat, low: nat, x: nat, k: nat, h: nat)

  predicate Turns(h: nat, c: char, r: Round) {
    && h == 256 * r.q + r.low && r.low < 256 && r.x == Xor(r.low, c as int % 256)
    && (256 * r.q + r.x) * FNV_PRIME == r.k * TWO_32 + r.h && r.h < TWO_32
  }

  lemma MixIs(h: u32, c: char, r: Round)
    requires Turns(h, c, r)
    ensures Mix(h, c) == r.h
  {
    DivUnique(h, 256, r.q, r.low);
    DivUnique(r.k * TWO_32 + r.h, TWO_32, r.k, r.h);
  }

  lemma HashTurns(name: string, c: char, r: Round)
    requires Turns(Fnv(name), c, r)
    ensures Fnv(name + [c]) == r.h
  {
    assert (name + [c])[..|name|] == name;
    MixIs(Fnv(name), c, r);
  }

  /** The hash of a name of four letters from its four rounds. */
  lemma HashOfFour(name: string, r: Round, s: Round, t: Round, u: Round)
    requires |name| == 4 && Turns(FNV_OFFSET, name[0], r)
    requires Turns(r.h, name[1], s) && Turns(s.h, name[2], t) && Turns(t.h, name[3], u)
    ensures Fnv(name) == u.h
  {
    HashTurns([], name[0], r);
    HashTurns([] + [name[0]], name[1], s);
    HashTurns([] + [name[0]] + [name[1]], name[2], t);
    HashTurns([] + [name[0]] + [name[1]] + [name[2]], name[3], u);
    assert [] + [name[0]] + [name[1]] + [name[2]] + [name[3]] == name;
  }

  /** A round checked on its numbers. */
  lemma Turn(c: char, octet: byte, r: Round) returns (r': Round)
    requires c as int % 256 == octet && r.low < 256 && Xor(r.low, octet) == r.x
    requires (256 * r.q + r.x) * FNV_PRIME == r.k * TWO_32 + r.h && r.h < TWO_32
    ensures Turns(256 * r.q + r.low, c, r') && r' == r
  {
    r' := r;
  }

  lemma FirstRounds(a: string) returns (r: Round, s: Round, t: Round, u: Round)
    requires a == "gwzx"
    ensures Turns(FNV_OFFSET, a[0], r) && Turns(r.h, a[1], s) && Turns(s.h, a[2], t) && Turns(t.h, a[3], u)
    ensures u.h == 0x6b3e8b99
  {
    r := Turn(a[0], 0x67, Round(0x811c9d, 0xc5, 0xa2, 0x811d68, 0xe20c2606));
    s := Turn(a[1], 0x77, Round(0xe20c26, 0x6, 0x71, 0xe20d8a, 0x4a2083e3));
    t := Turn(a[2], 0x7a, Round(0x4a2083, 0xe3, 0x99, 0x4a20f8, 0x4a2f29db));
    u := Turn(a[3], 0x78, Round(0x4a2f29, 0xdb, 0xa3, 0x4a2f9e, 0x6b3e8b99));
  }

  lemma SecondRounds(b: string) returns (r: Round, s: Round, t: Round, u: Round)
    requires b == "16cd"
    ensures Turns(FNV_OFFSET, b[0], r) && Turns(r.h, b[1], s) && Turns(s.h, b[2], t) && Turns(t.h, b[3], u)
    ensures u.h == 0x6b3e8b99
  {
    r := Turn(b[0], 0x31, Round(0x811c9d, 0xc5, 0xf4, 0x811d69, 0x340ca71c));
    s := Turn(b[1], 0x36, Round(0x340ca7, 0x1c, 0x2a, 0x340cf9, 0x19eb271e));
    t := Turn(b[2], 0x63, Round(0x19eb27, 0x1e, 0x7d, 0x19eb50, 0x4a2f29c7));
    u := Turn(b[3], 0x64, Round(0x4a2f29, 0xc7, 0xa3, 0x4a2f9e, 0x6b3e8b99));
  }

  /** Two valid names can have one id. */
  lemma Collision(a: string, b: string)
    requires a == "gwzx" && b == "16cd"
    ensures NetworkId(a) == NetworkId(b)
  {
    var r, s, t, u := FirstRounds(a);
    HashOfFour(a, r, s, t, u);
    var r', s', t', u' := SecondRounds(b);
    HashOfFour(b, r', s', t', u');
  }
}
