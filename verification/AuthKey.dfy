/** Auth keys: a network, an expiry and a secret in one line of text. */
module AuthKey {
  import opened Bytes
  import opened Prefixes
  import opened Base32

  const AUTH_KEY_PREFIX: string := "lrk-"
  const AUTH_KEY_SECRET_LEN: nat := 32
  const AUTH_KEY_SECRET_CHARS: nat := 52

  datatype AuthKeyError = BadPrefix | BadFormat | BadNetwork | BadExpiry | BadSecretLen | BadSecret

  datatype Parsed = Key(network: string, expiry: nat, secret: string) | Bad(error: AuthKeyError)

  predicate ValidNetwork(s: string) {
    s != [] && forall i :: 0 <= i < |s| ==> 'a' <= s[i] <= 'z' || '0' <= s[i] <= '9'
  }

  /** The parts before and after the first dash. */
  function SplitOnce(s: string): Option<(string, string)> {
    if s == [] then None
    else if s[0] == '-' then Some(([], s[1..]))
    else
      var rest := SplitOnce(s[1..]);
      if rest.None? then None else Some(([s[0]] + rest.value.0, rest.value.1))
  }

  predicate IsDigit(c: char) {
    '0' <= c <= '9'
  }

  predicate AllDigits(s: string) {
    forall i :: 0 <= i < |s| ==> IsDigit(s[i])
  }

  function Decimal(s: string): nat
    requires AllDigits(s)
  {
    if s == [] then 0 else 10 * Decimal(s[..|s| - 1]) + (s[|s| - 1] - '0') as int
  }

  /** An unsigned 64-bit number: one plus sign allowed, at least one digit, no overflow. */
  function ParseU64(s: string): Option<nat> {
    var digits := if s != [] && s[0] == '+' then s[1..] else s;
    if digits == [] || !AllDigits(digits) || Decimal(digits) >= TWO_64 then None else Some(Decimal(digits))
  }

  function Printed(n: nat): (s: string)
    ensures s != [] && AllDigits(s)
  {
    if n < 10 then ['0' + n as char] else Printed(n / 10) + ['0' + (n % 10) as char]
  }

  function Format(network: string, expiry: nat, secret: seq<byte>): string {
    AUTH_KEY_PREFIX + (network + "-" + (Printed(expiry) + "-" + Encode(secret)))
  }

  function Parse(key: string): Parsed {
    if !(AUTH_KEY_PREFIX <= key) then Bad(BadPrefix)
    else
      var first := SplitOnce(key[|AUTH_KEY_PREFIX|..]);
      if first.None? then Bad(BadFormat)
      else
        var second := SplitOnce(first.value.1);
        if second.None? then Bad(BadFormat)
        else ParseFields(first.value.0, second.value.0, second.value.1)
  }

  function ParseFields(network: string, expiry: string, secret: string): Parsed {
    if !ValidNetwork(network) then Bad(BadNetwork)
    else if ParseU64(expiry).None? then Bad(BadExpiry)
    else if |secret| != AUTH_KEY_SECRET_CHARS then Bad(BadSecretLen)
    else
      var data := Decode(secret);
      if data.None? then Bad(BadSecret)
      else if |data.value| != AUTH_KEY_SECRET_LEN then Bad(BadSecretLen)
      else Key(network, ParseU64(expiry).value, secret)
  }

  // ----- parsing inverts printing -----

  lemma {:induction false} SplitOnceAt(a: string, b: string)
    requires forall i :: 0 <= i < |a| ==> a[i] != '-'
    ensures SplitOnce(a + "-" + b) == Some((a, b))
  {
    var s := a + "-" + b;
    if a != [] {
      assert s[1..] == a[1..] + "-" + b;
      SplitOnceAt(a[1..], b);
      assert a == [a[0]] + a[1..];
    } else {
      assert s[1..] == b;
    }
  }

  lemma {:induction false} SplitOnceJoins(s: string)
    requires SplitOnce(s).Some?
    ensures s == SplitOnce(s).value.0 + "-" + SplitOnce(s).value.1
  {
    if s[0] != '-' {
      SplitOnceJoins(s[1..]);
      assert s == [s[0]] + s[1..];
    }
  }

  lemma {:induction false} DecimalPrinted(n: nat)
    ensures Decimal(Printed(n)) == n
  {
    if n >= 10 {
      DecimalPrinted(n / 10);
      assert Printed(n)[..|Printed(n)| - 1] == Printed(n / 10);
    }
  }

  lemma ParsePrinted(n: nat)
    requires n < TWO_64
    ensures ParseU64(Printed(n)) == Some(n)
  {
    DecimalPrinted(n);
    assert IsDigit(Printed(n)[0]);
  }

  lemma FieldsOf(network: string, expiry: nat, secret: seq<byte>)
    requires ValidNetwork(network) && expiry < TWO_64 && |secret| == AUTH_KEY_SECRET_LEN
    ensures ParseFields(network, Printed(expiry), Encode(secret)) == Key(network, expiry, Encode(secret))
  {
    ParsePrinted(expiry);
    EncodedLength(secret);
    DecodeEncode(secret);
  }

  lemma Splits(network: string, digits: string, secret: string)
    requires ValidNetwork(network) && AllDigits(digits)
    ensures SplitOnce(network + "-" + (digits + "-" + secret)) == Some((network, digits + "-" + secret))
    ensures SplitOnce(digits + "-" + secret) == Some((digits, secret))
  {
    SplitOnceAt(network, digits + "-" + secret);
    assert forall i :: 0 <= i < |digits| ==> IsDigit(digits[i]);
    SplitOnceAt(digits, secret);
  }

  /** Every generated key parses to what it was made of. */
  lemma ParseFormat(network: string, expiry: nat, secret: seq<byte>)
    requires ValidNetwork(network) && expiry < TWO_64 && |secret| == AUTH_KEY_SECRET_LEN
    ensures Parse(Format(network, expiry, secret)) == Key(network, expiry, Encode(secret))
  {
    var rest := network + "-" + (Printed(expiry) + "-" + Encode(secret));
    assert (AUTH_KEY_PREFIX + rest)[|AUTH_KEY_PREFIX|..] == rest;
    Splits(network, Printed(expiry), Encode(secret));
    FieldsOf(network, expiry, secret);
  }

  /** The last length check never fires: a secret of 52 characters that decodes has 32 bytes. */
  lemma SecretLengthImplied(s: string)
    requires |s| == AUTH_KEY_SECRET_CHARS && Decode(s).Some?
    ensures |Decode(s).value| == AUTH_KEY_SECRET_LEN
  {
    DecodedLength(s);
  }

  /** An accepted key has the printed form, with one 32-byte secret behind it. */
  lemma ParsedMeans(key: string) returns (expiry: string, secret: seq<byte>)
    requires Parse(key).Key?
    ensures var k := Parse(key);
            && ValidNetwork(k.network) && ParseU64(expiry) == Some(k.expiry)
            && |secret| == AUTH_KEY_SECRET_LEN && k.secret == Encode(secret)
            && key == AUTH_KEY_PREFIX + (k.network + "-" + (expiry + "-" + k.secret))
            && forall other: seq<byte> :: Encode(other) == k.secret ==> other == secret
  {
    var rest := key[|AUTH_KEY_PREFIX|..];
    SplitOnceJoins(rest);
    SplitOnceJoins(SplitOnce(rest).value.1);
    expiry := SplitOnce(SplitOnce(rest).value.1).value.0;
    var k := Parse(key);
    secret := Decode(k.secret).value;
    SecretsBijective(k.secret, secret);
    assert key == AUTH_KEY_PREFIX + rest;
    forall other: seq<byte> | Encode(other) == k.secret ensures other == secret { DecodeEncode(other); }
  }

  /** The printed form: prefix, a valid network, a number, and a secret of 52 characters that decodes. */
  ghost predicate WellFormed(key: string, network: string, expiry: string, secret: string) {
    && key == AUTH_KEY_PREFIX + (network + "-" + (expiry + "-" + secret))
    && ValidNetwork(network) && ParseU64(expiry).Some? && |secret| == AUTH_KEY_SECRET_CHARS && Decode(secret).Some?
  }

  lemma NoDash(expiry: string)
    requires ParseU64(expiry).Some?
    ensures forall i :: 0 <= i < |expiry| ==> expiry[i] != '-'
  {
    var digits := if expiry != [] && expiry[0] == '+' then expiry[1..] else expiry;
    forall i | 0 <= i < |expiry| ensures expiry[i] != '-' {
      if digits == expiry { assert IsDigit(digits[i]); } else if i > 0 { assert IsDigit(digits[i - 1]); }
    }
  }

  lemma WellFormedParses(key: string, network: string, expiry: string, secret: string)
    requires WellFormed(key, network, expiry, secret)
    ensures Parse(key) == Key(network, ParseU64(expiry).value, secret)
  {
    var rest := network + "-" + (expiry + "-" + secret);
    assert (AUTH_KEY_PREFIX + rest)[|AUTH_KEY_PREFIX|..] == rest;
    SplitOnceAt(network, expiry + "-" + secret);
    NoDash(expiry);
    SplitOnceAt(expiry, secret);
    SecretLengthImplied(secret);
  }

  /** A key is accepted if and only if it has the printed form. */
  lemma AcceptedExactly(key: string)
    ensures Parse(key).Key? <==> exists network, expiry, secret :: WellFormed(key, network, expiry, secret)
  {
    if Parse(key).Key? {
      var expiry, secret := ParsedMeans(key);
      DecodeEncode(secret);
      EncodedLength(secret);
      assert WellFormed(key, Parse(key).network, expiry, Parse(key).secret);
    }
    if exists network, expiry, secret :: WellFormed(key, network, expiry, secret) {
      var network, expiry, secret :| WellFormed(key, network, expiry, secret);
      WellFormedParses(key, network, expiry, secret);
    }
  }

  /** Zero never expires; any other expiry is passed strictly after it. */
  predicate IsExpired(key: string, now: nat) {
    var k := Parse(key);
    k.Key? && k.expiry != 0 && now > k.expiry
  }

  /** The expiry written into a key: none for lifetime zero, else the end of the lifetime, saturating. */
  function ExpiryOf(issued: nat, ttl: nat): nat {
    if ttl == 0 then 0 else if issued + ttl < TWO_64 then issued + ttl else TWO_64 - 1
  }

  /** A key generated with a lifetime is good exactly up to and including its last second. */
  lemma GeneratedExpiry(network: string, issued: nat, ttl: nat, secret: seq<byte>, now: nat)
    requires ValidNetwork(network) && |secret| == AUTH_KEY_SECRET_LEN && now < TWO_64
    ensures IsExpired(Format(network, ExpiryOf(issued, ttl), secret), now) <==> ttl != 0 && now > issued + ttl
  {
    ParseFormat(network, ExpiryOf(issued, ttl), secret);
  }
}
