/** Time-based one-time passwords: section 5.3 of RFC 4226, sections 4.2 and 5.2 of RFC 6238. */
module Totp {
  import opened Wrappers
  import opened Text
  import opened Rfc4648
  import opened Environment

  const DIGITS := 6
  const PERIOD := 30
  const MODULUS := 1000000

  // Bytes and bits

  /** The n low bytes of v, most significant first. */
  function BigEndian(v: nat, n: nat): (bytes: seq<byte>)
    ensures |bytes| == n
  {
    if n == 0 then [] else BigEndian(v / 256, n - 1) + [v % 256]
  }

  function BigEndianValue(bytes: seq<byte>): nat {
    if bytes == [] then 0 else 256 * BigEndianValue(bytes[..|bytes| - 1]) + bytes[|bytes| - 1]
  }

  function Pow256(n: nat): nat {
    if n == 0 then 1 else 256 * Pow256(n - 1)
  }

  /** Different counters give different messages. */
  lemma {:induction false} BigEndianRoundTrip(v: nat, n: nat)
    requires v < Pow256(n)
    ensures BigEndianValue(BigEndian(v, n)) == v
  {
    if n > 0 {
      BigEndianRoundTrip(v / 256, n - 1);
      assert BigEndian(v, n)[..n - 1] == BigEndian(v / 256, n - 1);
    }
  }

  /** The bitwise and of two numbers. */
  function BitAnd(a: nat, b: nat): nat {
    if a == 0 || b == 0 then 0 else 2 * BitAnd(a / 2, b / 2) + (a % 2) * (b % 2)
  }

  /** Masking with k ones is the remainder modulo 2^k. */
  lemma {:induction false} MaskIsRemainder(a: nat, k: nat)
    ensures BitAnd(a, Pow2(k) - 1) == a % Pow2(k)
  {
    if k > 0 {
      MaskIsRemainder(a / 2, k - 1);
      var p := Pow2(k - 1);
      assert (Pow2(k) - 1) / 2 == p - 1 && (Pow2(k) - 1) % 2 == 1;
      HalvedRemainder(a, p);
    }
  }

  lemma HalvedRemainder(a: nat, p: nat)
    requires p >= 1
    ensures a % (2 * p) == 2 * ((a / 2) % p) + a % 2
  {
    var q, r := (a / 2) / p, (a / 2) % p;
    assert a / 2 == p * q + r;
    assert a == (2 * p) * q + (2 * r + a % 2);
    RemainderUnique(a, 2 * p, q, 2 * r + a % 2);
  }

  lemma RemainderUnique(a: nat, m: nat, q: nat, r: nat)
    requires m >= 1 && a == m * q + r && r < m
    ensures a % m == r
  {
    assert a == m * (a / m) + a % m;
    assert m * (a / m - q) == r - a % m;
    MultipleIsFar(m, a / m - q);
  }

  lemma MultipleIsFar(m: nat, d: int)
    ensures d >= 1 ==> m * d >= m
    ensures d <= -1 ==> m * d + m <= 0
  {}

  // The one-time password of a MAC

  /** Dynamic truncation: the low 31 bits of the four bytes at the offset the last byte names. */
  function Truncate(mac: Mac): nat {
    var o := mac[19] % 16;
    var b0: nat, b1: nat, b2: nat, b3: nat := mac[o], mac[o + 1], mac[o + 2], mac[o + 3];
    (b0 % 128) * 0x100_0000 + b1 * 0x1_0000 + b2 * 0x100 + b3
  }

  function Hotp(mac: Mac): nat {
    Truncate(mac) % MODULUS
  }

  /** The %06d verb. */
  function ZeroPadded(n: nat, width: nat): string {
    var s := Decimal(n);
    if |s| < width then Repeat('0', width - |s|) + s else s
  }

  lemma {:induction false} DecimalLength(n: nat, width: nat)
    requires width > 0 && n < Pow10(width)
    ensures |Decimal(n)| <= width
  {
    if n >= 10 {
      DecimalLength(n / 10, width - 1);
    }
  }

  function Pow10(k: nat): nat {
    if k == 0 then 1 else 10 * Pow10(k - 1)
  }

  lemma {:induction false} LeadingZeros(k: nat, s: string)
    requires AllDigits(s)
    ensures AllDigits(Repeat('0', k) + s) && Value(Repeat('0', k) + s) == Value(s)
    decreases |s|
  {
    if s != "" {
      LeadingZeros(k, s[..|s| - 1]);
      assert (Repeat('0', k) + s)[..k + |s| - 1] == Repeat('0', k) + s[..|s| - 1];
    } else {
      assert Repeat('0', k) + s == Repeat('0', k);
      ZerosAreZero(k);
    }
  }

  lemma {:induction false} ZerosAreZero(k: nat)
    ensures AllDigits(Repeat('0', k)) && Value(Repeat('0', k)) == 0
  {
    if k > 0 {
      ZerosAreZero(k - 1);
      assert Repeat('0', k)[..k - 1] == Repeat('0', k - 1);
    }
  }

  /** The printed code is exactly six digits, and its value is the number printed. */
  lemma CodeIsSixDigits(n: nat)
    requires n < MODULUS
    ensures |ZeroPadded(n, DIGITS)| == DIGITS && AllDigits(ZeroPadded(n, DIGITS)) && Value(ZeroPadded(n, DIGITS)) == n
  {
    assert Pow10(6) == MODULUS;
    DecimalLength(n, 6);
    DecimalValue(n);
    LeadingZeros(6 - |Decimal(n)|, Decimal(n));
  }

  /** The code of a secret at a time step; a secret that does not decode has none. */
  function Code(env: Env, secret: string, counter: nat): string {
    match Base32DecodeUnpadded(MapChars(secret, env.upper))
    case None => ""
    case Some(key) => ZeroPadded(Hotp(env.hmacSha1(key, BigEndian(counter, 8))), DIGITS)
  }

  /** The text of a secret: base32 without its padding. */
  function SecretText(random: seq<byte>): string {
    TrimTail(Base32Encode(random), '=')
  }

  // Acceptance

  /** Go's division, which truncates toward zero. */
  function TruncDiv(a: int, b: nat): int
    requires b > 0
  {
    if a >= 0 then a / b else -(-a / b)
  }

  /** The presented code is that of the current time step or one next to it. */
  ghost predicate Accepts(env: Env, secret: string, code: string, unix: int) {
    && |TrimSpace(code)| == DIGITS
    && exists c: nat :: InWindow(c, unix) && Code(env, secret, c) == TrimSpace(code)
  }

  predicate InWindow(c: nat, unix: int) {
    TruncDiv(unix, PERIOD) - 1 <= c <= TruncDiv(unix, PERIOD) + 1
  }

  /** The acceptance window of step c is [30(c-1), 30(c+2)). */
  lemma WindowIsNinetySeconds(c: nat, unix: int)
    requires unix >= 0
    ensures InWindow(c, unix) <==> PERIOD * (c - 1) <= unix < PERIOD * (c + 2)
  {}

  /** Before 1970 truncation toward zero widens the window: during the thirty seconds before the
      epoch steps 0 and 1 are accepted, where rounding down would accept step 0 alone. */
  lemma WindowBeforeEpoch(c: nat, unix: int)
    requires unix < 0
    ensures InWindow(c, unix) <==> (c == 0 && unix > -2 * PERIOD) || (c == 1 && unix > -PERIOD)
  {}

  /** The example of section 5.4 of RFC 4226, printed with and without leading zeros. */
  lemma Rfc4226Example()
    ensures Truncate([0x1f, 0x86, 0x98, 0x69, 0x0e, 0x02, 0xca, 0x16, 0x61, 0x85,
                      0x50, 0xef, 0x7f, 0x19, 0xda, 0x8e, 0x94, 0x5b, 0x55, 0x5a]) == 0x50ef7f19
    ensures 0x50ef7f19 % MODULUS == 872921 && ZeroPadded(872921, 6) == "872921" && ZeroPadded(42, 6) == "000042"
  {
    PrintedPadded();
  }

  lemma PrintedPadded()
    ensures ZeroPadded(872921, 6) == "872921" && ZeroPadded(42, 6) == "000042"
  {
    hide Decimal;
    PrintedNumbers();
    assert Repeat('0', 4) + "42" == "000042";
  }

  lemma PrintedNumbers()
    ensures Decimal(872921) == "872921" && Decimal(42) == "42"
  {
    assert Decimal(87) == "87" && Decimal(872) == "872" && Decimal(8729) == "8729" && Decimal(87292) == "87292";
  }

  class TotpManager {
    const env: Env

    constructor (env: Env)
      ensures this.env == env
    {
      this.env := env;
    }

    /** Twenty random bytes, spelt in base32; they are what a decoder gets back. */
    method GenerateSecret(random: Mac) returns (secret: string)
      ensures secret == SecretText(random) && |secret| == 32
      ensures env.CaseMapping() ==> Base32DecodeUnpadded(MapChars(secret, env.upper)) == Some(random)
    {
      secret := TrimTail(Base32Encode(random), '=');
      Base32RoundTrip(random, c => c);
      if env.CaseMapping() {
        Base32RoundTrip(random, env.upper);
      }
    }

    method PutUint64(buf: array<byte>, v: nat)
      requires buf.Length == 8
      modifies buf
      ensures buf[..] == BigEndian(v, 8)
    {
      var rest := v;
      var i := 8;
      while i > 0
        invariant 0 <= i <= 8
        invariant BigEndian(v, 8) == BigEndian(rest, i) + buf[i..]
      {
        i := i - 1;
        buf[i] := rest % 256;
        rest := rest / 256;
      }
    }

    method CodeAt(secret: string, counter: nat) returns (code: string)
      ensures code == Code(env, secret, counter)
    {
      hide Base32DecodeUnpadded, MapChars, ZeroPadded, BigEndian, BigEndianValue, BitAnd, Truncate;
      var key := Base32DecodeUnpadded(MapChars(secret, env.upper));
      if key.None? {
        return "";
      }
      var buf := new byte[8](_ => 0);
      PutUint64(buf, counter);
      var sum := env.hmacSha1(key.value, buf[..]);
      var offset := BitAnd(sum[|sum| - 1], 0x0f);
      MaskIsRemainder(sum[|sum| - 1], 4);
      var binCode := BigEndianValue(sum[offset..offset + 4]);
      binCode := BitAnd(binCode, 0x7fff_ffff);
      code := ZeroPadded(binCode % MODULUS, DIGITS);
      TruncationBits(sum);
    }

    method VerifyCode(secret: string, code: string, unix: int) returns (ok: bool)
      ensures ok <==> Accepts(env, secret, code, unix)
    {
      hide Code, TrimSpace;
      var trimmed := TrimSpace(code);
      if |trimmed| != DIGITS {
        return false;
      }
      var offset := -1;
      while offset <= 1
        invariant -1 <= offset <= 2
        invariant forall c: nat :: InWindow(c, unix) && c < TruncDiv(unix, PERIOD) + offset ==>
            Code(env, secret, c) != trimmed
      {
        var counter := TruncDiv(unix, PERIOD) + offset;
        if counter >= 0 {
          var expected := CodeAt(secret, counter);
          if expected == trimmed {
            assert InWindow(counter, unix);
            return true;
          }
        }
        offset := offset + 1;
      }
      return false;
    }
  }

  lemma FourBytes(b: seq<byte>)
    requires |b| == 4
    ensures
      var b0: nat, b1: nat, b2: nat, b3: nat := b[0], b[1], b[2], b[3];
      BigEndianValue(b) == b0 * 0x100_0000 + b1 * 0x1_0000 + b2 * 0x100 + b3
  {
    var b3, b2, b1 := b[..3], b[..2], b[..1];
    assert b3[..2] == b2 && b2[..1] == b1 && b1[..0] == [];
    assert BigEndianValue(b1) == b[0];
    assert BigEndianValue(b2) == 256 * BigEndianValue(b1) + b[1];
    assert BigEndianValue(b3) == 256 * BigEndianValue(b2) + b[2];
  }

  lemma Pow2Of31()
    ensures Pow2(31) == 0x8000_0000
  {
    assert Pow2(8) == 256;
    assert Pow2(16) == 65536;
    assert Pow2(24) == 0x100_0000;
  }

  lemma LowBits(b0: nat, b1: nat, b2: nat, b3: nat)
    requires b0 < 256 && b1 < 256 && b2 < 256 && b3 < 256
    ensures (b0 * 0x100_0000 + b1 * 0x1_0000 + b2 * 0x100 + b3) % 0x8000_0000 ==
            (b0 % 128) * 0x100_0000 + b1 * 0x1_0000 + b2 * 0x100 + b3
  {
    RemainderUnique(b0 * 0x100_0000 + b1 * 0x1_0000 + b2 * 0x100 + b3, 0x8000_0000,
                    b0 / 128, (b0 % 128) * 0x100_0000 + b1 * 0x1_0000 + b2 * 0x100 + b3);
  }

  /** Reading four bytes big-endian and masking the sign bit is the RFC's truncation. */
  lemma TruncationBits(mac: Mac)
    ensures
      var o := mac[19] % 16;
      BitAnd(BigEndianValue(mac[o..o + 4]), 0x7fff_ffff) == Truncate(mac)
  {
    var o := mac[19] % 16;
    hide Pow2, BitAnd, BigEndianValue;
    FourBytes(mac[o..o + 4]);
    Pow2Of31();
    LowBits(mac[o], mac[o + 1], mac[o + 2], mac[o + 3]);
    MaskIsRemainder(BigEndianValue(mac[o..o + 4]), 31);
  }

  /** Step c is at most one period away and its number is the one these digits spell. */
  ghost predicate Spells(env: Env, key: seq<byte>, digits: string, c: nat, unix: int)
    requires AllDigits(digits)
  {
    PERIOD * (c - 1) <= unix < PERIOD * (c + 2) && Value(digits) == Hotp(env.hmacSha1(key, BigEndian(c, 8)))
  }

  /** A code is that of step c exactly if it is six digits that spell the step's number. */
  lemma CodeOfStep(env: Env, secret: string, key: seq<byte>, code: string, c: nat)
    requires Base32DecodeUnpadded(MapChars(secret, env.upper)) == Some(key)
    ensures Code(env, secret, c) == code <==>
              |code| == DIGITS && AllDigits(code) && Value(code) == Hotp(env.hmacSha1(key, BigEndian(c, 8)))
  {
    hide Base32DecodeUnpadded, MapChars, BigEndian, Hotp, ZeroPadded, Value, AllDigits;
    HotpBelow(env.hmacSha1(key, BigEndian(c, 8)));
    CodeIsSixDigits(Hotp(env.hmacSha1(key, BigEndian(c, 8))));
    if |code| == DIGITS && AllDigits(code) && Value(code) == Hotp(env.hmacSha1(key, BigEndian(c, 8))) {
      SameDigits(code, Code(env, secret, c));
    }
  }

  lemma HotpBelow(mac: Mac)
    ensures Hotp(mac) < MODULUS
  {}

  /** The whole check: from the epoch on, a text is accepted for a secret exactly when the secret decodes
      and the text, trimmed, is six digits spelling the RFC's number of some time step at most one
      period away. */
  lemma AcceptedCodes(env: Env, secret: string, code: string, unix: int)
    requires unix >= 0
    ensures
      var key, digits := Base32DecodeUnpadded(MapChars(secret, env.upper)), TrimSpace(code);
      Accepts(env, secret, code, unix) <==>
        key.Some? && |digits| == DIGITS && AllDigits(digits) && exists c: nat :: Spells(env, key.value, digits, c, unix)
  {
    hide Base32DecodeUnpadded, MapChars, BigEndian, Hotp, ZeroPadded, Value, AllDigits, TrimSpace;
    var key, digits := Base32DecodeUnpadded(MapChars(secret, env.upper)), TrimSpace(code);
    if key.Some? {
      forall c: nat
        ensures InWindow(c, unix) && Code(env, secret, c) == digits <==>
                  |digits| == DIGITS && AllDigits(digits) && Spells(env, key.value, digits, c, unix)
      {
        WindowIsNinetySeconds(c, unix);
        CodeOfStep(env, secret, key.value, digits, c);
      }
    }
  }
}
