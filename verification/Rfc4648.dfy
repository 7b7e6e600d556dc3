/** Base32 (section 6 of RFC 4648) and unpadded base64 (sections 4 and 3.2) as the RFC
    defines them: a byte string is a string of bits, cut into groups of five or six with
    zero bits added on the right. */
module Rfc4648 {
  import opened Wrappers
  import opened Text

  type bit = x: int | 0 <= x < 2

  function Pow2(k: nat): (p: nat)
    ensures p >= 1
  {
    if k == 0 then 1 else 2 * Pow2(k - 1)
  }

  /** The k low bits of x, most significant first. */
  function BitsOf(x: nat, k: nat): (bits: seq<bit>)
    ensures |bits| == k
  {
    if k == 0 then [] else BitsOf(x / 2, k - 1) + [x % 2]
  }

  function ValueOf(bits: seq<bit>): (x: nat)
    ensures x < Pow2(|bits|)
  {
    if bits == [] then 0 else 2 * ValueOf(bits[..|bits| - 1]) + bits[|bits| - 1]
  }

  lemma {:induction false} ValueOfBits(x: nat, k: nat)
    requires x < Pow2(k)
    ensures ValueOf(BitsOf(x, k)) == x
  {
    if k > 0 {
      ValueOfBits(x / 2, k - 1);
      assert BitsOf(x, k)[..k - 1] == BitsOf(x / 2, k - 1);
    }
  }

  lemma {:induction false} BitsOfValue(bits: seq<bit>)
    ensures BitsOf(ValueOf(bits), |bits|) == bits
  {
    if bits != [] {
      BitsOfValue(bits[..|bits| - 1]);
    }
  }

  function Zeros(n: nat): (bits: seq<bit>)
    ensures |bits| == n
  {
    seq(n, _ => 0)
  }

  /** The bits of a sequence of k-bit numbers. */
  function Flatten(xs: seq<nat>, k: nat): seq<bit> {
    if xs == [] then [] else BitsOf(xs[0], k) + Flatten(xs[1..], k)
  }

  predicate Below(xs: seq<nat>, n: nat) {
    forall i :: 0 <= i < |xs| ==> xs[i] < n
  }

  /** Groups of k bits, the last one filled up with zero bits. */
  function Groups(bits: seq<bit>, k: nat): (xs: seq<nat>)
    requires k > 0
    ensures Below(xs, Pow2(k))
  {
    if bits == [] then []
    else if |bits| <= k then [ValueOf(bits + Zeros(k - |bits|))]
    else [ValueOf(bits[..k])] + Groups(bits[k..], k)
  }

  /** The whole bytes at the front of a bit string; left-over bits are dropped. */
  function Bytes(bits: seq<bit>): seq<byte> {
    if |bits| < 8 then []
    else
      assert Pow2(8) == 256;
      [ValueOf(bits[..8])] + Bytes(bits[8..])
  }

  /** How many zero bits the last group was filled up with. */
  function Filler(bits: seq<bit>, k: nat): (z: nat)
    requires k > 0
    ensures z < k
  {
    if bits == [] then 0 else if |bits| <= k then k - |bits| else Filler(bits[k..], k)
  }

  lemma {:induction false} FlattenGroups(bits: seq<bit>, k: nat)
    requires k > 0
    ensures Flatten(Groups(bits, k), k) == bits + Zeros(Filler(bits, k))
  {
    hide ValueOf, BitsOf;
    if bits == [] {
    } else if |bits| <= k {
      BitsOfValue(bits + Zeros(k - |bits|));
      var x := ValueOf(bits + Zeros(k - |bits|));
      assert Flatten([x], k) == BitsOf(x, k) + Flatten([], k);
    } else {
      BitsOfValue(bits[..k]);
      FlattenGroups(bits[k..], k);
      assert bits == bits[..k] + bits[k..];
    }
  }

  lemma ByteOfBits(x: byte)
    ensures ValueOf(BitsOf(x, 8)) == x
  {
    assert Pow2(8) == 256;
    ValueOfBits(x, 8);
  }

  lemma {:induction false} BytesOfFlatten(bytes: seq<byte>, tail: seq<bit>)
    requires |tail| < 8
    ensures Bytes(Flatten(bytes, 8) + tail) == bytes
  {
    if bytes == [] {
      assert Flatten(bytes, 8) + tail == tail;
    } else {
      var head, rest := BitsOf(bytes[0], 8), Flatten(bytes[1..], 8) + tail;
      assert Flatten(bytes, 8) + tail == head + rest;
      BytesOfCons(head, rest);
      ByteOfBits(bytes[0]);
      BytesOfFlatten(bytes[1..], tail);
    }
  }

  lemma BytesOfCons(head: seq<bit>, rest: seq<bit>)
    requires |head| == 8
    ensures ValueOf(head) < 256 && Bytes(head + rest) == [ValueOf(head)] + Bytes(rest)
  {
    assert Pow2(8) == 256;
    assert (head + rest)[..8] == head && (head + rest)[8..] == rest;
  }

  /** Grouping and cutting back into bytes returns the original bytes, at every length. */
  lemma BytesOfGroups(bytes: seq<byte>, k: nat)
    requires 0 < k <= 8
    ensures Bytes(Flatten(Groups(Flatten(bytes, 8), k), k)) == bytes
  {
    FlattenGroups(Flatten(bytes, 8), k);
    BytesOfFlatten(bytes, Zeros(Filler(Flatten(bytes, 8), k)));
  }

  lemma {:induction false} FlattenLength(bytes: seq<byte>)
    ensures |Flatten(bytes, 8)| == 8 * |bytes|
  {
    if bytes != [] {
      FlattenLength(bytes[1..]);
    }
  }

  lemma {:induction false} GroupsLength5(bits: seq<bit>)
    ensures |Groups(bits, 5)| == (|bits| + 4) / 5
  {
    if |bits| > 5 {
      GroupsLength5(bits[5..]);
    }
  }

  lemma {:induction false} GroupsLength6(bits: seq<bit>)
    ensures |Groups(bits, 6)| == (|bits| + 5) / 6
  {
    if |bits| > 6 {
      GroupsLength6(bits[6..]);
    }
  }

  // Alphabets

  /** Table 3 of RFC 4648. */
  function Base32Char(d: nat): char
    requires d < 32
  {
    if d < 26 then 'A' + d as char else '2' + (d - 26) as char
  }

  function Base32Value(c: char): (r: Option<nat>)
    ensures r.Some? ==> r.value < 32
  {
    if 'A' <= c <= 'Z' then Some((c - 'A') as nat)
    else if '2' <= c <= '7' then Some((c - '2') as nat + 26)
    else None
  }

  /** Table 1 of RFC 4648. */
  function Base64Char(d: nat): char
    requires d < 64
  {
    if d < 26 then 'A' + d as char
    else if d < 52 then 'a' + (d - 26) as char
    else if d < 62 then '0' + (d - 52) as char
    else if d == 62 then '+' else '/'
  }

  function Base64Value(c: char): (r: Option<nat>)
    ensures r.Some? ==> r.value < 64
  {
    if 'A' <= c <= 'Z' then Some((c - 'A') as nat)
    else if 'a' <= c <= 'z' then Some((c - 'a') as nat + 26)
    else if '0' <= c <= '9' then Some((c - '0') as nat + 52)
    else if c == '+' then Some(62)
    else if c == '/' then Some(63)
    else None
  }

  /** The two tables, written out. */
  lemma Base32Alphabet(d: nat)
    requires d < 32
    ensures Base32Char(d) == "ABCDEFGHIJKLMNOPQRSTUVWXYZ234567"[d]
  {}

  lemma Base64Alphabet(d: nat)
    requires d < 26
    ensures Base64Char(d) == "ABCDEFGHIJKLMNOPQRSTUVWXYZ"[d] && Base64Char(26 + d) == "abcdefghijklmnopqrstuvwxyz"[d]
    ensures d < 12 ==> Base64Char(52 + d) == "0123456789+/"[d]
  {}

  /** The digits of a text, or None when a character is not in the alphabet. */
  function Digits(s: string, value: char -> Option<nat>): (r: Option<seq<nat>>)
    ensures r.Some? ==> |r.value| == |s|
    ensures r.Some? <==> forall i :: 0 <= i < |s| ==> value(s[i]).Some?
    ensures r.Some? ==> forall i :: 0 <= i < |s| ==> value(s[i]) == Some(r.value[i])
  {
    if s == "" then Some([])
    else
      match (value(s[0]), Digits(s[1..], value))
      case (Some(d), Some(ds)) => Some([d] + ds)
      case _ => None
  }

  /** The decoders skip line breaks. */
  function StripNewlines(s: string): string {
    if s == "" then ""
    else if s[0] == '\n' || s[0] == '\r' then StripNewlines(s[1..])
    else [s[0]] + StripNewlines(s[1..])
  }

  lemma {:induction false} NothingToStrip(s: string)
    requires forall i :: 0 <= i < |s| ==> s[i] != '\n' && s[i] != '\r'
    ensures StripNewlines(s) == s
  {
    if s != "" {
      NothingToStrip(s[1..]);
    }
  }

  // Base32

  function Base32Digits(bytes: seq<byte>): (xs: seq<nat>)
    ensures Below(xs, 32)
  {
    assert Pow2(5) == 32;
    Groups(Flatten(bytes, 8), 5)
  }

  function Base32Spell(ds: seq<nat>): (s: string)
    requires Below(ds, 32)
    ensures |s| == |ds|
  {
    seq(|ds|, i requires 0 <= i < |ds| => Base32Char(ds[i]))
  }

  function Padding(n: nat): nat {
    (8 - n % 8) % 8
  }

  /** base32.StdEncoding: padded with '=' to a multiple of eight characters. */
  function Base32Encode(bytes: seq<byte>): string {
    var body := Base32Spell(Base32Digits(bytes));
    body + Repeat('=', Padding(|body|))
  }

  /** base32.StdEncoding without padding: a last quantum of one, three or six characters, which
      no encoder writes, yields no bytes. */
  function Base32DecodeUnpadded(s: string): Option<seq<byte>> {
    match Digits(StripNewlines(s), Base32Value)
    case None => None
    case Some(ds) =>
      var tail := |ds| % 8;
      Some(Bytes(Flatten(if tail in {1, 3, 6} then ds[..|ds| - tail] else ds, 5)))
  }

  lemma Base32CharInverse(d: nat)
    requires d < 32
    ensures Base32Value(Base32Char(d)) == Some(d)
    ensures Base32Char(d) !in {'=', '\n', '\r'}
  {}

  /** Section 6 of RFC 4648, as the TOTP secret uses it: encode, trim the padding, change to upper
      case, decode without padding. For every byte string and every case mapping that
      keeps the alphabet fixed this returns the original bytes. */
  lemma Base32RoundTrip(bytes: seq<byte>, upper: char -> char)
    requires forall d: nat :: d < 32 ==> upper(Base32Char(d)) == Base32Char(d)
    ensures Base32DecodeUnpadded(MapChars(TrimTail(Base32Encode(bytes), '='), upper)) == Some(bytes)
    ensures |TrimTail(Base32Encode(bytes), '=')| == (8 * |bytes| + 4) / 5
  {
    Base32Trimmed(bytes);
    Base32Body(Base32Digits(bytes), upper);
    Base32Length(bytes);
    Base32DecodeDigits(Base32Spell(Base32Digits(bytes)), Base32Digits(bytes));
    BytesOfGroups(bytes, 5);
  }

  lemma Base32Trimmed(bytes: seq<byte>)
    ensures TrimTail(Base32Encode(bytes), '=') == Base32Spell(Base32Digits(bytes))
  {
    var ds := Base32Digits(bytes);
    var body := Base32Spell(ds);
    if body != "" {
      Base32CharInverse(ds[|ds| - 1]);
    }
    TrimTailOfPadded(body, '=', Padding(|body|));
  }

  lemma Base32DecodeDigits(s: string, ds: seq<nat>)
    requires StripNewlines(s) == s && Digits(s, Base32Value) == Some(ds) && |ds| % 8 !in {1, 3, 6}
    ensures Base32DecodeUnpadded(s) == Some(Bytes(Flatten(ds, 5)))
  {}

  /** No encoder writes a last quantum of one, three or six characters. */
  lemma Base32Length(bytes: seq<byte>)
    ensures |Base32Digits(bytes)| == (8 * |bytes| + 4) / 5
    ensures |Base32Digits(bytes)| % 8 !in {1, 3, 6}
  {
    FlattenLength(bytes);
    GroupsLength5(Flatten(bytes, 8));
    var n := |bytes|;
    assert n == 5 * (n / 5) + n % 5;
  }

  lemma Base32Body(ds: seq<nat>, upper: char -> char)
    requires Below(ds, 32)
    requires forall d: nat :: d < 32 ==> upper(Base32Char(d)) == Base32Char(d)
    ensures
      var body := Base32Spell(ds);
      && MapChars(body, upper) == StripNewlines(body) == body
      && Digits(body, Base32Value) == Some(ds)
  {
    var body := Base32Spell(ds);
    forall i | 0 <= i < |body|
      ensures Base32Value(body[i]) == Some(ds[i]) && upper(body[i]) == body[i] && body[i] !in {'\n', '\r'}
    {
      Base32CharInverse(ds[i]);
    }
    assert MapChars(body, upper) == body;
    NothingToStrip(body);
    assert Digits(body, Base32Value).value == ds;
  }

  function MapChars(s: string, f: char -> char): (r: string)
    ensures |r| == |s|
  {
    seq(|s|, i requires 0 <= i < |s| => f(s[i]))
  }

  // Base64

  function Base64Digits(bytes: seq<byte>): (xs: seq<nat>)
    ensures Below(xs, 64)
  {
    assert Pow2(6) == 64;
    Groups(Flatten(bytes, 8), 6)
  }

  function Base64Spell(ds: seq<nat>): (s: string)
    requires Below(ds, 64)
    ensures |s| == |ds|
  {
    seq(|ds|, i requires 0 <= i < |ds| => Base64Char(ds[i]))
  }

  /** base64.RawStdEncoding. */
  function Base64Encode(bytes: seq<byte>): string {
    Base64Spell(Base64Digits(bytes))
  }

  /** A single left-over character is an error; the unused bits of the last one are ignored. */
  function Base64Decode(s: string): Option<seq<byte>> {
    match Digits(StripNewlines(s), Base64Value)
    case None => None
    case Some(ds) => if |ds| % 4 == 1 then None else Some(Bytes(Flatten(ds, 6)))
  }

  lemma Base64CharInverse(d: nat)
    requires d < 64
    ensures Base64Value(Base64Char(d)) == Some(d)
    ensures Base64Char(d) !in {'$', '=', '\n', '\r'}
  {}

  lemma Base64Body(ds: seq<nat>)
    requires Below(ds, 64)
    ensures
      var body := Base64Spell(ds);
      StripNewlines(body) == body && Digits(body, Base64Value) == Some(ds) && '$' !in body
  {
    var body := Base64Spell(ds);
    forall i | 0 <= i < |body|
      ensures Base64Value(body[i]) == Some(ds[i]) && body[i] !in {'$', '\n', '\r'}
    {
      Base64CharInverse(ds[i]);
    }
    NothingToStrip(body);
    assert Digits(body, Base64Value).value == ds;
  }

  /** No encoder leaves a single character over. */
  lemma Base64Length(bytes: seq<byte>)
    ensures |Base64Digits(bytes)| == (8 * |bytes| + 5) / 6
    ensures |Base64Digits(bytes)| % 4 != 1
  {
    FlattenLength(bytes);
    GroupsLength6(Flatten(bytes, 8));
    var n := |bytes|;
    assert n == 3 * (n / 3) + n % 3;
  }

  /** Sections 4 and 3.2 of RFC 4648: decoding returns the encoded bytes, at every length. */
  lemma Base64RoundTrip(bytes: seq<byte>)
    ensures Base64Decode(Base64Encode(bytes)) == Some(bytes)
    ensures '$' !in Base64Encode(bytes)
  {
    Base64Body(Base64Digits(bytes));
    Base64Length(bytes);
    BytesOfGroups(bytes, 6);
  }

  // Encodings as numbers

  /** The number that digits of base r denote, most significant first. */
  function Radix(xs: seq<nat>, r: nat): nat {
    if xs == [] then 0 else r * Radix(xs[..|xs| - 1], r) + xs[|xs| - 1]
  }

  lemma ValueOfSnoc(bits: seq<bit>, b: bit)
    ensures ValueOf(bits + [b]) == 2 * ValueOf(bits) + b
  {
    assert (bits + [b])[..|bits|] == bits;
  }

  lemma Pow2Doubles(v: nat, k: nat)
    ensures v * Pow2(k + 1) == 2 * (v * Pow2(k))
  {}

  lemma ValueOfNothing()
    ensures ValueOf([]) == 0 && Pow2(0) == 1
  {}

  lemma {:induction false} ValueOfConcat(a: seq<bit>, b: seq<bit>)
    ensures ValueOf(a + b) == ValueOf(a) * Pow2(|b|) + ValueOf(b)
  {
    hide ValueOf, Pow2;
    if b == [] {
      assert a + b == a;
      ValueOfNothing();
    } else {
      var b', x := b[..|b| - 1], b[|b| - 1];
      ValueOfConcat(a, b');
      assert a + b == (a + b') + [x] && b == b' + [x];
      ValueOfSnoc(a + b', x);
      ValueOfSnoc(b', x);
      Pow2Doubles(ValueOf(a), |b'|);
    }
  }

  lemma {:induction false} ZerosAreWorthless(n: nat)
    ensures ValueOf(Zeros(n)) == 0
  {
    if n > 0 {
      ZerosAreWorthless(n - 1);
      assert Zeros(n)[..n - 1] == Zeros(n - 1);
    }
  }

  lemma {:induction false} FlattenSnoc(xs: seq<nat>, x: nat, k: nat)
    ensures Flatten(xs + [x], k) == Flatten(xs, k) + BitsOf(x, k)
  {
    if xs == [] {
      assert xs + [x] == [x] && Flatten([], k) == [];
      assert Flatten([x], k) == BitsOf(x, k) + Flatten([], k);
    } else {
      FlattenSnoc(xs[1..], x, k);
      assert (xs + [x])[1..] == xs[1..] + [x];
    }
  }

  lemma RadixSnoc(xs: seq<nat>, x: nat, r: nat)
    ensures Radix(xs + [x], r) == r * Radix(xs, r) + x
  {
    assert (xs + [x])[..|xs|] == xs;
  }

  lemma NoDigits(k: nat)
    ensures Flatten([], k) == [] && Radix([], Pow2(k)) == 0 && ValueOf([]) == 0
  {}

  lemma {:induction false} RadixOfFlatten(xs: seq<nat>, k: nat)
    requires Below(xs, Pow2(k))
    ensures ValueOf(Flatten(xs, k)) == Radix(xs, Pow2(k)) && |Flatten(xs, k)| == k * |xs|
  {
    hide ValueOf, Radix, Flatten, Pow2;
    if xs == [] {
      NoDigits(k);
    } else {
      var before, last := xs[..|xs| - 1], xs[|xs| - 1];
      RadixOfFlatten(before, k);
      assert xs == before + [last];
      FlattenSnoc(before, last, k);
      RadixSnoc(before, last, Pow2(k));
      ValueOfConcat(Flatten(before, k), BitsOf(last, k));
      ValueOfBits(last, k);
      assert k * |xs| == k * |before| + k;
    }
  }

  /** Grouping turns a byte string, read as one number, into digits of base 2^k of that number, shifted left
      by the zero bits the last group was filled up with. */
  lemma GroupsAreDigits(bytes: seq<byte>, k: nat)
    requires k > 0
    ensures
      var ds, z := Groups(Flatten(bytes, 8), k), Filler(Flatten(bytes, 8), k);
      Radix(ds, Pow2(k)) == Radix(bytes, 256) * Pow2(z) && k * |ds| == 8 * |bytes| + z && z < k
  {
    hide Flatten, Groups, Filler, Radix, ValueOf;
    var bits := Flatten(bytes, 8);
    var ds, z := Groups(bits, k), Filler(bits, k);
    assert Pow2(8) == 256;
    RadixOfFlatten(bytes, 8);
    FlattenGroups(bits, k);
    RadixOfFlatten(ds, k);
    ValueOfConcat(bits, Zeros(z));
    ZerosAreWorthless(z);
  }

  /** Base64 in one piece: the characters are the alphabet's digits of the big-endian number of the bytes,
      filled up with fewer than six zero bits. */
  lemma Base64IsNumber(bytes: seq<byte>) returns (ds: seq<nat>, z: nat)
    ensures |Base64Encode(bytes)| == |ds| && Below(ds, 64)
    ensures forall i :: 0 <= i < |ds| ==> Base64Encode(bytes)[i] == Base64Char(ds[i])
    ensures Radix(ds, 64) == Radix(bytes, 256) * Pow2(z) && 6 * |ds| == 8 * |bytes| + z && z < 6
  {
    ds, z := Base64Digits(bytes), Filler(Flatten(bytes, 8), 6);
    assert Pow2(6) == 64;
    GroupsAreDigits(bytes, 6);
  }

  /** And base32, without its padding. */
  lemma Base32IsNumber(bytes: seq<byte>) returns (ds: seq<nat>, z: nat)
    ensures |TrimTail(Base32Encode(bytes), '=')| == |ds| && Below(ds, 32)
    ensures forall i :: 0 <= i < |ds| ==> TrimTail(Base32Encode(bytes), '=')[i] == Base32Char(ds[i])
    ensures Radix(ds, 32) == Radix(bytes, 256) * Pow2(z) && 5 * |ds| == 8 * |bytes| + z && z < 5
  {
    ds, z := Base32Digits(bytes), Filler(Flatten(bytes, 8), 5);
    assert Pow2(5) == 32;
    GroupsAreDigits(bytes, 5);
    Base32Trimmed(bytes);
  }
}
