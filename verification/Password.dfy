/** The stored password record: printing it, and reading it back to verify a password. */
module Password {
  import opened Wrappers
  import opened Text
  import opened Rfc4648
  import opened Environment

  const MEMORY := 65536
  const ITERATIONS := 3
  const PARALLELISM := 2
  const KEY_LENGTH := 32

  const UINT32 := 0x1_0000_0000
  const UINT8 := 256

  datatype Params = Params(memory: nat, iterations: nat, parallelism: nat)

  function PrintParams(p: Params): string {
    "m=" + Decimal(p.memory) + (",t=" + Decimal(p.iterations) + (",p=" + Decimal(p.parallelism)))
  }

  /** The record of a salt and a hash. */
  function PrintRecord(p: Params, salt: seq<byte>, hash: seq<byte>): string {
    RecordText(PrintParams(p), Base64Encode(salt), Base64Encode(hash))
  }

  /** The format string of the record: six fields, the first one empty, between '$' signs. */
  function RecordText(params: string, salt: string, hash: string): string {
    "$" + ("argon2id" + "$" + ("v=19" + "$" + (params + "$" + (salt + "$" + hash))))
  }

  /** HashPassword with the random salt it drew. */
  function HashPassword(env: Env, password: seq<byte>, salt: seq<byte>): string {
    PrintRecord(Params(MEMORY, ITERATIONS, PARALLELISM), salt,
                env.argon2(password, salt, ITERATIONS, MEMORY, PARALLELISM, KEY_LENGTH))
  }

  /** One literal and one %d of the scan format: the number, which must fit its variable, and the rest of the text. */
  function ScanNumber(s: string, literal: string, limit: nat): Option<(nat, string)> {
    if !(literal <= s) then None
    else
      var body := s[|literal|..];
      var n := DigitRun(body);
      if n == 0 || Value(body[..n]) >= limit then None else Some((Value(body[..n]), body[n..]))
  }

  /** fmt.Sscanf, number by number; text after the last number is ignored. */
  function ScanParams(s: string): Option<Params> {
    match ScanNumber(s, "m=", UINT32)
    case None => None
    case Some((m, rest)) => ScanIterations(m, rest)
  }

  function ScanIterations(m: nat, s: string): Option<Params> {
    match ScanNumber(s, ",t=", UINT32)
    case None => None
    case Some((t, rest)) => ScanParallelism(m, t, rest)
  }

  function ScanParallelism(m: nat, t: nat, s: string): Option<Params> {
    match ScanNumber(s, ",p=", UINT8)
    case None => None
    case Some((p, _)) => Some(Params(m, t, p))
  }

  /** The parts of a stored record. The version field is not looked at. */
  function ParseRecord(record: string): Option<(Params, seq<byte>, seq<byte>)> {
    var parts := Split(record, '$');
    if |parts| != 6 || parts[1] != "argon2id" then None
    else
      match (ScanParams(parts[3]), Base64Decode(parts[4]), Base64Decode(parts[5]))
      case (Some(p), Some(salt), Some(hash)) => Some((p, salt, hash))
      case _ => None
  }

  function VerifyPassword(env: Env, record: string, password: seq<byte>): Result<bool> {
    match ParseRecord(record)
    case None => Err(InvalidInput)
    case Some((p, salt, expected)) =>
      Ok(env.argon2(password, salt, p.iterations, p.memory, p.parallelism, |expected|) == expected)
  }

  lemma ScanPrinted(literal: string, n: nat, rest: string, limit: nat)
    requires n < limit && (rest == "" || !IsDigit(rest[0]))
    ensures ScanNumber(literal + Decimal(n) + rest, literal, limit) == Some((n, rest))
  {
    var s := literal + Decimal(n) + rest;
    var body := Decimal(n) + rest;
    assert s[|literal|..] == body;
    DigitRunIs(Decimal(n), rest);
    assert body[..|Decimal(n)|] == Decimal(n) && body[|Decimal(n)|..] == rest;
    DecimalValue(n);
  }

  lemma ParallelismRoundTrip(m: nat, t: nat, p: nat)
    requires p < UINT8
    ensures ScanParallelism(m, t, ",p=" + Decimal(p)) == Some(Params(m, t, p))
  {
    assert ",p=" + Decimal(p) == ",p=" + Decimal(p) + "";
    ScanPrinted(",p=", p, "", UINT8);
  }

  lemma IterationsRoundTrip(m: nat, t: nat, p: nat)
    requires t < UINT32 && p < UINT8
    ensures ScanIterations(m, ",t=" + Decimal(t) + (",p=" + Decimal(p))) == Some(Params(m, t, p))
  {
    ParallelismRoundTrip(m, t, p);
    ScanPrinted(",t=", t, ",p=" + Decimal(p), UINT32);
  }

  /** Every parameter triple that fits its variables survives printing and scanning. */
  lemma ParamsRoundTrip(p: Params)
    requires p.memory < UINT32 && p.iterations < UINT32 && p.parallelism < UINT8
    ensures ScanParams(PrintParams(p)) == Some(p)
  {
    IterationsRoundTrip(p.memory, p.iterations, p.parallelism);
    ScanPrinted("m=", p.memory, ",t=" + Decimal(p.iterations) + (",p=" + Decimal(p.parallelism)), UINT32);
  }

  lemma ParamsHaveNoSeparator(p: Params)
    ensures '$' !in PrintParams(p)
  {
    forall n: nat ensures '$' !in Decimal(n) {
      assert forall i :: 0 <= i < |Decimal(n)| ==> IsDigit(Decimal(n)[i]);
    }
  }

  lemma JoinSix(a: string, b: string, c: string, d: string, e: string, f: string, sep: char)
    ensures Join([a, b, c, d, e, f], sep) == a + [sep] + (b + [sep] + (c + [sep] + (d + [sep] + (e + [sep] + f))))
  {
    JoinCons(e, [f], sep);
    assert [e] + [f] == [e, f];
    JoinCons(d, [e, f], sep);
    assert [d] + [e, f] == [d, e, f];
    JoinCons(c, [d, e, f], sep);
    assert [c] + [d, e, f] == [c, d, e, f];
    JoinCons(b, [c, d, e, f], sep);
    assert [b] + [c, d, e, f] == [b, c, d, e, f];
    JoinCons(a, [b, c, d, e, f], sep);
    assert [a] + [b, c, d, e, f] == [a, b, c, d, e, f];
  }

  lemma SplitRecord(p: string, s: string, h: string)
    requires '$' !in p && '$' !in s && '$' !in h
    ensures Split(RecordText(p, s, h), '$') == ["", "argon2id", "v=19", p, s, h]
  {
    JoinSix("", "argon2id", "v=19", p, s, h, '$');
    SplitJoin(["", "argon2id", "v=19", p, s, h], '$');
  }

  /** The printed record splits on '$' into its six fields. */
  lemma RecordFields(p: Params, salt: seq<byte>, hash: seq<byte>)
    ensures Split(PrintRecord(p, salt, hash), '$') ==
            ["", "argon2id", "v=19", PrintParams(p), Base64Encode(salt), Base64Encode(hash)]
  {
    ParamsHaveNoSeparator(p);
    Base64RoundTrip(salt);
    Base64RoundTrip(hash);
    SplitRecord(PrintParams(p), Base64Encode(salt), Base64Encode(hash));
  }

  /** Round trip: whatever the bytes and whatever parameters fit their variables, the printed
      record parses back to them. */
  lemma RecordRoundTrip(p: Params, salt: seq<byte>, hash: seq<byte>)
    requires p.memory < UINT32 && p.iterations < UINT32 && p.parallelism < UINT8
    ensures ParseRecord(PrintRecord(p, salt, hash)) == Some((p, salt, hash))
  {
    hide PrintParams, PrintRecord, ScanParams, Base64Encode, Base64Decode, Split;
    RecordFields(p, salt, hash);
    ParamsRoundTrip(p);
    Base64RoundTrip(salt);
    Base64RoundTrip(hash);
  }

  /** The stored record, field by field, and what Argon2 is asked for. */
  lemma HashFields(env: Env, password: seq<byte>, salt: seq<byte>)
    ensures Split(HashPassword(env, password, salt), '$') ==
            ["", "argon2id", "v=19", "m=65536,t=3,p=2", Base64Encode(salt),
             Base64Encode(env.argon2(password, salt, 3, 65536, 2, 32))]
  {
    hide PrintRecord, PrintParams, Split, Base64Encode;
    RecordFields(Params(65536, 3, 2), salt, env.argon2(password, salt, 3, 65536, 2, 32));
    PrintedParams();
  }

  lemma PrintedParams()
    ensures PrintParams(Params(65536, 3, 2)) == "m=65536,t=3,p=2"
  {
    hide Decimal;
    FixedNumbers();
    assert ",t=3,p=2" == ",t=" + "3" + (",p=" + "2");
  }

  lemma FixedNumbers()
    ensures Decimal(65536) == "65536" && Decimal(3) == "3" && Decimal(2) == "2"
  {
    assert Decimal(6) == "6" && Decimal(65) == "65" && Decimal(655) == "655" && Decimal(6553) == "6553";
  }

  /** Argon2 does not tell the two passwords apart under this salt. */
  predicate SameOutput(env: Env, a: seq<byte>, b: seq<byte>, salt: seq<byte>) {
    env.argon2(a, salt, ITERATIONS, MEMORY, PARALLELISM, KEY_LENGTH) ==
    env.argon2(b, salt, ITERATIONS, MEMORY, PARALLELISM, KEY_LENGTH)
  }

  /** Verifying a password against a record made by HashPassword compares the two Argon2 outputs. */
  lemma VerifyHashed(env: Env, password: seq<byte>, salt: seq<byte>, attempt: seq<byte>)
    requires env.ArgonLength()
    ensures VerifyPassword(env, HashPassword(env, password, salt), attempt) ==
            Ok(SameOutput(env, attempt, password, salt))
  {
    RecordRoundTrip(Params(MEMORY, ITERATIONS, PARALLELISM), salt,
                    env.argon2(password, salt, ITERATIONS, MEMORY, PARALLELISM, KEY_LENGTH));
  }
}
