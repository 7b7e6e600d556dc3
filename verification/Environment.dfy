/** The libraries the service calls, as unknown functions. Nothing is assumed of them but what
    the predicates below say, and each theorem names the ones it needs. */
module Environment {
  import opened Wrappers
  import opened Text
  import opened Rfc4648

  /** An HMAC-SHA-1 output. */
  type Mac = s: seq<byte> | |s| == 20 witness seq(20, _ => 0)

  /** A nonce of the size AES-GCM takes. */
  type Nonce = s: seq<byte> | |s| == 12 witness seq(12, _ => 0)

  /** A WebAuthn library credential: its identifier and everything else it carries. */
  datatype Credential = Credential(id: seq<byte>, rest: string)

  datatype Env = Env(
    refreshTtl: nat,
    refreshHash: string -> string,
    secretHash: string -> string,
    encrypt: (string, Nonce) -> seq<byte>,
    decrypt: (seq<byte>, Nonce) -> Option<string>,
    argon2: (seq<byte>, seq<byte>, nat, nat, nat, nat) -> seq<byte>,
    hmacSha1: (seq<byte>, seq<byte>) -> Mac,
    validEmail: string -> bool,
    lower: char -> char,
    upper: char -> char,
    marshal: Credential -> string,
    unmarshal: string -> Option<Credential>,
    readsSession: string -> bool,
    parsesCreation: string -> bool,
    parsesAssertion: string -> bool,
    createCredential: (seq<byte>, seq<Credential>, string, string) -> Option<Credential>,
    validateLogin: (seq<byte>, seq<Credential>, string, string) -> Option<Credential>)
  {
    /** AES-GCM: what was encrypted decrypts to itself. */
    ghost predicate Decrypts() {
      forall p: string, n: Nonce :: decrypt(encrypt(p, n), n) == Some(p)
    }

    /** JSON: a marshalled credential unmarshals to itself. */
    ghost predicate Unmarshals() {
      forall c :: unmarshal(marshal(c)) == Some(c)
    }

    /** Argon2 returns as many bytes as it is asked for. */
    ghost predicate ArgonLength() {
      forall pw, salt, t, m, p, n :: |argon2(pw, salt, t, m, p, n)| == n
    }

    /** Case mapping leaves the letters that are already in case, digits and '-' alone. */
    ghost predicate CaseMapping() {
      && (forall c :: 'a' <= c <= 'z' || '0' <= c <= '9' || c == '-' ==> lower(c) == c)
      && (forall d: nat :: d < 32 ==> upper(Base32Char(d)) == Base32Char(d))
    }

    /** A validated login returns one of the user's credentials, its identifier unchanged. */
    ghost predicate ReturnsOwnCredential() {
      forall h, cs: seq<Credential>, s, r :: validateLogin(h, cs, s, r).Some? ==>
        exists i :: 0 <= i < |cs| && cs[i].id == validateLogin(h, cs, s, r).value.id
    }
  }
}
