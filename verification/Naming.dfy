/** Normal forms the service stores: organization slugs, scopes, roles, API key texts. */
module Naming {
  import opened Wrappers
  import opened Text
  import opened Rfc4648
  import opened Environment

  // Slugs and e-mail addresses

  function NormalizeEmail(env: Env, email: string): string {
    MapChars(TrimSpace(email), env.lower)
  }

  function DashForBlank(c: char): char {
    if c == ' ' then '-' else c
  }

  function NormalizeSlug(env: Env, slug: string): string {
    MapChars(MapChars(TrimSpace(slug), env.lower), DashForBlank)
  }

  predicate IsSlugChar(c: char) {
    'a' <= c <= 'z' || '0' <= c <= '9' || c == '-'
  }

  predicate ValidSlug(slug: string) {
    slug != "" && forall i :: 0 <= i < |slug| ==> IsSlugChar(slug[i])
  }

  /** The loop over the characters of a slug. */
  method ValidateSlug(slug: string) returns (ok: bool)
    ensures ok <==> ValidSlug(slug)
  {
    if slug == "" {
      return false;
    }
    for i := 0 to |slug|
      invariant forall j :: 0 <= j < i ==> IsSlugChar(slug[j])
    {
      if !IsSlugChar(slug[i]) {
        return false;
      }
    }
    return true;
  }

  /** A slug that passes validation is its own normal form. */
  lemma ValidSlugIsNormal(env: Env, slug: string)
    requires env.CaseMapping() && ValidSlug(slug)
    ensures NormalizeSlug(env, slug) == slug
  {
    assert IsSlugChar(slug[0]) && IsSlugChar(slug[|slug| - 1]);
    TrimIsTrimmed(slug);
    assert MapChars(slug, env.lower) == slug;
    assert MapChars(slug, DashForBlank) == slug;
  }

  /** Blanks around an address do not matter, and inside it letters go to lower case one by one. */
  lemma NormalizedEmail(env: Env, l: string, email: string, r: string)
    requires AllSpace(l) && AllSpace(r) && IsTrimmed(email)
    ensures |NormalizeEmail(env, l + email + r)| == |email|
    ensures forall j :: 0 <= j < |email| ==> NormalizeEmail(env, l + email + r)[j] == env.lower(email[j])
  {
    hide TrimSpace, AllSpace;
    TrimSpaceIs(l + email + r, email);
  }

  /** The same for a slug, whose inner blanks become dashes. */
  lemma NormalizedSlug(env: Env, l: string, slug: string, r: string)
    requires AllSpace(l) && AllSpace(r) && IsTrimmed(slug)
    ensures |NormalizeSlug(env, l + slug + r)| == |slug|
    ensures forall j :: 0 <= j < |slug| ==>
              NormalizeSlug(env, l + slug + r)[j] == if env.lower(slug[j]) == ' ' then '-' else env.lower(slug[j])
  {
    hide TrimSpace, AllSpace;
    TrimSpaceIs(l + slug + r, slug);
    var lowered := MapChars(slug, env.lower);
    forall j | 0 <= j < |slug| ensures MapChars(lowered, DashForBlank)[j] == DashForBlank(env.lower(slug[j])) {
      assert lowered[j] == env.lower(slug[j]);
    }
  }

  /** The characters of a valid slug, by their code points: lower-case Latin letters, digits and '-'. */
  lemma SlugAlphabet(slug: string)
    ensures ValidSlug(slug) <==>
              slug != "" && forall c :: c in slug ==> 97 <= c as int <= 122 || 48 <= c as int <= 57 || c as int == 45
  {
    assert forall i :: 0 <= i < |slug| ==> slug[i] in slug;
  }

  // Roles and permissions

  type Permission = string

  const ORGANIZATION_READ: Permission := "organization:read"
  const MEMBERSHIP_READ: Permission := "membership:read"
  const MEMBERSHIP_WRITE: Permission := "membership:write"
  const API_KEY_READ: Permission := "api_key:read"
  const API_KEY_WRITE: Permission := "api_key:write"
  const AUDIT_READ: Permission := "audit:read"
  const TOTP_WRITE: Permission := "totp:write"

  predicate ValidRole(role: string) {
    role in {"owner", "admin", "operator", "viewer", "billing"}
  }

  /** The role table; an unknown role has no permissions. */
  function RolePermissions(role: string): set<Permission> {
    if role == "owner" || role == "admin" then
      {ORGANIZATION_READ, MEMBERSHIP_READ, MEMBERSHIP_WRITE, API_KEY_READ, API_KEY_WRITE, AUDIT_READ, TOTP_WRITE}
    else if role == "operator" || role == "viewer" then
      {ORGANIZATION_READ, MEMBERSHIP_READ, AUDIT_READ, TOTP_WRITE}
    else if role == "billing" then
      {ORGANIZATION_READ, API_KEY_READ, AUDIT_READ, TOTP_WRITE}
    else {}
  }

  /** The role table, written out: who may do what. */
  lemma RoleTable(role: string, permission: string)
    ensures ValidRole(role) <==>
              role == "owner" || role == "admin" || role == "operator" || role == "viewer" || role == "billing"
    ensures permission in RolePermissions(role) <==>
              match permission
              case "organization:read" => ValidRole(role)
              case "audit:read" => ValidRole(role)
              case "totp:write" => ValidRole(role)
              case "membership:read" => ValidRole(role) && role != "billing"
              case "api_key:read" => role == "owner" || role == "admin" || role == "billing"
              case "membership:write" => role == "owner" || role == "admin"
              case "api_key:write" => role == "owner" || role == "admin"
              case _ => false
  {}

  /** Copies the set of a role entry by entry. */
  method PermissionsForRole(role: string) returns (permissions: set<Permission>)
    ensures permissions == RolePermissions(role)
  {
    var base := RolePermissions(role);
    permissions := {};
    var rest := base;
    while rest != {}
      invariant rest <= base && permissions == base - rest
      decreases rest
    {
      var p :| p in rest;
      permissions := permissions + {p};
      rest := rest - {p};
    }
  }

  // API key scopes

  const ALLOWED_SCOPES: set<Permission> :=
    {ORGANIZATION_READ, MEMBERSHIP_READ, MEMBERSHIP_WRITE, API_KEY_READ, API_KEY_WRITE, AUDIT_READ}

  function TrimAll(scopes: seq<string>): (r: seq<string>)
    ensures |r| == |scopes|
  {
    seq(|scopes|, i requires 0 <= i < |scopes| => TrimSpace(scopes[i]))
  }

  /** Each element once, where it occurs first. */
  function FirstOccurrences(xs: seq<string>): (r: seq<string>)
    ensures forall x :: x in r <==> x in xs
  {
    if xs == [] then []
    else
      var r := FirstOccurrences(xs[..|xs| - 1]);
      if xs[|xs| - 1] in r then r else r + [xs[|xs| - 1]]
  }

  predicate AllIn(xs: seq<string>, allowed: set<string>) {
    forall i :: 0 <= i < |xs| ==> xs[i] in allowed
  }

  function Scopes(scopes: seq<string>): Result<seq<string>> {
    if scopes == [] || !AllIn(TrimAll(scopes), ALLOWED_SCOPES) then Err(InvalidInput)
    else Ok(FirstOccurrences(TrimAll(scopes)))
  }

  /** When scopes are accepted: there is one, and each is, but for blanks around it, one of six. */
  lemma ScopesExactly(scopes: seq<string>)
    ensures Scopes(scopes).Ok? <==>
              scopes != [] && forall i :: 0 <= i < |scopes| ==>
                TrimSpace(scopes[i]) in {"organization:read", "membership:read", "membership:write", "api_key:read",
                                         "api_key:write", "audit:read"}
    ensures Scopes(scopes).Err? ==> Scopes(scopes).error == InvalidInput
  {
    hide TrimSpace;
    forall i | 0 <= i < |scopes| ensures TrimAll(scopes)[i] == TrimSpace(scopes[i]) {}
  }

  method ValidateScopes(scopes: seq<string>) returns (r: Result<seq<string>>)
    ensures r == Scopes(scopes)
  {
    if |scopes| == 0 {
      return Err(InvalidInput);
    }
    var allowed := ALLOWED_SCOPES;
    var normalized, ok := CollectScopes(scopes, allowed);
    return if ok then Ok(normalized) else Err(InvalidInput);
  }

  /** The loop of ValidateScopes, over any set of allowed scopes. */
  method CollectScopes(scopes: seq<string>, allowed: set<string>) returns (normalized: seq<string>, ok: bool)
    ensures ok <==> AllIn(TrimAll(scopes), allowed)
    ensures ok ==> normalized == FirstOccurrences(TrimAll(scopes))
  {
    hide TrimSpace;
    normalized := [];
    ghost var xs := TrimAll(scopes);
    for i := 0 to |scopes|
      invariant forall j :: 0 <= j < i ==> xs[j] in allowed
      invariant normalized == FirstOccurrences(xs[..i])
    {
      var scope := TrimSpace(scopes[i]);
      if scope !in allowed {
        assert xs[i] !in allowed;
        return normalized, false;
      }
      assert xs[..i + 1][..i] == xs[..i];
      if scope !in normalized {
        normalized := normalized + [scope];
      }
    }
    assert xs[..|scopes|] == xs;
    return normalized, true;
  }

  predicate Distinct(xs: seq<string>) {
    forall i, j :: 0 <= i < j < |xs| ==> xs[i] != xs[j]
  }

  lemma {:induction false} FirstOccurrencesDistinct(xs: seq<string>)
    ensures Distinct(FirstOccurrences(xs))
  {
    if xs != [] {
      FirstOccurrencesDistinct(xs[..|xs| - 1]);
    }
  }

  lemma {:induction false} DistinctIsFixed(xs: seq<string>)
    requires Distinct(xs)
    ensures FirstOccurrences(xs) == xs
  {
    if xs != [] {
      DistinctIsFixed(xs[..|xs| - 1]);
    }
  }

  /** The surviving elements keep the order in which they first occurred. */
  lemma {:induction false} FirstOccurrencesOrdered(xs: seq<string>, i: nat, j: nat)
    requires i < j < |FirstOccurrences(xs)|
    ensures exists k, l :: 0 <= k < l < |xs| && xs[k] == FirstOccurrences(xs)[i] && xs[l] == FirstOccurrences(xs)[j]
                           && FirstOccurrences(xs)[j] !in xs[..l]
  {
    var before, last := xs[..|xs| - 1], xs[|xs| - 1];
    var r := FirstOccurrences(before);
    if j < |r| {
      FirstOccurrencesOrdered(before, i, j);
      var k, l :| 0 <= k < l < |before| && before[k] == r[i] && before[l] == r[j] && r[j] !in before[..l];
      assert xs[..l] == before[..l];
      assert xs[k] == r[i] && xs[l] == r[j];
    } else {
      assert r[i] in r && r[i] in before;
      var k :| 0 <= k < |before| && before[k] == r[i];
      assert xs[k] == r[i] && xs[|xs| - 1] == last;
    }
  }

  /** Accepted scopes are allowed, distinct, exactly the trimmed input, and accepted again unchanged. */
  lemma ScopesNormalForm(scopes: seq<string>)
    requires Scopes(scopes).Ok?
    ensures
      var r := Scopes(scopes).value;
      && Distinct(r)
      && (forall x :: x in r <==> x in TrimAll(scopes))
      && (forall x :: x in r ==> x in ALLOWED_SCOPES)
      && Scopes(r) == Ok(r)
  {
    hide TrimSpace, FirstOccurrences;
    var r := Scopes(scopes).value;
    FirstOccurrencesDistinct(TrimAll(scopes));
    DistinctIsFixed(r);
    assert TrimAll(scopes)[0] in r;
    forall i | 0 <= i < |r| ensures r[i] in ALLOWED_SCOPES && TrimSpace(r[i]) == r[i] {
      assert r[i] in r;
      var k :| 0 <= k < |scopes| && TrimAll(scopes)[k] == r[i];
      AllowedIsTrimmed(r[i]);
    }
    assert TrimAll(r) == r;
  }

  lemma AllowedIsTrimmed(scope: string)
    requires scope in ALLOWED_SCOPES
    ensures TrimSpace(scope) == scope
  {
    assert scope[0] in {'o', 'm', 'a'} && scope[|scope| - 1] in {'d', 'e'};
    TrimIsTrimmed(scope);
  }

  // API key texts

  function RawKey(prefix: seq<byte>, secret: seq<byte>): string {
    "duk" + "_" + (Hex(prefix) + "_" + Hex(secret))
  }

  function KeyPrefix(raw: string): Option<string> {
    var parts := Split(raw, '_');
    if |parts| != 3 || parts[0] != "duk" then None else Some(parts[1])
  }

  /** A generated key in three parts. */
  lemma PartsOfRawKey(prefix: seq<byte>, secret: seq<byte>)
    ensures Split(RawKey(prefix, secret), '_') == ["duk", Hex(prefix), Hex(secret)]
  {
    var parts := ["duk", Hex(prefix), Hex(secret)];
    JoinCons(parts[1], [parts[2]], '_');
    assert [parts[1]] + [parts[2]] == parts[1..];
    JoinCons("duk", parts[1..], '_');
    assert ["duk"] + parts[1..] == parts;
    SplitJoin(parts, '_');
  }

  /** Splitting a generated key finds its prefix: hexadecimal never holds '_'. */
  lemma PrefixOfRawKey(prefix: seq<byte>, secret: seq<byte>)
    ensures KeyPrefix(RawKey(prefix, secret)) == Some(Hex(prefix))
  {
    hide RawKey, Split, Hex;
    PartsOfRawKey(prefix, secret);
  }

  /** A generated key holds its prefix and its secret: equal texts come from equal random bytes. */
  lemma RawKeyInjective(prefix: seq<byte>, secret: seq<byte>, prefix': seq<byte>, secret': seq<byte>)
    requires RawKey(prefix, secret) == RawKey(prefix', secret')
    ensures prefix == prefix' && secret == secret'
  {
    hide Hex, RawKey, Split;
    PartsOfRawKey(prefix, secret);
    PartsOfRawKey(prefix', secret');
    var a, b := ["duk", Hex(prefix), Hex(secret)], ["duk", Hex(prefix'), Hex(secret')];
    assert a[1] == b[1] && a[2] == b[2];
    HexInjective(prefix, prefix');
    HexInjective(secret, secret');
  }

  /** A text has a prefix exactly when it is "duk", the prefix and a third part around two separators. */
  lemma PrefixedTexts(raw: string, prefix: string)
    ensures KeyPrefix(raw) == Some(prefix) <==>
              '_' !in prefix && exists rest :: '_' !in rest && raw == "duk" + "_" + (prefix + "_" + rest)
  {
    if KeyPrefix(raw) == Some(prefix) {
      var parts := Split(raw, '_');
      JoinSplit(raw, '_');
      SplitParts(raw, '_');
      JoinCons(parts[1], [parts[2]], '_');
      assert [parts[1]] + [parts[2]] == parts[1..];
      assert raw == "duk" + "_" + (prefix + "_" + parts[2]);
    }
    if '_' !in prefix && exists rest :: '_' !in rest && raw == "duk" + "_" + (prefix + "_" + rest) {
      var rest :| '_' !in rest && raw == "duk" + "_" + (prefix + "_" + rest);
      var parts := ["duk", prefix, rest];
      JoinCons(parts[1], [parts[2]], '_');
      assert [parts[1]] + [parts[2]] == parts[1..];
      JoinCons("duk", parts[1..], '_');
      assert ["duk"] + parts[1..] == parts;
      SplitJoin(parts, '_');
    }
  }

  /** No part of a split text holds the separator. */
  lemma {:induction false} SplitParts(s: string, sep: char)
    ensures forall i :: 0 <= i < |Split(s, sep)| ==> sep !in Split(s, sep)[i]
    decreases |s|
  {
    var i := IndexOf(s, sep);
    if i < |s| {
      SplitParts(s[i + 1..], sep);
    } else {
      assert s[..i] == s;
    }
  }
}
