/** The life of an API key over whole runs: it authenticates from its creation to its revocation,
    with its own scopes, in its own organization, and no other text does. */
module KeyLife {
  import opened Wrappers
  import opened Text
  import opened Environment
  import opened Naming
  import opened Tokens
  import opened Tables
  import opened Calls
  import opened Runs
  import opened Shapes
  import opened Frames
  import opened Accounts

  predicate Creates(run: seq<Call>, n: int, id: Id) {
    0 <= n < |run| && run[n].CreatesKey? && run[n].create.id == id
  }

  predicate Revokes(run: seq<Call>, n: int, id: Id) {
    0 <= n < |run| && run[n].RevokesKey? && run[n].revoke.key == Some(id)
  }

  ghost predicate Created(run: seq<Call>, id: Id) {
    exists n :: Creates(run, n, id)
  }

  ghost predicate Revoked(run: seq<Call>, id: Id) {
    exists n :: Revokes(run, n, id)
  }

  lemma HistorySnoc(run: seq<Call>, call: Call, id: Id)
    ensures Created(run + [call], id) <==> Created(run, id) || (call.CreatesKey? && call.create.id == id)
    ensures Revoked(run + [call], id) <==> Revoked(run, id) || (call.RevokesKey? && call.revoke.key == Some(id))
  {
    var run' := run + [call];
    assert Creates(run', |run|, id) <==> call.CreatesKey? && call.create.id == id;
    assert Revokes(run', |run|, id) <==> call.RevokesKey? && call.revoke.key == Some(id);
    assert forall n :: 0 <= n < |run| ==> (Creates(run', n, id) <==> Creates(run, n, id));
    assert forall n :: 0 <= n < |run| ==> (Revokes(run', n, id) <==> Revokes(run, n, id));
    if Created(run, id) {
      var n :| Creates(run, n, id);
      assert Creates(run', n, id);
    }
    if Revoked(run, id) {
      var n :| Revokes(run, n, id);
      assert Revokes(run', n, id);
    }
  }

  /** The row a creation leaves behind. */
  ghost predicate KeyFrom(env: Env, t: Tables, key: ApiKey, i: CreateKeyIn) {
    && key.prefix == Hex(i.prefix)
    && key.hash == env.secretHash(RawKey(i.prefix, i.secret))
    && Scopes(i.scopes) == Ok(key.scopes)
    && OrgBySlug(t, NormalizeSlug(env, i.slug)) == Some(key.org)
  }

  ghost predicate SlugsKept(t: Tables, t': Tables) {
    forall slug :: OrgBySlug(t, slug).Some? ==> OrgBySlug(t', slug) == OrgBySlug(t, slug)
  }

  ghost predicate RowsKnown(env: Env, run: seq<Call>, t: Tables) {
    forall n, id :: Creates(run, n, id) ==> id in t.keys && KeyFrom(env, t, t.keys[id], run[n].create)
  }

  /** The keys are those the run created, revoked exactly when the run revoked them. */
  ghost predicate KeysKnown(env: Env, run: seq<Call>, t: Tables) {
    && RowsKnown(env, run, t)
    && (forall id :: id in t.keys <==> Created(run, id))
    && (forall id :: id in t.keys ==> (t.keys[id].revoked <==> Revoked(run, id)))
    && (forall id :: Revoked(run, id) ==> id in t.keys)
  }

  /** A slug once found leads to the same organization ever after. */
  lemma SlugsLast(env: Env, t: Tables, call: Call)
    requires Effect(env, t, call).Some?
    ensures SlugsKept(t, Effect(env, t, call).value)
  {
    if call.Registers? {
      hide Register, Enroll;
      var email, slug, hash := RegisterShape(env, t, call.register);
    } else {
      hide Effect;
      Frame(env, t, call);
    }
  }

  /** Rows stay known while the slugs are kept and a row changes nothing but its revocation. */
  lemma RowsStayKnown(env: Env, run: seq<Call>, call: Call, t: Tables, t': Tables)
    requires RowsKnown(env, run, t) && SlugsKept(t, t')
    requires forall id :: id in t.keys ==> id in t'.keys && t'.keys[id].(revoked := t.keys[id].revoked) == t.keys[id]
    requires call.CreatesKey? ==> call.create.id in t'.keys && KeyFrom(env, t', t'.keys[call.create.id], call.create)
    ensures RowsKnown(env, run + [call], t')
  {
    var run' := run + [call];
    forall n, id | Creates(run', n, id) ensures id in t'.keys && KeyFrom(env, t', t'.keys[id], run'[n].create) {
      if n < |run| {
        assert Creates(run, n, id);
      }
    }
  }

  /** A call that neither creates nor revokes. */
  lemma OthersKnown(env: Env, run: seq<Call>, call: Call, t: Tables, t': Tables)
    requires KeysKnown(env, run, t) && t'.keys == t.keys && !call.CreatesKey? && !call.RevokesKey? && SlugsKept(t, t')
    ensures KeysKnown(env, run + [call], t')
  {
    hide Created, Revoked, RowsKnown, SlugsKept;
    RowsStayKnown(env, run, call, t, t');
    forall id {
      HistorySnoc(run, call, id);
    }
  }

  lemma CreateKnown(env: Env, run: seq<Call>, p: Principal, i: CreateKeyIn, t: Tables, key: ApiKey, t': Tables)
    requires KeysKnown(env, run, t) && i.id !in t.keys && !key.revoked && SlugsKept(t, t') && KeyFrom(env, t', key, i)
    requires t'.keys == t.keys[i.id := key]
    ensures KeysKnown(env, run + [CreatesKey(p, i)], t')
  {
    hide Created, Revoked, RowsKnown, SlugsKept, KeyFrom;
    RowsStayKnown(env, run, CreatesKey(p, i), t, t');
    forall id {
      HistorySnoc(run, CreatesKey(p, i), id);
    }
  }

  lemma RevokeKnown(env: Env, run: seq<Call>, p: Principal, i: RevokeKeyIn, t: Tables, id: Id, t': Tables)
    requires KeysKnown(env, run, t) && id in t.keys && i.key == Some(id) && SlugsKept(t, t')
    requires t'.keys == t.keys[id := t.keys[id].(revoked := true)]
    ensures KeysKnown(env, run + [RevokesKey(p, i)], t')
  {
    hide Created, Revoked, RowsKnown, SlugsKept, KeyFrom;
    RowsStayKnown(env, run, RevokesKey(p, i), t, t');
    forall k {
      HistorySnoc(run, RevokesKey(p, i), k);
    }
  }

  lemma KeysStep(env: Env, run: seq<Call>, t: Tables, call: Call)
    requires KeysKnown(env, run, t) && Effect(env, t, call).Some?
    ensures KeysKnown(env, run + [call], Effect(env, t, call).value)
  {
    hide KeysKnown, SlugsKept, OrgBySlug, Calls.CreateApiKey, Calls.RevokeApiKey, RawKey, Scopes, KeyIsNew,
        NormalizeSlug;
    SlugsLast(env, t, call);
    var t' := Effect(env, t, call).value;
    match call
    case CreatesKey(p, i) =>
      var key := CreateKeyShape(env, t, p, i);
      FoundOrg(env, t, t', p, i.slug, API_KEY_WRITE);
      CreateKnown(env, run, p, i, t, key, t');
    case RevokesKey(p, i) =>
      var id := RevokeKeyShape(env, t, p, i);
      RevokeKnown(env, run, p, i, t, id, t');
    case _ =>
      hide Effect;
      Frame(env, t, call);
      OthersKnown(env, run, call, t, t');
  }

  lemma FoundOrg(env: Env, t: Tables, t': Tables, p: Principal, slug: string, permission: Permission)
    requires SlugsKept(t, t')
    ensures Authorized(env, t, p, slug, permission).Ok? ==>
              var org := Authorized(env, t, p, slug, permission).value;
              && OrgBySlug(t', NormalizeSlug(env, slug)) == Some(org)
              && org in p.permissions && permission in p.permissions[org]
  {}

  lemma NothingKnown(env: Env)
    ensures KeysKnown(env, [], EMPTY)
  {}

  lemma {:induction false} KeysAlwaysKnown(env: Env, run: seq<Call>, ts: seq<Tables>, k: nat)
    requires History(env, run, ts) && k <= |run|
    ensures KeysKnown(env, run[..k], ts[k])
  {
    hide Effect, KeysKnown;
    if k == 0 {
      NothingKnown(env);
      assert run[..0] == [];
    } else {
      KeysAlwaysKnown(env, run, ts, k - 1);
      At(env, run, ts, k - 1);
      KeysStep(env, run[..k - 1], ts[k - 1], run[k - 1]);
    }
  }

  // The theorems

  /** A created key authenticates in every later state until a revocation of it has committed, and
      never again after that; it then acts for no user, in one organization, the one its slug
      names, with exactly the scopes it was created with. */
  lemma KeyWorks(env: Env, run: seq<Call>, ts: seq<Tables>, n: nat, k: nat)
    requires History(env, run, ts) && n < k <= |run| && run[n].CreatesKey?
    ensures
      var i, t := run[n].create, ts[k];
      var org := OrgBySlug(t, NormalizeSlug(env, i.slug));
      && org.Some? && Scopes(i.scopes).Ok?
      && AuthenticateApiKey(env, t, RawKey(i.prefix, i.secret)) ==
         if Revoked(run[..k], i.id) then Err(ApiKeyInvalid)
         else Ok(Principal(false, None, Some(i.id), map[org.value := set s | s in Scopes(i.scopes).value]))
  {
    hide Scopes, RawKey, NormalizeSlug, KeyPrefix, Sound;
    var i, t := run[n].create, ts[k];
    KeysAlwaysKnown(env, run, ts, k);
    AlwaysSound(env, run, ts, k);
    SoundKeys(t);
    assert Creates(run[..k], n, i.id);
    PrefixOfRawKey(i.prefix, i.secret);
  }

  lemma SoundKeys(t: Tables)
    requires Sound(t)
    ensures KeysAgree(t.keys, t.prefixes, t.orgs.Keys)
  {}

  /** A text that is looked up under the prefix of this creation and has the same hash as its key. */
  predicate Matches(env: Env, i: CreateKeyIn, raw: string) {
    KeyPrefix(raw) == Some(Hex(i.prefix)) && env.secretHash(raw) == env.secretHash(RawKey(i.prefix, i.secret))
  }

  /** A creation among the first k calls that the text matches and no call has revoked since. */
  ghost predicate Opens(env: Env, run: seq<Call>, k: nat, n: int, raw: string)
    requires k <= |run|
  {
    0 <= n < k && run[n].CreatesKey? && Matches(env, run[n].create, raw) && !Revoked(run[..k], run[n].create.id)
  }

  lemma KeyBehind(env: Env, run: seq<Call>, ts: seq<Tables>, k: nat, raw: string) returns (n: nat)
    requires History(env, run, ts) && k <= |run| && AuthenticateApiKey(env, ts[k], raw).Ok?
    ensures n < k && run[n].CreatesKey? && AuthenticateApiKey(env, ts[k], raw).value.key == Some(run[n].create.id)
    ensures Opens(env, run, k, n, raw)
  {
    hide Scopes, RawKey, NormalizeSlug, KeyPrefix, RowsKnown, KeyFrom, Sound;
    KeysAlwaysKnown(env, run, ts, k);
    AlwaysSound(env, run, ts, k);
    SoundKeys(ts[k]);
    var id := KeyByPrefix(ts[k], KeyPrefix(raw).value).value;
    var m :| Creates(run[..k], m, id);
    n := m;
    KnownRow(env, run[..k], ts[k], n);
  }

  lemma KnownRow(env: Env, run: seq<Call>, t: Tables, n: nat)
    requires RowsKnown(env, run, t) && n < |run| && run[n].CreatesKey?
    ensures
      var i := run[n].create;
      && i.id in t.keys && t.keys[i.id].prefix == Hex(i.prefix)
      && t.keys[i.id].hash == env.secretHash(RawKey(i.prefix, i.secret))
      && Scopes(i.scopes) == Ok(t.keys[i.id].scopes)
      && OrgBySlug(t, NormalizeSlug(env, i.slug)) == Some(t.keys[i.id].org)
  {
    assert Creates(run, n, run[n].create.id);
  }

  /** Authentication in full, with nothing assumed of the hash: a text authenticates exactly when it has the
      prefix and the key hash of a creation that has committed and has not been revoked since. */
  lemma AuthenticatesExactly(env: Env, run: seq<Call>, ts: seq<Tables>, k: nat, raw: string)
    requires History(env, run, ts) && k <= |run|
    ensures AuthenticateApiKey(env, ts[k], raw).Ok? <==> exists n :: Opens(env, run, k, n, raw)
    ensures AuthenticateApiKey(env, ts[k], raw).Err? ==> AuthenticateApiKey(env, ts[k], raw).error == ApiKeyInvalid
  {
    hide Scopes, RawKey, NormalizeSlug, KeyPrefix, Sound, RowsKnown;
    if AuthenticateApiKey(env, ts[k], raw).Ok? {
      var n := KeyBehind(env, run, ts, k, raw);
    }
    KeysAlwaysKnown(env, run, ts, k);
    AlwaysSound(env, run, ts, k);
    SoundKeys(ts[k]);
    forall n | Opens(env, run, k, n, raw) ensures AuthenticateApiKey(env, ts[k], raw).Ok? {
      KnownRow(env, run[..k], ts[k], n);
    }
  }

  /** The text does not share its hash with a key of the run that it is not. */
  predicate NoCollision(env: Env, run: seq<Call>, raw: string) {
    forall n :: 0 <= n < |run| && run[n].CreatesKey? ==>
                  env.secretHash(raw) == env.secretHash(KeyText(run[n].create)) ==> raw == KeyText(run[n].create)
  }

  function KeyText(i: CreateKeyIn): string {
    RawKey(i.prefix, i.secret)
  }

  /** So a text whose hash collides with no key of the run authenticates exactly when it was returned by a
      committed creation whose key has not been revoked since. */
  lemma OnlyIssuedKeys(env: Env, run: seq<Call>, ts: seq<Tables>, k: nat, raw: string)
    requires History(env, run, ts) && k <= |run| && NoCollision(env, run[..k], raw)
    ensures AuthenticateApiKey(env, ts[k], raw).Ok? <==>
              exists n :: 0 <= n < k && run[n].CreatesKey? && raw == KeyText(run[n].create)
                  && !Revoked(run[..k], run[n].create.id)
  {
    hide AuthenticateApiKey, RawKey, KeyPrefix;
    AuthenticatesExactly(env, run, ts, k, raw);
    forall n | 0 <= n < k && run[n].CreatesKey? && !Revoked(run[..k], run[n].create.id)
      ensures Opens(env, run, k, n, raw) <==> raw == KeyText(run[n].create)
    {
      PrefixOfRawKey(run[n].create.prefix, run[n].create.secret);
      assert run[..k][n] == run[n];
    }
  }

  /** The prefix column of a new key collides exactly if an earlier creation drew the same prefix bytes:
      the hexadecimal spelling never makes two prefixes one. */
  lemma PrefixTaken(env: Env, run: seq<Call>, ts: seq<Tables>, k: nat, prefix: seq<byte>)
    requires History(env, run, ts) && k <= |run|
    ensures Hex(prefix) in ts[k].prefixes <==>
              exists n :: 0 <= n < k && run[n].CreatesKey? && run[n].create.prefix == prefix
  {
    hide Hex, Sound, RowsKnown, Revoked;
    KeysAlwaysKnown(env, run, ts, k);
    AlwaysSound(env, run, ts, k);
    SoundKeys(ts[k]);
    if Hex(prefix) in ts[k].prefixes {
      var id := ts[k].prefixes[Hex(prefix)];
      var n :| Creates(run[..k], n, id);
      KnownRow(env, run[..k], ts[k], n);
      HexInjective(run[n].create.prefix, prefix);
    }
    forall n: nat | n < k && run[n].CreatesKey? && run[n].create.prefix == prefix
        ensures Hex(prefix) in ts[k].prefixes {
      KnownRow(env, run[..k], ts[k], n);
    }
  }

  /** Two creations of a run whose texts are equal drew the same prefix and the same secret, and so they are one:
      no text is ever given out twice. */
  lemma TextsDiffer(env: Env, run: seq<Call>, ts: seq<Tables>, n: nat, m: nat)
    requires History(env, run, ts) && n < |run| && m < |run| && run[n].CreatesKey? && run[m].CreatesKey?
    requires KeyText(run[n].create) == KeyText(run[m].create)
    ensures run[n].create.prefix == run[m].create.prefix && run[n].create.secret == run[m].create.secret
    ensures n == m
  {
    hide RawKey;
    var a, b := run[n].create, run[m].create;
    RawKeyInjective(a.prefix, a.secret, b.prefix, b.secret);
    if n < m {
      PrefixIsNew(env, run, ts, n, m);
    } else if m < n {
      PrefixIsNew(env, run, ts, m, n);
    }
  }

  lemma PrefixIsNew(env: Env, run: seq<Call>, ts: seq<Tables>, n: nat, m: nat)
    requires History(env, run, ts) && n < m < |run| && run[n].CreatesKey? && run[m].CreatesKey?
    ensures run[n].create.prefix != run[m].create.prefix
  {
    hide Calls.CreateApiKey, RawKey, Hex, Scopes, NormalizeSlug, Authorized;
    At(env, run, ts, m);
    PrefixTaken(env, run, ts, m, run[m].create.prefix);
    var key := CreateKeyShape(env, ts[m], run[m].p, run[m].create);
  }
}
