/** Who is behind a change, over histories whose principals are the ones the tables of the moment give:
    every change of an organization goes back to one of its own owners or admins. */
module Authority {
  import opened Wrappers
  import opened Environment
  import opened Naming
  import opened Tokens
  import opened Tables
  import opened Calls
  import opened Runs
  import opened Accounts
  import opened KeyLife
  import opened Tenants

  /** The principal of an access token's user, or of an API key, as the tables have it now. */
  ghost predicate Genuine(env: Env, t: Tables, p: Principal) {
    || (exists u :: u in t.users && p == Principal(true, Some(u), None, Powers(t, u)))
    || (exists raw :: AuthenticateApiKey(env, t, raw) == Ok(p))
  }

  /** A history in which whoever changes an organization comes with a genuine principal. */
  ghost predicate GenuineHistory(env: Env, run: seq<Call>, ts: seq<Tables>) {
    && History(env, run, ts)
    && forall n :: 0 <= n < |run| && Scoped(run[n]) ==> Genuine(env, ts[n], run[n].p)
  }

  /** Call n changes this organization. */
  ghost predicate ActsIn(env: Env, run: seq<Call>, ts: seq<Tables>, n: nat, org: Id) {
    && n < |run| && n + 1 < |ts| && Scoped(run[n])
    && OrgBySlug(ts[n], NormalizeSlug(env, SlugOf(run[n]))) == Some(org)
    && OnlyIn(ts[n], ts[n + 1], org)
  }

  /** Call n is made by an owner or an admin of the organization. */
  ghost predicate ByOwnerOrAdmin(run: seq<Call>, ts: seq<Tables>, n: nat, org: Id) {
    && n < |run| && n < |ts| && Scoped(run[n]) && run[n].p.user.Some?
    && (org, run[n].p.user.value) in ts[n].members
    && ts[n].members[(org, run[n].p.user.value)] in {"owner", "admin"}
  }

  /** Call n is made with the API key that call m created, with the permission it needs, and not revoked. */
  ghost predicate ByKeyOf(run: seq<Call>, n: nat, m: nat) {
    && m < n < |run| && Scoped(run[n]) && run[m].CreatesKey?
    && run[n].p.key == Some(run[m].create.id)
    && Scopes(run[m].create.scopes).Ok? && Needed(run[n]) in Scopes(run[m].create.scopes).value
    && !KeyLife.Revoked(run[..n], run[m].create.id)
  }

  lemma {:induction false} SlugsStay(env: Env, run: seq<Call>, ts: seq<Tables>, j: nat, k: nat)
    requires History(env, run, ts) && j <= k <= |run|
    ensures SlugsKept(ts[j], ts[k])
  {
    if j < k {
      hide Effect, OrgBySlug;
      SlugsStay(env, run, ts, j, k - 1);
      At(env, run, ts, k - 1);
      SlugsLast(env, ts[k - 1], run[k - 1]);
    }
  }

  lemma Acts(env: Env, run: seq<Call>, ts: seq<Tables>, n: nat) returns (org: Id)
    requires History(env, run, ts) && n < |run| && Scoped(run[n])
    ensures ActsIn(env, run, ts, n, org)
    ensures org in run[n].p.permissions && Needed(run[n]) in run[n].p.permissions[org]
  {
    hide Effect, OnlyIn, OrgBySlug, NormalizeSlug;
    At(env, run, ts, n);
    org := TenantFrame(env, ts[n], run[n]);
  }

  lemma PowersOfWriters(t: Tables, u: Id, org: Id, permission: Permission)
    requires permission in {MEMBERSHIP_WRITE, API_KEY_WRITE}
    requires org in Powers(t, u) && permission in Powers(t, u)[org]
    ensures (org, u) in t.members && t.members[(org, u)] in {"owner", "admin"}
  {
    hide RolePermissions;
    WritersAreOwnersAndAdmins(t.members[(org, u)], permission);
  }

  /** What an authenticated key may do comes from the call that created it, in that call's organization. */
  lemma KeyPowers(env: Env, run: seq<Call>, ts: seq<Tables>, n: nat, raw: string, org: Id) returns (m: nat)
    requires History(env, run, ts) && n <= |run| && AuthenticateApiKey(env, ts[n], raw).Ok?
    requires org in AuthenticateApiKey(env, ts[n], raw).value.permissions
    ensures
      var p := AuthenticateApiKey(env, ts[n], raw).value;
      && m < n && run[m].CreatesKey? && p.key == Some(run[m].create.id) && !KeyLife.Revoked(run[..n], run[m].create.id)
      && Scopes(run[m].create.scopes).Ok?
      && (forall s :: s in p.permissions[org] ==> s in Scopes(run[m].create.scopes).value)
      && OrgBySlug(ts[n], NormalizeSlug(env, run[m].create.slug)) == Some(org)
  {
    hide Scopes, RawKey, NormalizeSlug, KeyPrefix, RowsKnown, Sound;
    m := KeyBehind(env, run, ts, n, raw);
    KeysAlwaysKnown(env, run, ts, n);
    KnownRow(env, run[..n], ts[n], m);
  }

  /** Every change of an organization is made by one of its owners or admins, or with an unrevoked key
      that an earlier change of the same organization created with the permission it takes. */
  lemma ActorOf(env: Env, run: seq<Call>, ts: seq<Tables>, n: nat) returns (org: Id, m: Option<nat>)
    requires GenuineHistory(env, run, ts) && n < |run| && Scoped(run[n])
    ensures ActsIn(env, run, ts, n, org)
    ensures m.None? ==> ByOwnerOrAdmin(run, ts, n, org)
    ensures m.Some? ==> ByKeyOf(run, n, m.value) && ActsIn(env, run, ts, m.value, org)
  {
    hide OnlyIn, AuthenticateApiKey, Powers, NormalizeSlug, SlugsKept;
    org := Acts(env, run, ts, n);
    var p := run[n].p;
    if u :| u in ts[n].users && p == Principal(true, Some(u), None, Powers(ts[n], u)) {
      PowersOfWriters(ts[n], u, org, Needed(run[n]));
      m := None;
    } else {
      var raw :| AuthenticateApiKey(env, ts[n], raw) == Ok(p);
      var k := KeyPowers(env, run, ts, n, raw, org);
      var home := Acts(env, run, ts, k);
      SlugsStay(env, run, ts, k, n);
      SameHome(ts[k], ts[n], NormalizeSlug(env, run[k].create.slug));
      m := Some(k);
    }
  }

  lemma SameHome(t: Tables, t': Tables, slug: string)
    requires SlugsKept(t, t') && OrgBySlug(t, slug).Some?
    ensures OrgBySlug(t', slug) == OrgBySlug(t, slug)
  {}

  /** Going back from the last call of the chain: each call was made with the key the next one created. */
  ghost predicate Chain(env: Env, run: seq<Call>, ts: seq<Tables>, chain: seq<nat>, org: Id) {
    && chain != []
    && (forall i :: 0 <= i < |chain| ==> ActsIn(env, run, ts, chain[i], org))
    && (forall i :: 0 <= i < |chain| - 1 ==> ByKeyOf(run, chain[i], chain[i + 1]))
    && ByOwnerOrAdmin(run, ts, chain[|chain| - 1], org)
  }

  /** Every change of an organization goes back, from key to key, to an owner or admin of that organization;
      all the calls on the way change that organization and no other. */
  lemma {:induction false} TracesToOwner(env: Env, run: seq<Call>, ts: seq<Tables>, n: nat)
    returns (chain: seq<nat>, org: Id)
    requires GenuineHistory(env, run, ts) && n < |run| && Scoped(run[n])
    ensures Chain(env, run, ts, chain, org) && chain[0] == n
  {
    hide ActsIn, ByOwnerOrAdmin, GenuineHistory;
    var o, m := ActorOf(env, run, ts, n);
    org := o;
    if m.None? {
      chain := [n];
    } else {
      var rest, home := TracesToOwner(env, run, ts, m.value);
      OneOrg(env, run, ts, m.value, org, home);
      chain := [n] + rest;
    }
  }

  lemma OneOrg(env: Env, run: seq<Call>, ts: seq<Tables>, n: nat, a: Id, b: Id)
    requires ActsIn(env, run, ts, n, a) && ActsIn(env, run, ts, n, b)
    ensures a == b
  {
    hide OnlyIn;
  }
}
