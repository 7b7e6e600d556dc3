/** What the WebAuthn calls answer and leave behind when no round trip fails. */
module Ceremonies {
  import opened Wrappers
  import opened Text
  import opened Environment
  import opened Naming
  import opened Tokens
  import opened Tables
  import opened Calls

  /** The credential a row's ciphertext holds. */
  function Opened(env: Env, p: Passkey): Option<Credential> {
    match env.decrypt(p.ciphertext, p.nonce)
    case None => None
    case Some(text) => env.unmarshal(text)
  }

  function OpenAll(env: Env, rows: seq<Passkey>): (r: Option<seq<Credential>>)
    ensures r.Some? ==> |r.value| == |rows| && forall k :: 0 <= k < |rows| ==> Opened(env, rows[k]) == Some(r.value[k])
  {
    if rows == [] then Some([])
    else
      match (OpenAll(env, rows[..|rows| - 1]), Opened(env, rows[|rows| - 1]))
      case (Some(cs), Some(c)) => Some(cs + [c])
      case _ => None
  }

  /** The index of rows by credential identifier. */
  function Index(rows: seq<Passkey>): (m: map<seq<byte>, Passkey>)
    ensures forall c :: c in m ==> m[c] in rows && m[c].credentialId == c
    ensures forall p :: p in rows ==> p.credentialId in m
  {
    if rows == [] then map[] else Index(rows[..|rows| - 1])[rows[|rows| - 1].credentialId := rows[|rows| - 1]]
  }

  /** ensureWebAuthnUserHandle: a handle is written only where there is none. */
  function WithHandle(t: Tables, user: Id, handle: Handle): (r: Option<Tables>)
    ensures r.Some? ==> user in r.value.users && r.value.passkeys == t.passkeys && r.value.ceremonies == t.ceremonies
  {
    if user !in t.users then None
    else if t.users[user].handle != [] then Some(t)
    else SetHandle(t, user, handle)
  }

  datatype BeginIn = BeginIn(handle: Handle, ceremony: Id, begun: Option<(string, int)>)

  /** Stores the ceremony the library has begun. */
  function Begun(t: Tables, user: Id, flow: Flow, i: BeginIn): Option<Tables> {
    match i.begun
    case None => None
    case Some((data, expires)) => CreateCeremony(t, i.ceremony, Ceremony(user, flow, data, expires))
  }

  function BeginRegistration(env: Env, t: Tables, p: Principal, i: BeginIn): Result<(Tables, Id)> {
    if !p.isUser then Err(Unauthorized)
    else if p.user.None? then Err(InvalidInput)
    else if p.user.value !in t.users then Err(Unauthorized)
    else
      match WithHandle(t, p.user.value, i.handle)
      case None => Err(Internal)
      case Some(t1) =>
        if OpenAll(env, PasskeysOf(t.passkeys, p.user.value)).None? then Err(Internal)
        else
          match Begun(t1, p.user.value, Registration, i)
          case None => Err(Internal)
          case Some(t2) => Ok((t2, i.ceremony))
  }

  datatype FinishIn = FinishIn(
    ceremony: Option<Id>, response: string, now: int, handle: Handle, row: Id, nonce: Nonce, session: Fresh)

  /** The stored ceremony may be finished by this flow at this time. */
  predicate Pending(t: Tables, ceremony: Id, flow: Flow, now: int) {
    ceremony in t.ceremonies && t.ceremonies[ceremony].flow == flow && now <= t.ceremonies[ceremony].expires
  }

  function Sealed(env: Env, id: Id, user: Id, c: Credential, nonce: Nonce): Passkey {
    Passkey(id, user, c.id, env.encrypt(env.marshal(c), nonce), nonce)
  }

  /** Reads the stored session, parses the response and lets the library create the credential. */
  function Created(env: Env, t: Tables, ceremony: Id, cs: seq<Credential>, i: FinishIn): Result<Credential>
    requires ceremony in t.ceremonies && t.ceremonies[ceremony].user in t.users
  {
    var data := t.ceremonies[ceremony].data;
    if !env.readsSession(data) then Err(Internal)
    else if !env.parsesCreation(i.response) then Err(InvalidInput)
    else
      match env.createCredential(t.users[t.ceremonies[ceremony].user].handle, cs, data, i.response)
      case None => Err(InvalidInput)
      case Some(c) => Ok(c)
  }

  function FinishRegistration(env: Env, t: Tables, p: Principal, i: FinishIn): Result<(Tables, Id)> {
    if !p.isUser then Err(Unauthorized)
    else if i.response == "" || p.user.None? || i.ceremony.None? then Err(InvalidInput)
    else
      var user, ceremony := p.user.value, i.ceremony.value;
      if !Pending(t, ceremony, Registration, i.now) || t.ceremonies[ceremony].user != user then Err(Unauthorized)
      else
        match WithHandle(t, user, i.handle)
        case None => Err(Internal)
        case Some(t1) =>
          match OpenAll(env, PasskeysOf(t.passkeys, user))
          case None => Err(Internal)
          case Some(cs) =>
            match Created(env, t1, ceremony, cs, i)
            case Err(e) => Err(e)
            case Ok(c) =>
              var row := Sealed(env, i.row, user, c, i.nonce);
              if PasskeyTaken(t.passkeys, i.row, c.id) then Err(InvalidInput)
              else
                Ok((t1.(passkeys := t.passkeys + [row],
                        ceremonies := t.ceremonies - {ceremony},
                        audit := t.audit + [UserAudit(user, WebAuthnRegister(c.id), i.row)]),
                    i.row))
  }

  /** The user a login e-mail names, and the tables after its handle has been ensured: this write
      is outside any transaction and stays even when the call fails later. */
  function Planted(env: Env, t: Tables, email: string, handle: Handle): Tables {
    if NormalizeEmail(env, email) == "" then t
    else
      match UserByEmail(t, NormalizeEmail(env, email))
      case None => t
      case Some(user) => match WithHandle(t, user, handle) case None => t case Some(t1) => t1
  }

  function BeginLogin(env: Env, t: Tables, email: string, i: BeginIn): Result<(Tables, Id)> {
    if NormalizeEmail(env, email) == "" then Err(InvalidInput)
    else
      match UserByEmail(t, NormalizeEmail(env, email))
      case None => Err(InvalidCredentials)
      case Some(user) =>
        match WithHandle(t, user, i.handle)
        case None => Err(Internal)
        case Some(t1) =>
          match OpenAll(env, PasskeysOf(t.passkeys, user))
          case None => Err(Internal)
          case Some(cs) =>
            if cs == [] then Err(InvalidCredentials)
            else
              match Begun(t1, user, Authentication, i)
              case None => Err(Internal)
              case Some(t2) => Ok((t2, i.ceremony))
  }

  function FinishLogin(env: Env, t: Tables, i: FinishIn): Result<(Tables, AuthResult)> {
    if i.response == "" || i.ceremony.None? then Err(InvalidInput)
    else
      var ceremony := i.ceremony.value;
      if !Pending(t, ceremony, Authentication, i.now) || t.ceremonies[ceremony].user !in t.users
          then Err(InvalidCredentials)
      else Resumed(env, t, ceremony, i)
  }

  /** The part of FinishLogin after the ceremony has been found pending. */
  function Resumed(env: Env, t: Tables, ceremony: Id, i: FinishIn): Result<(Tables, AuthResult)>
    requires ceremony in t.ceremonies
  {
    var user := t.ceremonies[ceremony].user;
    match WithHandle(t, user, i.handle)
    case None => Err(Internal)
    case Some(t1) =>
      match OpenAll(env, PasskeysOf(t.passkeys, user))
      case None => Err(Internal)
      case Some(cs) => if cs == [] then Err(InvalidCredentials) else Validated(env, t1, ceremony, cs, i)
  }

  /** Reads the stored session, parses the response and lets the library validate it. */
  function Answered(env: Env, t: Tables, ceremony: Id, cs: seq<Credential>, i: FinishIn): Result<Credential>
    requires ceremony in t.ceremonies && t.ceremonies[ceremony].user in t.users
  {
    var data := t.ceremonies[ceremony].data;
    if !env.readsSession(data) then Err(Internal)
    else if !env.parsesAssertion(i.response) then Err(InvalidInput)
    else
      match env.validateLogin(t.users[t.ceremonies[ceremony].user].handle, cs, data, i.response)
      case None => Err(InvalidCredentials)
      case Some(c) => Ok(c)
  }

  /** The part of FinishLogin after the user's credentials have been loaded. */
  function Validated(env: Env, t: Tables, ceremony: Id, cs: seq<Credential>, i: FinishIn): Result<(Tables, AuthResult)>
    requires ceremony in t.ceremonies && t.ceremonies[ceremony].user in t.users
  {
    var user := t.ceremonies[ceremony].user;
    var stored := Index(PasskeysOf(t.passkeys, user));
    match Answered(env, t, ceremony, cs, i)
    case Err(e) => Err(e)
    case Ok(c) =>
      if c.id !in stored then Err(InvalidCredentials)
      else if !CanIssue(env, t, user, i.session) then Err(Internal)
      else
        var row := stored[c.id];
        Ok((WithSession(env, t, user, i.session).(
              passkeys := Resealed(t.passkeys, row.id, env.encrypt(env.marshal(c), i.nonce), i.nonce),
              ceremonies := t.ceremonies - {ceremony},
              audit := t.audit + [UserAudit(user, WebAuthnLogin(row.credentialId), row.id)]),
            SessionOf(env, t, user, i.session)))
  }
}
