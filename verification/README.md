# Identity service of the control plane

A model of the identity service under `apps/control-plane/internal/auth` and of the SQL it runs, with proofs about it.

- **The rotation protocol** (`Tokens`, `Rotation`, `RotationSafety`, `RotationTheorems`, `RotationChains`,
  `RotationProgress`, `RotationClock`): refreshes, registrations and logins as interleaved READ COMMITTED transactions, step by step.
  A transaction sees the committed token table and its own writes; the guarded UPDATE takes a row lock and looks at the row
  again after waiting; any transaction may fail at any step. Every interleaving refines the serial service.
- **The transactional service** (`Tables`, `Database`, `Calls`, `Identity`, `Ceremonies`, `WebAuthn`, `Server`): a database with
  committed and pending tables and round trips that fail by an arbitrary oracle; classes whose methods follow the Go methods
  statement by statement, each proved against a function (`Calls`, `Ceremonies`) that says what the call answers and commits.
- **Runs of whole calls** (`Runs`, `Shapes`, `Frames`, `Accounts`, `Ledger`, `Sessions`, `KeyLife`, `TotpLife`, `PasskeyLife`,
  `CeremonyLife`, `Tenants`, `References`, `Authority`): what holds after every sequence of committed calls.
  `Server.Server.Serve` carries these theorems over to the running classes, whatever fails. `Shapes` unfolds each call once; `Frames` says what each leaves alone.
- **Answers** (`SessionAnswers`, `Enrolment`, `Admission`, `TotpAnswers`, `PasskeyAnswers`): for each call, at any point of any
  history, exactly when it gives which answer, what it then writes, row by row, and what the answer is good for later:
  the answered token refreshes, the answered key authenticates, the right code at the clock reading is taken.
- **Races** (`Races`): two calls whose unguarded statements interleave, part by part.
- **Codecs** (`Text`, `Rfc4648`, `Totp`, `Password`, `Naming`): base32, base64, time-based codes, the password record,
  slugs, scopes and API key texts.

Hash functions, HMAC, Argon2, AES-GCM, JSON of credentials, the WebAuthn library, address validation and case mapping are
unknown functions (the fields of `Environment.Env`); each theorem names in its `requires` what it needs of them. Random values and
clock readings are inputs of the calls. Times are integers, nanoseconds where the clock is read. Identifiers are natural
numbers, and an identifier text that does not parse is `None`.

Where code, comments and SQL leave a choice, the model follows the code:

- A refresh reads the clock twice, at `service.go:347` for the expiry check and at `tokens.go:90` for the new expiry. One lifetime
  per rotation therefore holds exactly when the second reading is not past the expiry of the token replaced:
  `RotationChains.ExpiryRule` is the exact condition, `RotationProgress.DelayIsReal` a run that misses it.
- `AddMembership` and `UpdateMembership` read once more after their commit and report an error if that read fails; the
  predicate `Identity.ReadsAfterCommit` says exactly when the change is applied and when the call succeeds.
- `BeginWebAuthnLogin` writes a missing user handle outside any transaction; `WebAuthn.KeepsHandle` says exactly what may remain.
- The query that revokes a refresh token (`auth_refresh_tokens.sql.go:72-78`) is never called by the service. The protocol
  admits it as a step of the environment.
- Single use of ceremonies, the write-once handle, verified secrets and the audit replay are stated for runs of whole calls: their SQL is
  not guarded against interleaving. `Races` gives the exact interleavings that break "an enabled secret is a verified one" and the
  single use of a ceremony.
- The version field of a password record is printed and never looked at, in the code as in the model.

## Model

| member | source | states |
|---|---|---|
| RotationTheorems.SerialRefinement | apps/control-plane/internal/auth/service.go:333-391 | In every reachable state of any interleaving of refreshes, registrations, logins, revocations, clock ticks and failures at any step, the committed token table is what the finished calls give when run one at a time in the order of their commits or refusals; every finished call occurs in that history exactly once, with its own arguments and answer, and nothing else does. |
| RotationTheorems.HistoryOnlyGrows | apps/control-plane/internal/auth/repository.go:27-36 | The serial order respects real time: what has been answered at some point of a run stays a prefix of the history of everything answered later. |
| RotationTheorems.AtMostOnce | packages/database/postgres/auth_refresh_tokens.sql.go:96-109 | Two different refreshes that both commit have consumed different rows and presented different tokens: the guarded UPDATE lets each token be used once, whatever the interleaving. |
| RotationTheorems.NoOrphans | apps/control-plane/internal/auth/service.go:362-389 | The replacement a refresh has inserted is in the committed table exactly if that refresh committed; until then, and for ever after losing or failing, no committed row has its hash. A committed refresh has linked its target to it. |
| RotationTheorems.ClaimedForever | packages/database/postgres/auth_refresh_tokens.sql.go:96-109 | Once a rotation is in the history its row stays used at that time and replaced by that row in every later table. |
| RotationTheorems.RefusalIsSerial | apps/control-plane/internal/auth/service.go:337-349 | A refresh that is refused, whether by its early unlocked read or by the guard after a lock wait, is refused at a moment when a refresh run alone, presenting the same token with the clock reading the refused call itself took, would be refused too. |
| RotationClock.ReadingsAreReal | apps/control-plane/internal/auth/service.go:337-375 | In every run, each clock reading, row and identifier a transaction ends with is the one its own step took: used_at is the clock when it began, the expiry check's reading that of the check, and the replacement expires one lifetime after its insertion and belongs to the user of the row that was read. |
| RotationSafety.InvStep | apps/control-plane/internal/auth/service.go:326-392 | The protocol's invariant (serial replay gives the table, private rows stay private, one holder per row lock, stale reads agree on the fields that never change) is kept by every enabled step. |
| RotationSafety.PublishIsSerial | apps/control-plane/internal/auth/service.go:362-389 | The commit of a transaction that claimed its row some time ago is, on the table as it is at the commit, the atomic rotation with the transaction's own clock readings. |
| RotationChains.ChainStructure | apps/control-plane/internal/auth/service.go:362-375 | In every reachable state replaced_by splits the token table into finite, acyclic, single-user chains; used_at is set exactly where replaced_by is, so each chain has exactly one unused token, its last. |
| RotationChains.RootOrReplacement | packages/database/postgres/auth_refresh_tokens.sql.go:14-31 | Every token is either the first of a chain, and then no row is replaced by it, or the replacement of exactly one used row. |
| RotationChains.Conservation | apps/control-plane/internal/auth/service.go:1104-1143 | The number of unused tokens equals the number of committed registrations and logins. |
| RotationChains.OneLifetime | apps/control-plane/internal/auth/tokens.go:83-92 | One rotation keeps to one lifetime exactly if it issued its replacement no later than the expiry of the token it replaced; the replacement never expires before that token. |
| RotationChains.ExpiryRule | apps/control-plane/internal/auth/service.go:347-375 | Every link of every chain keeps to a lifetime plus a given allowance exactly if every rotation issued its replacement at most that allowance after the expiry of the token it replaced; with allowance 0, exactly when one lifetime per rotation holds. |
| RotationChains.ExpiryBound | apps/control-plane/internal/auth/tokens.go:83-92 | Under that condition the token k rotations after a root expires no earlier than the root and at most k lifetimes and k allowances after it. |
| RotationChains.PromptIsWithin | apps/control-plane/internal/auth/service.go:347-360 | A call that takes no longer than a delay between its expiry check and issuing meets the condition with that delay as the allowance. |
| RotationProgress.DelayIsReal | apps/control-plane/internal/auth/service.go:347 | For every lifetime and delay there is a reachable state whose one rotation took exactly that delay between its two clock readings and whose replacement expires two lifetimes and the delay after the login. |
| RotationProgress.WaitChain | apps/control-plane/internal/auth/service.go:369-375 | A call that cannot move holds no row, and it waits for a different transaction that holds its row and can move: every wait chain has length one. |
| RotationProgress.DeadlockFree | apps/control-plane/internal/auth/service.go:369-389 | As long as some call of a reachable state is unanswered, some call can take a step towards its answer that is not a failure. |
| RotationProgress.Termination | apps/control-plane/internal/auth/service.go:326-392 | In a run with n calls the transactions take at most seven steps each besides their beginning: no livelock, whatever the scheduler does. |
| RotationProgress.AllCanFinish | apps/control-plane/internal/auth/service.go:326-392 | From every reachable state a run of the transactions' own steps, none of them a failure, answers every open call; calls keep their arguments, answers already given stay, and nobody fails who had not. |
| RotationProgress.RefreshSucceeds | apps/control-plane/internal/auth/service.go:326-392 | Availability: from any state a run exists in which a new call presents a live, unlocked token and commits: the token is used and replaced by the given row, the history gains that one rotation, and no other transaction has moved. |
| Sessions.RefreshIsRotation | apps/control-plane/internal/auth/service.go:326-392 | The call Refresh on its own is the protocol's atomic rotation: its tables are those of the serial event. |
| Sessions.RefreshesWhenRotatable | apps/control-plane/internal/auth/service.go:337-389 | Refresh succeeds exactly when the serial rotation of some row is possible, with the rows and hashes as they are. |
| Sessions.RefusalIsDenial | apps/control-plane/internal/auth/service.go:337-349 | Refresh answers "invalid" exactly when no row with the presented hash is unused, unrevoked and unexpired. |
| Sessions.TokensReplay | apps/control-plane/internal/auth/service.go:1104-1143 | At every point of a history of whole calls the token table is the serial replay of the run's sessions and rotations. |
| Sessions.SessionChains | apps/control-plane/internal/auth/service.go:362-375 | At every point of a history of whole calls replaced_by splits the token table into finite single-user chains. |
| Sessions.SessionsConserved | apps/control-plane/internal/auth/service.go:1104-1143 | At every point as many tokens are unused as sessions have been opened by register, login and passkey login. |
| SessionAnswers.AnswerOpens | apps/control-plane/internal/auth/service.go:1104-1143 | Register, Login, Refresh and FinishWebAuthnLogin answer with the raw token whose hash they have stored: the row found under the hash of the answered token is the session's own, with the answer's user and expiry, one lifetime after the clock reading of its issue, neither used nor revoked; and the answer says whether TOTP is enabled. |
| SessionAnswers.TokenWorks | apps/control-plane/internal/auth/service.go:326-392 | The token a session call answered with, presented to Refresh at any later point of a history, is refused exactly if it has been presented since or the expiry in the answer is over; otherwise it opens a session of the same user, unless the new session's random values collide. |
| SessionAnswers.RefreshExactly | apps/control-plane/internal/auth/service.go:326-392 | Refresh at any point of a history, answer by answer: invalid input for a blank token, invalid token when no unused, unrevoked row with its hash expires at or after the clock reading, an internal error for colliding random values, and otherwise the whole new state, row by row. |
| Database.Db.Commit | apps/control-plane/internal/auth/repository.go:170-172 | A commit publishes the transaction's view, and one that fails publishes nothing. |
| Database.Db.Execute | apps/control-plane/internal/auth/repository.go:27-36 | A statement changes the open transaction's view, or the committed tables when none is open, exactly when the round trip works and no constraint rejects it. |
| Identity.Service.Register | apps/control-plane/internal/auth/service.go:189-265 | All or nothing, for every pattern of failing round trips: with a failure the answer is an internal error and nothing is committed; without one the answer and the committed tables are those of `Calls.Register`, which `Enrolment.RegisterExactly` and `SessionAnswers.AnswerOpens` spell out. |
| Identity.Service.Login | apps/control-plane/internal/auth/service.go:267-324 | The same for Login and `Calls.Login`, including the TOTP check outside the transaction; `Enrolment.LoginExactly` and `Enrolment.UnknownAddress` spell it out. |
| Identity.Service.Refresh | apps/control-plane/internal/auth/service.go:326-392 | The same for Refresh and `Calls.Refresh`, which `SessionAnswers.RefreshExactly` spells out. |
| Identity.Service.SetupTotp | apps/control-plane/internal/auth/service.go:466-514 | The same for SetupTOTP; a new secret always starts disabled (`TotpAnswers.SetupExactly`). |
| Identity.Service.EnableTotp | apps/control-plane/internal/auth/service.go:516-564 | The same for EnableTOTP, whose read and code check precede the transaction (`TotpAnswers.EnableOnClock`). |
| Identity.Service.DisableTotp | apps/control-plane/internal/auth/service.go:566-617 | The same for DisableTOTP (`TotpAnswers.DisableOnClock`). |
| Identity.Service.AddMembership | apps/control-plane/internal/auth/service.go:684-765 | The membership is added exactly when the first six round trips work and `Calls.AddMembership` succeeds, and the call succeeds exactly when the read after the commit works too; `Admission.AddExactly` spells out when that is. |
| Identity.Service.UpdateMembership | apps/control-plane/internal/auth/service.go:767-845 | The role is changed exactly when the first six round trips work and `Calls.UpdateMembership` succeeds, and the call succeeds exactly when the read after the commit works too; `Admission.UpdateExactly` spells out when that is. |
| Identity.ChangeOutlivesFailure | apps/control-plane/internal/auth/service.go:745-760 | Whenever a membership call would succeed and only its read after the commit fails, the answer is an error and the change is committed. |
| Identity.RoleOutlivesFailure | apps/control-plane/internal/auth/service.go:825-840 | One such input: an owner promotes a second member, the seventh round trip fails, and the new role is there. |
| Identity.Service.CreateApiKey | apps/control-plane/internal/auth/service.go:847-918 | All or nothing for CreateAPIKey; the raw key is returned exactly when its row is committed (`Admission.CreateExactly`). |
| Identity.Service.RevokeApiKey | apps/control-plane/internal/auth/service.go:945-1000 | All or nothing for RevokeAPIKey, although the row is updated before its organization is compared: a key of another organization is never revoked. |
| Identity.Service.AuthenticateApiKey | apps/control-plane/internal/auth/service.go:433-464 | The principal is the specified one, or an internal error after a failed round trip; the tables are untouched. |
| Identity.Service.PrincipalForUser | apps/control-plane/internal/auth/service.go:1067-1097 | The loop over the listed organizations builds exactly the role map of the join and the role table's permissions. |
| Identity.Service.VerifyTotpIfEnabled | apps/control-plane/internal/auth/service.go:1163-1186 | Asks for a code only of an enabled credential and accepts exactly the codes of the time window, which `TotpAnswers.LoginOnClock` gives in nanoseconds and digits. |
| WebAuthn.Passkeys.OpenRows | apps/control-plane/internal/auth/webauthn.go:422-456 | The loop that decrypts the user's rows builds the credential list and the index by credential identifier, or fails if one row does not open. |
| WebAuthn.Unopenable | apps/control-plane/internal/auth/webauthn.go:433-444 | One row that does not decrypt or unmarshal spoils the whole list. |
| WebAuthn.Passkeys.EnsureHandle | apps/control-plane/internal/auth/webauthn.go:402-420 | Writes a user handle only where there is none. |
| WebAuthn.Passkeys.BeginRegistration | apps/control-plane/internal/auth/webauthn.go:55-117 | All or nothing for BeginWebAuthnRegistration (`PasskeyAnswers.BeginRegistrationExactly`). |
| WebAuthn.Passkeys.FinishRegistration | apps/control-plane/internal/auth/webauthn.go:119-222 | All or nothing for FinishWebAuthnRegistration: the credential the library created, the deleted ceremony and the audit entry, or nothing (`PasskeyAnswers.RegistrationExactly`). |
| WebAuthn.Passkeys.BeginLogin | apps/control-plane/internal/auth/webauthn.go:224-270 | The ceremony is stored exactly on success. After a failure the handle write outside the transaction remains exactly if the first two round trips, the read of the user and that write, have worked, and nothing else remains. |
| WebAuthn.HandleOutlivesFailure | apps/control-plane/internal/auth/webauthn.go:234-250 | One failing input: a user without a handle and a failing third round trip give an error and a stored handle. |
| WebAuthn.Passkeys.FinishLogin | apps/control-plane/internal/auth/webauthn.go:272-384 | All or nothing for FinishWebAuthnLogin: session, updated credential, deleted ceremony and audit entry, or nothing (`PasskeyAnswers.LoginExactly`, `SessionAnswers.AnswerOpens`). |
| Server.Server.Serve | apps/control-plane/internal/auth/service.go:204-264 | Whatever sequence of calls is served and whichever round trips fail, the committed tables are the last of a history of whole calls. A call that succeeds is its last; one that fails is not in it, except for a membership call whose read after the commit failed, and except that a passkey login may have written a handle. |
| Frames.Frame | apps/control-plane/internal/auth/service.go:204-264 | Every committed call leaves the tables it has no business with as they were and appends exactly one audit entry, of its own kind; beginning a ceremony appends none. |
| Ledger.AuditReplay | apps/control-plane/internal/auth/service.go:1229-1249 | At every point of a history of whole calls, replaying the audit log alone rebuilds exactly the membership roles, each API key's organization, scopes, prefix and revocation, and each user's TOTP state. |
| Ledger.OneEntryEach | apps/control-plane/internal/auth/service.go:1229-1249 | The audit log holds exactly one entry per committed call that is not the beginning of a ceremony, of that call's kind, in commit order. |
| Accounts.AlwaysSound | migrations/00001_init.sql:26-33 | At every point of a history of whole calls every unique column agrees with its index in both directions (addresses, handles, slugs, token hashes, key prefixes, key hashes, both passkey columns), every reference of every table names a row (members, tokens and their replacements, keys and their creators, TOTP rows, passkeys, ceremonies, audit entries), roles, slugs and actor types are allowed ones, and every user and organization has a membership. |
| References.ReferencesStep | migrations/00003_phase1_identity_controls.sql:3-40 | Every call keeps the references of TOTP rows, passkeys, ceremonies and audit entries, and the uniqueness of passkeys. |
| Accounts.AccountsLast | packages/database/postgres/users.sql.go:163-174 | Accounts last: e-mail address and password record never change, no user disappears, and a WebAuthn handle, once set, is never written again. |
| Tenants.PrincipalIsJoin | apps/control-plane/internal/auth/service.go:1067-1097 | At every point of a history of whole calls the permission map of a user has an entry for exactly the organizations of the memberships, each the role table's set for a valid role, and at least one. |
| Tenants.TenantFrame | apps/control-plane/internal/auth/service.go:945-1000 | A committed AddMembership, UpdateMembership, CreateAPIKey or RevokeAPIKey changes rows of only the organization its slug names, its audit entry is that organization's, and the caller holds the permission it needs there. |
| Tenants.OnlyOwnersAndAdmins | apps/control-plane/internal/auth/permissions.go:15-52 | A user passes the check for changing memberships or API keys exactly as owner or admin of the organization the slug names. |
| Tenants.RoleTakesEffect | apps/control-plane/internal/auth/service.go:684-845 | A committed AddMembership gives the user with that address exactly the role's permissions in that organization, where the user had none; UpdateMembership replaces a member's; no other user's permissions change, nor this user's elsewhere. |
| Tenants.OwnerTakesEffect | apps/control-plane/internal/auth/service.go:204-264 | A registration makes its user the owner of its new organization and a member of no other, and changes nobody else's permissions. |
| Tenants.AnySpellingFinds | apps/control-plane/internal/auth/service.go:1255-1300 | At every point of a history of whole calls a spelling finds an organization exactly when it normalizes to its slug, and the stored slug is valid and its own normal form. |
| Tenants.RegisteredAccount | apps/control-plane/internal/auth/service.go:189-265 | At every later point of the run an account is found under its normalized address and has the record of its own password. |
| Tenants.LoginToAccount | apps/control-plane/internal/auth/service.go:267-324 | At every later point and under any spelling of the address, a password with another Argon2 output is refused, and with the account's own only the TOTP check and the session's constraints decide. |
| Enrolment.RegisterExactly | apps/control-plane/internal/auth/service.go:189-265 | Register at any point of a history, answer by answer: invalid input exactly for an address the parser rejects, fewer than ten password bytes, a blank name or a slug with other characters than a-z, 0-9 and '-'; e-mail or slug taken exactly if an earlier registration of the run used it, in any spelling, or drew the same identifier; an internal error for colliding session values; otherwise success, with every row that is written. |
| Enrolment.LoginExactly | apps/control-plane/internal/auth/service.go:267-324 | Login to a registered account at any later point, under any spelling of its address: another password is refused, then a missing or wrong code if a verified secret stands, then colliding session values; otherwise it succeeds, with every row that is written. |
| Enrolment.UnknownAddress | apps/control-plane/internal/auth/service.go:267-290 | An address that no registration of the run has used, in any spelling, is answered like a wrong password. |
| Admission.AddExactly | apps/control-plane/internal/auth/service.go:684-765 | AddMembership at any point of a history, answer by answer: it fails exactly for an unknown organization, a caller without membership:write there, an address that is invalid or nobody's, a role that is not one of the five, a user who is a member of that organization already, or an actor that does not exist; otherwise that one membership and its audit entry are written. |
| Admission.UpdateExactly | apps/control-plane/internal/auth/service.go:767-845 | The same for UpdateMembership, which answers that the caller is unauthorized when the user is no member there. |
| Admission.CreateExactly | apps/control-plane/internal/auth/service.go:847-918 | The same for CreateAPIKey: apart from the caller's permission it takes accepted scopes, a name that is not blank, and random values no earlier creation drew; the whole row, the audit entry without the acting key, and the answered text are given. |
| Admission.RevokeExactly | apps/control-plane/internal/auth/service.go:945-1000 | The same for RevokeAPIKey: a key that the run created in this organization, whoever did, and has not revoked, is revoked; any other answers unauthorized. |
| Admission.OwnerAdmits | apps/control-plane/internal/auth/service.go:684-765 | An owner or admin adds any other registered account, under any spelling of slug and address and with any of the five roles, unless it is a member already; the account then has exactly that role's permissions there. |
| Admission.OwnerCreates | apps/control-plane/internal/auth/service.go:847-918 | An owner or admin creates a key with any accepted scopes, and the text of the answer authenticates at once, for that organization alone and with just those scopes. |
| Admission.OwnerRevokes | apps/control-plane/internal/auth/service.go:945-1000 | An owner or admin revokes any unrevoked key of the organization, whoever created it, and its text no longer authenticates. |
| KeyLife.KeyWorks | apps/control-plane/internal/auth/service.go:433-464 | A committed key authenticates in every later state until a revocation of it has committed and never after, acting for no user, in the one organization its slug names, with exactly its trimmed and deduplicated scopes. |
| KeyLife.AuthenticatesExactly | apps/control-plane/internal/auth/service.go:433-464 | With nothing assumed of the hash: a text authenticates exactly when it has the prefix and the key hash of a committed creation that has not been revoked since. |
| KeyLife.OnlyIssuedKeys | apps/control-plane/internal/auth/service.go:433-464 | A text that shares its hash with no other key of the history authenticates exactly when it was returned by a committed CreateAPIKey whose key has not been revoked since. |
| KeyLife.PrefixTaken | apps/control-plane/internal/auth/service.go:1374-1385 | The unique prefix column rejects a new key exactly if an earlier creation drew the same prefix bytes. |
| KeyLife.TextsDiffer | apps/control-plane/internal/auth/service.go:1374-1385 | Two creations of a history with equal key texts drew the same prefix and the same secret and are one and the same: no text is given out twice. |
| Authority.ActorOf | apps/control-plane/internal/auth/service.go:1207-1216 | In a history whose principals are those the tables of the moment give, every change of an organization is made by its owner or admin, or with an unrevoked key that an earlier change of the same organization created with the permission it takes. |
| Authority.TracesToOwner | apps/control-plane/internal/auth/service.go:945-1000 | So every such change goes back, from key to key, to an owner or admin of that organization, and no call on the way changes another organization. |
| TotpLife.EnabledMeansVerified | apps/control-plane/internal/auth/service.go:516-564 | TOTP is enabled for a user exactly when the secret of the user's last setup, not disabled since, had a code accepted by EnableTOTP after that setup. |
| TotpLife.LoginNeedsCode | apps/control-plane/internal/auth/service.go:267-324 | While TOTP is enabled, a login that succeeds carried a code that is valid at its time for the very secret that was verified. |
| TotpLife.CodeCheck | apps/control-plane/internal/auth/service.go:1163-1186 | The login check in full, over every run: no code is asked for before verification; after it a blank code is asked for again, a wrong one refused, a right one let in, and the stored secret always decrypts. |
| TotpAnswers.AcceptedOnClock | apps/control-plane/internal/auth/totp.go:40-57 | On the nanosecond clock the calls read: a text is accepted exactly when it is the code of a step c with 30 s (c - 1) <= now < 30 s (c + 2), and has six characters once trimmed. |
| TotpAnswers.WindowOnClock | apps/control-plane/internal/auth/totp.go:46-50 | That window, and before the epoch steps 0 and 1 from the readings on at which truncation toward zero reaches them. |
| TotpAnswers.AcceptedForSetup | apps/control-plane/internal/auth/totp.go:40-87 | The secret SetupTOTP answers with is checked as the random bytes it spells: a text is accepted exactly when it is six digits of the value of their truncated HMAC, modulo a million, for a step in the window. |
| TotpAnswers.SetupExactly | apps/control-plane/internal/auth/service.go:466-514 | SetupTOTP succeeds for exactly the existing users; its answer decodes to the random bytes, and the row it stores is disabled and decrypts to the answer. |
| TotpAnswers.EnableOnClock | apps/control-plane/internal/auth/service.go:516-564 | EnableTOTP at any point of a history with a standing setup: a right code at the clock reading enables the row and changes nothing else, any other text is refused as invalid. |
| TotpAnswers.DisableOnClock | apps/control-plane/internal/auth/service.go:566-617 | DisableTOTP likewise: only a verified setup can be disabled, and only with a right code. |
| TotpAnswers.LoginOnClock | apps/control-plane/internal/auth/service.go:1163-1186 | The login check of a user whose setup stands: nothing is asked before it is verified; after that a blank code is asked for again, a right one at the clock reading passes and any other is refused. |
| TotpAnswers.LoginNeedsRightCode | apps/control-plane/internal/auth/service.go:267-324 | While TOTP is enabled, a password login that succeeds carried a right code, at its own clock reading, of the secret that stands verified. |
| PasskeyLife.AlwaysIntact | apps/control-plane/internal/auth/webauthn.go:422-456 | At every point of a history of whole calls each passkey row opens to a credential with the row's own identifier, and row and credential identifiers are unique. |
| PasskeyLife.ListMatchesIndex | apps/control-plane/internal/auth/webauthn.go:422-456 | So the credential list a login loads and the index built beside it correspond one to one. |
| PasskeyLife.ValidatedHasRow | apps/control-plane/internal/auth/webauthn.go:330-345 | The branch for a validated credential that has no row is unreachable, if the library returns one of the user's credentials with its identifier unchanged. |
| PasskeyLife.PasskeyLogsInItsOwner | apps/control-plane/internal/auth/webauthn.go:272-384 | A passkey login opens a session of the very user for whom the credential was registered: the audit log names the same credential at the registration and at the login. |
| PasskeyAnswers.RegistrationExactly | apps/control-plane/internal/auth/webauthn.go:119-222 | FinishWebAuthnRegistration at any point of a history, answer by answer: a passkey is stored exactly when the caller's own registration ceremony is pending and the library, given the user's handle, the user's credentials and the stored session, creates from the response a credential no row has; the row seals that credential. |
| PasskeyAnswers.LoginExactly | apps/control-plane/internal/auth/webauthn.go:272-384 | FinishWebAuthnLogin at any point of a history, answer by answer: a pending ceremony of a user with passkeys and a response the library validates; the session is the ceremony's user's, and only the row of the validated credential is written, with the credential the library returned. No stored row fails to open, no handle is written, no validated credential lacks a row. |
| PasskeyAnswers.BeginRegistrationExactly | apps/control-plane/internal/auth/webauthn.go:55-117 | BeginWebAuthnRegistration at any point of a history, answer by answer, with the ceremony and, if the user had none, the drawn handle. |
| PasskeyAnswers.BeginLoginExactly | apps/control-plane/internal/auth/webauthn.go:224-270 | BeginWebAuthnLogin at any point of a history, answer by answer; an unknown address and a user without passkeys get the same answer. |
| PasskeyAnswers.MadeByLibrary | apps/control-plane/internal/auth/webauthn.go:173-206 | Every stored passkey was made by the library: an earlier registration of its user presented a response from which the library created a credential with its identifier, given handle, credentials and session of that moment. |
| PasskeyAnswers.NewPasskeyListed | apps/control-plane/internal/auth/webauthn.go:177-206 | After a registration the user's credentials, as the next login hands them to the library, are the old ones followed by the one the library made; nobody else's change. |
| PasskeyAnswers.UsedPasskeyListed | apps/control-plane/internal/auth/webauthn.go:327-349 | After a passkey login the credential the library returned stands in the place of the stored one with its identifier; all other credentials of all users stay. |
| PasskeyAnswers.AlwaysHandled | apps/control-plane/internal/auth/webauthn.go:402-420 | At every point of a history the user of every pending ceremony has a handle. |
| PasskeyAnswers.PasskeysInOrder | packages/database/postgres/auth_webauthn_credentials.sql.go:56-61 | The list of a user's rows is the part of the table that is the user's, in order of creation. |
| CeremonyLife.SingleUse | apps/control-plane/internal/auth/webauthn.go:272-384 | A call that finishes a ceremony completes one begun earlier by the same flow, for the same user, not expired, and not finished in between; a login issues its session to the user whose address began it. |
| CeremonyLife.FinishedOnce | apps/control-plane/internal/auth/webauthn.go:119-222 | Between two finishes of the same ceremony identifier it has been begun anew. |
| Races.RaceRule | apps/control-plane/internal/auth/service.go:516-564 | Call parts interleaved: an enabled secret is unverified exactly if its setup slipped between the check and the UPDATE of every EnableTOTP call that has updated since. |
| Races.NoSlipNoRace | apps/control-plane/internal/auth/service.go:522-545 | Without such a slip an enabled secret is one of which a code was checked by a call that then enabled it. |
| Races.SlipIsReal | packages/database/postgres/user_totp_credentials.sql.go:24-30 | The race exists: a code accepted for one secret enables the secret set up after it. |
| Races.DoubleFinish | apps/control-plane/internal/auth/webauthn.go:272-384 | If two transactions commit the finish of one ceremony, the later one read it before the earlier one committed. |
| Races.SingleFinish | packages/database/postgres/auth_webauthn_sessions.sql.go:55-63 | At most one transaction finishes a ceremony exactly when no two overlap in that way. |
| Races.DoubleFinishIsReal | packages/database/postgres/auth_webauthn_sessions.sql.go:55-63 | Two transactions that both read the ceremony can both commit. |
| Totp.TotpManager.VerifyCode | apps/control-plane/internal/auth/totp.go:40-57 | The loop over the three offsets accepts exactly the trimmed six-character codes of the time steps in the window. |
| Totp.TotpManager.CodeAt | apps/control-plane/internal/auth/totp.go:70-87 | Filling the counter buffer, slicing the MAC (always in range) and masking gives the code of section 5.3 of RFC 4226. |
| Totp.TotpManager.GenerateSecret | apps/control-plane/internal/auth/totp.go:32-38 | The secret text has 32 characters and upper-casing and unpadded decoding give the twenty random bytes back. |
| Totp.TruncationBits | apps/control-plane/internal/auth/totp.go:83-86 | Reading four bytes big-endian and masking the sign bit is the dynamic truncation of section 5.3 of RFC 4226, for every MAC. |
| Totp.CodeIsSixDigits | apps/control-plane/internal/auth/totp.go:86 | Every code is exactly six digits and its value is the number printed. |
| Totp.BigEndianRoundTrip | apps/control-plane/internal/auth/totp.go:76-77 | The eight bytes of a counter determine it. |
| Totp.WindowIsNinetySeconds | apps/control-plane/internal/auth/totp.go:46-54 | From the epoch on, step c is accepted on exactly [30(c-1), 30(c+2)) (section 5.2 of RFC 6238). |
| Totp.WindowBeforeEpoch | apps/control-plane/internal/auth/totp.go:47-50 | Before the epoch division truncates toward zero, which widens the window: exactly steps 0 and 1 can be accepted, and when. |
| Totp.CodeOfStep | apps/control-plane/internal/auth/totp.go:70-87 | For a secret that decodes, a text is the code of a step exactly if it is six digits whose value is the RFC number of the step. |
| Totp.AcceptedCodes | apps/control-plane/internal/auth/totp.go:40-87 | From the epoch on a text is accepted exactly when the secret decodes and the text, trimmed, is six digits whose value is the RFC number (section 5.3 of RFC 4226) of some step at most one period away. |
| Totp.Rfc4226Example | apps/control-plane/internal/auth/totp.go:83-86 | The worked example of section 5.4 of RFC 4226, and printing with leading zeros. |
| Rfc4648.Base32RoundTrip | apps/control-plane/internal/auth/totp.go:32-74 | For byte strings of every length: encode, trim the padding, change case, decode unpadded gives the bytes back (section 6 of RFC 4648). |
| Rfc4648.Base64RoundTrip | apps/control-plane/internal/auth/password.go:36-37 | Unpadded base64 round-trips byte strings of every length and its text never holds the record's separator (sections 4 and 3.2 of RFC 4648). |
| Rfc4648.Base32IsNumber | apps/control-plane/internal/auth/totp.go:37 | The base32 text spells, in the RFC's alphabet, the digits of the big-endian number of the bytes, filled up with fewer than five zero bits. |
| Rfc4648.Base64IsNumber | apps/control-plane/internal/auth/password.go:36-37 | The same for base64 and fewer than six zero bits. |
| Password.ParamsRoundTrip | apps/control-plane/internal/auth/password.go:46-49 | Every parameter triple that fits its variables is scanned back from its printed form. |
| Password.RecordFields | apps/control-plane/internal/auth/password.go:31-38 | The printed record splits on its separator into exactly its six fields. |
| Password.HashFields | apps/control-plane/internal/auth/password.go:29-38 | The six fields of a stored record in plain text, and what Argon2 is asked for: 3 iterations, 65536 KiB, 2 lanes, 32 bytes. |
| Password.RecordRoundTrip | apps/control-plane/internal/auth/password.go:40-58 | Whatever the salt and hash bytes and the in-range parameters, the printed record parses back to them. |
| Password.VerifyHashed | apps/control-plane/internal/auth/password.go:23-65 | Verifying against a record made by HashPassword succeeds exactly when the two Argon2 outputs are equal. |
| Naming.ValidateSlug | apps/control-plane/internal/auth/service.go:1289-1300 | The loop accepts exactly the non-empty texts of lower-case letters, digits and dashes. |
| Naming.ValidSlugIsNormal | apps/control-plane/internal/auth/service.go:1255-1259 | A valid slug is fixed by normalizeSlug. |
| Naming.NormalizedSlug | apps/control-plane/internal/auth/service.go:1255-1259 | White space around a slug does not matter; inside, letters go to lower case and blanks become dashes, one by one. |
| Naming.NormalizedEmail | apps/control-plane/internal/auth/service.go:1251-1253 | White space around an address does not matter; inside, letters go to lower case one by one. |
| Text.TrimSpaceIs | apps/control-plane/internal/auth/service.go:1251-1259 | Trimming gives the one text that neither begins nor ends in white space and stands between two runs of it; white space is this list of code points. |
| Naming.ValidateScopes | apps/control-plane/internal/auth/service.go:1302-1327 | The loop returns the first occurrences of the trimmed scopes, or an error exactly when there are none or one is not allowed. |
| Naming.ScopesExactly | apps/control-plane/internal/auth/service.go:1302-1326 | Scopes are accepted exactly if there is one and each, trimmed, is one of the six an API key may have. |
| Naming.ScopesNormalForm | apps/control-plane/internal/auth/service.go:1302-1327 | Accepted scopes are allowed, distinct, exactly the trimmed input, and accepted again unchanged. |
| Naming.FirstOccurrencesOrdered | apps/control-plane/internal/auth/service.go:1318-1325 | Deduplication keeps the order in which the scopes first occurred. |
| Naming.PermissionsForRole | apps/control-plane/internal/auth/permissions.go:54-65 | The copy loop returns the role's set of the table, the empty set for an unknown role. |
| Naming.RoleTable | apps/control-plane/internal/auth/permissions.go:15-52 | The role table in plain text: which of the seven permissions each of the five roles has, and no others. |
| Naming.PrefixOfRawKey | apps/control-plane/internal/auth/service.go:1374-1393 | Splitting a generated API key finds its prefix: hexadecimal never holds the separator. |
| Naming.RawKeyInjective | apps/control-plane/internal/auth/service.go:1374-1385 | A key text holds its prefix and its secret: equal texts come from equal random bytes. |
| Naming.PrefixedTexts | apps/control-plane/internal/auth/service.go:1387-1393 | A text has a prefix exactly when it is "duk", that prefix and a third part around two separators. |
| Text.HexInjective | apps/control-plane/internal/auth/service.go:1395-1401 | Two byte strings with the same hexadecimal text are equal. |
| Text.HexDigits | apps/control-plane/internal/auth/service.go:1395-1400 | Each byte prints as its high and its low lower-case hexadecimal digit. |

## Left out

- Identity.Service.AddMembership: an error does not mean that nothing changed, because of the read after the commit; the exact condition is stated instead of all-or-nothing, with an input that fails.
- Identity.Service.UpdateMembership: likewise; and nothing keeps the last owner of an organization from being demoted, so no such invariant is stated.
- WebAuthn.Passkeys.BeginLogin: an error may leave the user handle written, because that write is outside any transaction; when it does is stated exactly.
- RotationChains.ExpiryBound: one lifetime per rotation is not promised without its condition, because the code reads the clock twice; the condition is exact (RotationChains.ExpiryRule).
- Races.DoubleFinish: the write of a user handle has the same shape, an unguarded UPDATE after a read; its race is not stated separately.
- Races.RaceRule: DisableTOTP appears as its DELETE alone; which code its own check saw is not part of this model of the race.
- Authority.ActorOf: a principal is built from the tables the call finds; one that has become stale between authentication and the call is not modelled.
- RotationProgress.AllCanFinish: a continuation exists; that a fair scheduler finds it is stated only by the step bound of RotationProgress.Termination.
- Text.TrimSpace: case mapping and trimming work character by character, with the blanks of Go's `unicode.IsSpace`; normalization of combined characters is not modelled.
- Password.ParseRecord: fields are scanned without the blanks `fmt.Sscanf` tolerates before a number, and characters after the last number are ignored as there.
- Argon2 panics on zero iterations or zero parallelism; a record with such parameters is parsed and handed to the unknown function, but no stored record has them (Tenants.RegisteredAccount).
- Random values are assumed new in the step-by-step protocol (`Rotation.Unseen`); in the calls a collision is modelled and rejected by the unique columns.
- PostgreSQL itself: foreign-key share locks, statement snapshots across several tables, serialization failures and connection loss other than as a failing round trip; a failed commit counts as not applied.
- Access tokens (JWT), `Me` and `AuthenticateAccessToken` up to `principalForUser`, and all list calls, which only read and copy fields.
- Display-only columns: names, `last_used_at`, `created_at`, `is_system_admin`, the `otpauth` address, the audit entry's free-form metadata beyond what `Tables.Action` holds.
- HTTP routing, JSON bodies, status codes, configuration and running the migrations.
- Scheduler, worker, incident and notification behaviour, for which the repository has no code.
