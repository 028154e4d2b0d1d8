# Sessions, tokens and roles of the authentication service, in Dafny

The project models the refresh-token and access-token protocol of a NestJS authentication service,
together with the accounts, the role graph and the token blacklist it rests on, and proves what the
protocol guarantees over runs of unbounded length. `dafny verify dfyconfig.toml` checks it all.

| file | content |
|---|---|
| `Basics.dfy` | identifiers, clock readings, configuration, hashing reduced to the facts relied on |
| `RefreshTable.dfy` | the `refresh_tokens` table, its four updates, its invariant, what one request may do to it |
| `Rbac.dfy` | roles, permissions, join tables; flattening; the mutations of the role graph |
| `Normalising.dfy`, `Email.dfy` | `toLowerCase().trim()` over any regular casing and what it identifies |
| `World.dfy` | the whole service as a state and a step function, one atomic request at a time |
| `Operations.dfy` | what each operation keeps and what its caller can rely on afterwards |
| `Services.dfy` | the services as classes over mutable tables, tied statement by statement to `World`, with those guarantees |
| `Invariants.dfy`, `Runs.dfy` | what every request keeps; runs; what holds between two moments of a run |
| `Families.dfy` | linear families, idle timeout, conservation of sessions |
| `SessionList.dfy` | the session list against `refresh` |
| `Replay.dfy` | replay, revocation, logout and password change end sessions for ever |
| `Authority.dfy` | how stale the authority in an access token can be |
| `LogoutFinality.dfy` | when a logged-out access token can come back |
| `Credentials.dfy` | the accounts refine a plain map from e-mail to password |
| `ResetTokens.dfy` | reset tokens: single use, thirty minutes, books that balance |
| `History.dfy` | authentication and `refresh` as functions of the history of a run |
| `Routes.dfy` | what the guards and every guarded route answer; the session list told by the history |
| `Accounts.dfy` | what registration, login and the password routes answer and do; what a pair says |
| `Interleaving.dfy` | every table access behind an `await` as a step of its own; per-user projection |
| `Overlap.dfy` | what any overlap leaves standing; one user's requests one after the other; a refresh past its checks |
| `Finality.dfy` | when replay, revocation, the cut-off of a user and the use of a reset token are final under overlap: exact conditions |
| `Forks.dfy` | when overlap forks a family: the exact condition |
| `Registrations.dfy` | overlapping registrations: one account per e-mail |
| `AuthorityUnderOverlap.dfy` | the staleness of authority when roles are loaded at one await and signed at a later one |
| `SerialRuns.dfy` | requests one after the other are atomic requests; runs carried over to interleavings; overlap from any moment of a run |

## How to read it

`World.Step` takes a request as it reaches a controller (bearer token included, which has to pass the
JWT strategy and the permission guard) and returns the next state and the answer. A `Run` records a
sequence of requests, the states between them and the answers; `At(k)` is the state before request `k`
and `Out(k)` its answer. A run is `Proper` when it starts from any sound accounts, roles and
permissions without tokens and follows `Step`. The theorems hold for every proper run, every moment and
every configuration; a hypothesis on the configuration is written out where one is needed.

`History`, `Routes` and `Accounts` say what each request of a run is answered, from nothing but the
requests and answers before it: whether an access token still stands, whether a refresh token is
unknown, replayed, expired or good, what the session list shows, whom the guards turn away and what the
routes behind them do. No constant, table or helper of the model stands between these statements and the
source: permission names, lifetimes and columns are written out.

`Interleaving` has a second, finer model: a request is a program counter with the rows it has read,
and a schedule lets any request take its next step at a clock reading of its own. Results that hold
whatever the readings are stated for all schedules; where the clock matters, for the `Feasible` ones,
whose readings start at a given moment and never run back.

`SerialRuns` ties the two models together. Each atomic request of a run with an effect on the accounts,
the refresh tokens or the reset tokens, registrations and refused requests included, has a request of
the finer model that stands for it (`SerialRuns.StepIsAlone`); these, taken one after the other at the
times of the run, bring the tables from any moment of the run to any later one
(`SerialRuns.RunIsSerial`); and if all of them are in flight together and interleave in any way that
leaves one user's own requests in their order, that user's rows, reset tokens and account are still
those of the run (`SerialRuns.InterleavedIsRun`). In the other direction, every moment of every run
meets the hypotheses of the theorems on overlap for any requests that draw new identifiers
(`SerialRuns.ReadyAtAnyMoment`, `SerialRuns.ConsistentAtAnyMoment`).

What the atomic model guarantees for these tables and overlap can break comes with its exact condition,
over all feasible schedules: `Finality.DeadForGoodIff`, `Finality.ReplayFinalIff`,
`Finality.RevokedFinalIff`, `Finality.CutOffFinalIff` and `Finality.CutOffConfinesIff` for the end of
sessions, `Finality.SingleUseIff` and `Finality.SpentForGoodIff` for reset tokens,
`Forks.ChainUnderOverlapIff` for linear families. `Registrations.OneAccountPerEmail` survives overlap as
it is, and `AuthorityUnderOverlap.StalenessUnderOverlap` says by how much the staleness of authority
grows.

Where the code and its documentation disagree, the code is followed:

- `logout` blacklists the access token for a fixed 900 s (`src/modules/auth/auth.controller.ts:62`);
  the comment above it speaks of the configured lifetime and the repository's README of the remaining
  lifetime. `LogoutFinality.LogoutFinalIff` gives the exact condition under which logout is final.
- Replay detection is documented to end the whole family. It does so for atomic requests
  (`Replay.ReplayKillsFamily`); under overlap it does so exactly when no refresh of the same family is
  already past its checks (`Finality.ReplayFinalIff`; `Finality.ReplayOverlapRevives` is the failure).
- The `used` column is there to let a reset token work once. Atomic requests keep to that
  (`ResetTokens.ResetOnlyOnce`); under overlap the token works as often as there are requests holding
  it (`Finality.UsableTokenSuccesses`).
- `revokeSession` is documented to revoke a session; it revokes a row, and the session ends exactly
  when that row is the newest of its family (`Replay.EndsSessionIffNewest`), under overlap exactly when
  nothing else in the family is live and no refresh of it is past its checks
  (`Finality.RevokedFinalIff`).
- A password change is documented to log the user out everywhere; a login that has checked the old
  password before and saves its row after stays logged in (`Finality.CutOffConfinesIff`).
- `refresh` does not look at `isActive` (`Credentials.RefreshIgnoresActive`); only a login does.

Assumptions: identifiers, `jti`s and opaque tokens are fresh (drawn from an increasing supply; in the
finer model every identifier belongs to one user); SHA-256 is injective on opaque tokens; argon2
verifies exactly the password hashed; a signature verifies exactly the tokens the service signed; one
clock in milliseconds serves the service, Postgres and Redis and never goes back; lower-casing is
idempotent, leaves blanks alone and what is beside them, and makes none at the ends of a text; time stands still
within an atomic request; Redis still answers at the millisecond a key expires and no later. An access
token is expired from the second `exp` on, as section 4.1.4 of RFC 7519 has it. Writing `isActive` is
an event of its own, since no code writes it.

## Model

| member | source | states |
|---|---|---|
| RefreshTable.ChangeKeepsInv | src/modules/auth/auth.service.ts:86-88 | whatever one atomic request does to the table, rows keep unique ids and hashes, a family keeps one owner, all but its newest row stay revoked, times stay ordered |
| RefreshTable.RotatedFamilyIsDead | src/modules/auth/auth.service.ts:86-88 | revoking the presented live row leaves nothing live in its family, so the new row is the only one |
| RefreshTable.LiveAfterUpdate | src/modules/auth/auth.service.ts:76 | after an update exactly the live rows that do not match are live, and they are as they were |
| RefreshTable.UpdatesCommute | src/modules/auth/auth.service.ts:76-101 | the four updates may be repeated and taken in any order |
| RefreshTable.ChangeExtends | src/modules/auth/auth.service.ts:76-101 | no lawful change moves a row, clears a revocation or touches any other column of a stored row |
| Rbac.RoleNamesConcat | src/modules/rbac/rbac.util.ts:3-5 | role names are listed role by role, in order, repetitions included |
| Rbac.FlattenPermissionNames | src/modules/rbac/rbac.util.ts:8-16 | the nested loops compute the specification function `PermissionNames` |
| Rbac.FlattenIsFirstOccurrences | src/modules/rbac/rbac.util.ts:8-16 | flattening lists each permission name once, in the order the loops first meet it |
| Rbac.FlattenIsUnion | src/modules/rbac/rbac.util.ts:7-16 | the list holds exactly the names granted by some role, without repetition |
| Rbac.FlattenMonotone | src/modules/rbac/rbac.util.ts:7-16 | more roles never take a name away, and the set does not depend on the order of the roles |
| Rbac.FlattenedIsHeld | src/modules/rbac/rbac.util.ts:7-16 | a name is in the flattened roles of a user exactly when the user holds it through the join tables |
| Rbac.SetPermissionsExact | src/modules/rbac/roles.service.ts:45-58 | installs exactly the requested names on that role and on no other; fails exactly when the role or a name is unknown, reporting exactly the unknown names |
| Rbac.AssignRolesExact | src/modules/users/users.service.ts:38-49 | makes the user a member of exactly the named roles and touches no other user; fails exactly on unknown names, reporting them |
| Rbac.RemoveRoleExact | src/modules/rbac/roles.service.ts:40-43 | after removal a user holds exactly what the other roles linked to it carry |
| Rbac.LinkedMembership | src/modules/users/users.service.ts:27-33 | a user linked to the roles of some names is a member of exactly those that exist |
| Rbac.MissingConcat | src/modules/rbac/roles.service.ts:51 | the names reported missing keep their order and repetitions |
| Rbac.CreateRoleExact | src/modules/rbac/roles.service.ts:32-38 | creation fails exactly on a taken name; otherwise that role and no other is added, carrying nothing and held by nobody, and nothing else changes |
| Rbac.CreatePermissionExact | src/modules/rbac/permissions.service.ts:18-24 | the same for permissions: the name exists afterwards and no role carries it |
| Rbac.RemoveRoleElsewhere | src/modules/rbac/roles.service.ts:40-43 | removal leaves every other role, link and permission, and reports an unknown role |
| Rbac.CreateRoleSound | src/modules/rbac/roles.service.ts:32-38 | creation succeeds exactly when the name is free and keeps names unique and links whole |
| Rbac.CreatePermissionSound | src/modules/rbac/permissions.service.ts:18-24 | the same for permissions |
| Rbac.RemoveRoleSound | src/modules/rbac/roles.service.ts:40-43 | the cascade leaves no dangling link in either join table |
| Rbac.SetPermissionsSound | src/modules/rbac/roles.service.ts:45-58 | replacement leaves no dangling link and keeps names unique |
| Normalising.NormaliseIdempotent | src/modules/users/users.service.ts:29 | over every regular casing, whether it works letter by letter or looks at neighbours and changes lengths, normalising a normalised e-mail changes nothing |
| Normalising.SameNormalFormIffVariant | src/modules/users/users.service.ts:71-73 | over every such casing, two e-mails share their normal form exactly when, between blanks, they differ at most in case |
| Normalising.TrimFirst | src/modules/users/users.service.ts:29 | and trimming before lower-casing would give the same normal form |
| Email.NormaliseIdempotent | src/modules/users/users.service.ts:29 | normalising a normalised e-mail changes nothing, for the casing the service uses, of which nothing but regularity is known |
| Email.SameNormalFormIffVariant | src/modules/users/users.service.ts:71-73 | two e-mails share their normal form exactly when, between blanks, they differ at most in case |
| Invariants.StepTable | src/modules/auth/auth.service.ts:66-103 | every request does one of four lawful things to the refresh tokens: nothing, revoking, opening a fresh family, or replacing an unexpired live row of a family |
| Invariants.StepIssues | src/modules/auth/auth.service.ts:189-220 | an access token is signed exactly when a pair is answered, for the configured lifetime from the floored second, and its session is the family of the refresh token stored with it |
| Invariants.RefusalsChangeNothing | src/modules/auth/auth.service.ts:66-187 | a refused request changes nothing, a detected replay excepted |
| Invariants.StepAuthTokens | src/modules/auth/auth.service.ts:105-143 | a reset token is stored exactly when the e-mail has an account, used up exactly by a successful reset, and an unknown e-mail changes nothing |
| Invariants.StepGraph | src/modules/rbac/roles.controller.ts:26-60 | only registration and the administration routes change the role graph, the latter only for an accepted bearer whose token carries `users:manage-roles`, or `roles:manage` |
| Invariants.UsersInvStep | src/modules/users/users.service.ts:22-36 | every stored e-mail stays a fixed point of normalisation and unique |
| Invariants.GraphInvStep | src/modules/rbac/roles.service.ts:27-58 | role and permission names stay unique and no link dangles, whatever the request |
| Invariants.WorldInvStep | src/modules/auth/auth.service.ts:41-220 | every request keeps the whole invariant |
| Runs.RunOf | src/modules/auth/auth.service.ts:41-220 | any requests from any start make a run: none is ever stuck |
| Runs.Reachable | src/modules/auth/auth.service.ts:41-220 | the invariant holds at every moment of every run |
| Runs.Later | src/modules/auth/entities/refresh-token.entity.ts:18-24 | between two moments no row moves or changes but for revocation, no revocation is undone, no account or signed token is lost |
| Families.FamilyIsChain | src/modules/auth/auth.service.ts:86-88 | in every reachable state the older rows of a family are revoked, creation and expiry never decrease along it, and it has one row more than successful refreshes |
| Families.FamilyLength | src/modules/auth/auth.service.ts:86-88 | rows of a family are one plus the successful refreshes in it |
| Families.IdleTimeout | src/modules/auth/token.service.ts:83-86 | two successive issues of a family are at most the refresh lifetime apart |
| Families.IdleFamilyNeverRefreshes | src/modules/auth/auth.service.ts:80-82 | a family idle for longer than the lifetime never refreshes again |
| Families.LiveFamiliesChange | src/modules/auth/auth.service.ts:66-103 | a request changes a user's live families by exactly those it ends and the one it opens; a refresh changes none |
| Families.SessionsConserved | src/modules/auth/auth.service.ts:189-212 | at every moment live sessions plus sessions ended equal registrations plus logins |
| Families.WhatEndsOneFamily | src/modules/auth/auth.service.ts:74-98 | a replay, a logout and a revocation end exactly the family of the token or row they name, and only for its owner where a bearer is needed |
| Families.WhatEndsEveryFamily | src/modules/auth/auth.service.ts:100-161 | logout everywhere, password change and reset end exactly the user's live families; every other request ends none |
| SessionList.ActiveRowsExact | src/modules/auth/auth.service.ts:164-168 | exactly the user's live unexpired rows, newest first, one per family |
| SessionList.RowVerdict | src/modules/auth/auth.service.ts:66-88 | in a reachable state a stored token refreshes exactly when its row is live and not past its expiry |
| SessionList.ListAgreesWithRefresh | src/modules/auth/auth.service.ts:163-178 | every listed row would refresh now; a row of the user that would refresh is listed unless it expires this very millisecond |
| SessionList.ListShape | src/modules/auth/auth.service.ts:170-177 | the answer is in descending order of creation, marks as current exactly the caller's family, and marks at most one |
| Replay.ReplayKillsFamily | src/modules/auth/auth.service.ts:74-78 | after a replay every token of the family is refused as a replay for ever, no access token names it again, and none is accepted one lifetime later |
| Replay.DeadForever | src/modules/auth/auth.service.ts:66-88 | a family without live rows never has one again and is never named by a new access token |
| Replay.EndsSessionIffNewest | src/modules/auth/auth.service.ts:180-187 | revoking a row ends its family exactly when it is the newest row or the family was over |
| Replay.RevokingEndsOneSession | src/modules/auth/auth.service.ts:91-98 | revoking one live session, by its row or by logging its token out, ends it for ever and leaves every token of every other family answered exactly as before |
| Replay.CutOffRefresh | src/modules/auth/auth.service.ts:100-103 | after logout everywhere, a password change or a reset, no refresh token the user had refreshes ever again |
| Replay.CutOffAccess | src/modules/auth/auth.service.ts:145-161 | and one access-token lifetime later every accepted token of the user belongs to a session that a login opened after the cut-off |
| Authority.SignedIsTrue | src/modules/auth/auth.service.ts:194-200 | the names baked into a token are exactly what the user holds at that moment |
| Authority.SignedForAccount | src/modules/auth/token.service.ts:43-64 | subject and e-mail of a signed token are those of one account |
| Authority.GuardAgreesWithGraph | src/modules/auth/guards/permissions.guard.ts:10-25 | on a token just signed the guard decides as a search of the role graph would |
| Authority.RolesGuardAgreesWithGraph | src/modules/auth/guards/roles.guard.ts:10-25 | on a token just signed the role guard decides as a search for membership of a required role would, and passes if none is required |
| Authority.BoundedStaleness | src/modules/auth/guards/permissions.guard.ts:17-24 | if the guard passes, the user really held every required permission less than one access-token lifetime ago |
| Authority.BoundedRoleStaleness | src/modules/auth/guards/roles.guard.ts:17-24 | the same for the role guard and membership of a required role |
| Authority.TakenAwayIsDenied | src/modules/auth/strategies/jwt.strategy.ts:14-39 | a permission taken away and not given back is denied from one lifetime later on |
| Authority.GraphChangedByHolder | src/modules/users/users.controller.ts:52-57 | a user's roles change only for a token carrying `users:manage-roles`, roles and permissions only for one carrying `roles:manage`, and its subject really held that less than one lifetime ago |
| Authority.StalenessIsTight | src/modules/auth/token.service.ts:45-58 | for every lifetime a deleted role still passes the guard one millisecond before the lifetime is over |
| LogoutFinality.LogoutIsFinal | src/modules/auth/auth.controller.ts:60-63 | with a lifetime of at most 900 s a logged-out access token is never accepted again |
| LogoutFinality.LogoutNotFinal | src/modules/redis/redis.service.ts:9-17 | with any longer lifetime some run accepts it again |
| LogoutFinality.LogoutFinalIff | src/modules/auth/auth.controller.ts:60-63 | logout is final in every run exactly when the lifetime is at most 900 s |
| LogoutFinality.ListedStep | src/modules/redis/redis.service.ts:9-12 | no request shortens a blacklist entry |
| Credentials.CredentialsRefineMap | src/modules/auth/auth.service.ts:47-55 | credentials are accepted exactly when the account is active and the password is the one set by the latest registration, reset or change for the normalised e-mail |
| Credentials.TableIsPasswords | src/modules/users/users.service.ts:95-97 | in every run the stored passwords are the plain map the specification computes |
| Credentials.RegisterIff | src/modules/users/users.service.ts:23-26 | registration succeeds exactly when the plain map has no password for that normal form |
| Credentials.ChangeIff | src/modules/auth/auth.service.ts:150-161 | a password change succeeds exactly when the bearer is accepted and the plain map holds the current password for the e-mail of its account |
| Credentials.RegisterHistory | src/modules/users/users.service.ts:22-36 | registration succeeds exactly when no account of the start has that normal form and no earlier registration of the run succeeded with a variant of the e-mail |
| Credentials.RegisteredIsFound | src/modules/users/users.service.ts:71-73 | at every moment after a registration exactly the variants of its e-mail find its account |
| Credentials.TwoRegistrations | src/modules/users/users.service.ts:22-36 | of two registrations anywhere in a run, the first successful, the second fails when its e-mail is a variant of the first, and if nobody else takes the e-mail it succeeds exactly when it is not |
| Credentials.RefreshIgnoresActive | src/modules/auth/auth.service.ts:84-88 | switching an account on or off changes no answer of `refresh` |
| ResetTokens.ResetsBalance | src/modules/auth/auth.service.ts:129-143 | a user's successful resets are its used tokens and never more than the tokens issued to it |
| ResetTokens.ResetOnlyOnce | src/modules/auth/auth.service.ts:135-141 | a reset token succeeds at most once, whatever happens in between, and its later use changes nothing |
| ResetTokens.ResetIff | src/modules/auth/auth.service.ts:129-143 | a reset succeeds exactly when an earlier request gave its token out at most thirty minutes ago and no reset in between has succeeded with it |
| ResetTokens.ResetWithinThirtyMinutes | src/modules/auth/auth.service.ts:112 | each success uses a token given out at most thirty minutes before |
| History.AuthenticatedByHistory | src/modules/auth/strategies/jwt.strategy.ts:14-39 | a bearer is authenticated exactly while an earlier request was answered with its token, its second of expiry has not come, and no logout with its own jti was served in the last 900 s; as the user the token names |
| History.ListedByHistory | src/modules/redis/redis.service.ts:9-17 | a jti is listed exactly until 900 s after its latest served logout |
| History.RevokedByHistory | src/modules/auth/auth.service.ts:66-187 | the row of a pair is revoked exactly if a request since has rotated it, replayed its session, logged it out, logged its user out everywhere, changed or reset the password, or revoked the row |
| History.RefreshByHistory | src/modules/auth/auth.service.ts:66-89 | the answer to every refresh: unknown exactly for a token no pair had; else replayed, expired after the configured days, or a pair for the same user and session |
| History.ResetTokenByHistory | src/modules/auth/auth.service.ts:105-134 | a reset token is a user's exactly when an earlier request gave it out for the user's account |
| Routes.GuardsByHistory | src/modules/auth/guards/permissions.guard.ts:10-25 | exactly the bearers whose token does not stand are unauthenticated, exactly those lacking the route's permission forbidden, and nothing changes for them |
| Routes.AssignRolesRoute | src/modules/users/users.controller.ts:52-57 | past the guards, answered `Done` exactly when the account and all names exist; exact membership afterwards, exact missing names, nothing else touched |
| Routes.SetPermissionsRoute | src/modules/rbac/roles.controller.ts:33-38 | the same for the permissions of a role |
| Routes.RemoveRoleRoute | src/modules/rbac/roles.controller.ts:40-45 | answered `Done` exactly for a known role, which goes with its links |
| Routes.CreateRoleRoute | src/modules/rbac/roles.controller.ts:26-31 | answered `Done` exactly for a free name; a role without permissions and members is added |
| Routes.CreatePermissionRoute | src/modules/rbac/roles.controller.ts:54-60 | the same for a permission |
| Routes.AdministrationElsewhere | src/modules/rbac/roles.controller.ts:26-60 | the five routes touch nothing but the role graph |
| Routes.SessionsRoute | src/modules/auth/auth.service.ts:163-178 | the list shows, column by column, exactly the caller's pairs that have not been ended and outlast this millisecond, each once, newest first, the caller's session marked |
| Routes.RevokeRoute | src/modules/auth/auth.service.ts:181-187 | answered `Done` exactly for a row that holds the token of one of the caller's pairs |
| Routes.LogoutRoutes | src/modules/auth/auth.controller.ts:57-70 | both logouts are always answered `Done` |
| Accounts.PairByHistory | src/modules/auth/token.service.ts:43-64 | every pair is signed for the floored second and the configured lifetime, names exactly what its subject holds, and brings tokens no earlier pair had, a login a session no earlier pair had |
| Accounts.RegisterRoute | src/modules/users/users.service.ts:22-36 | a taken e-mail is refused; a free one gets an active account of its normal form that is a member of exactly the role `user` |
| Accounts.LoginRoute | src/modules/auth/auth.service.ts:47-60 | a pair for the account of the e-mail exactly when the password is the latest and the account active, else refused with nothing changed |
| Accounts.ForgotRoute | src/modules/auth/auth.service.ts:105-127 | a reset token never given out before exactly when the e-mail has an account, else a silent answer |
| Accounts.ResetRoute | src/modules/auth/auth.service.ts:135-137 | a reset that does not succeed is refused and changes nothing |
| Accounts.ChangeRoute | src/modules/auth/auth.service.ts:150-161 | answered `Done` exactly when the current password is the latest set for the e-mail in the bearer's token |
| Accounts.PasswordsByHistory | src/modules/auth/auth.service.ts:129-161 | which request sets whose password: registration its own e-mail's, a change the bearer's, a reset that of the e-mail that asked for the token, nothing else anyone's |
| Interleaving.OthersStep | src/modules/auth/auth.service.ts:74-87 | no step of another user's request touches what is this user's, the family-wide update included |
| Interleaving.OwnStep | src/modules/auth/auth.service.ts:66-88 | a step of the user's request depends only on what is the user's |
| Interleaving.Projection | src/modules/auth/auth.service.ts:66-103 | under any interleaving a user's rows, reset tokens, account and progress are what that user's steps alone produce |
| Overlap.RevokedForGood | src/modules/auth/entities/refresh-token.entity.ts:18-24 | however requests overlap, no revoked flag is cleared and no row changes otherwise |
| Overlap.OneOwnerForGood | src/modules/auth/auth.service.ts:203-212 | however requests overlap, a family keeps one owner |
| Overlap.FamilyLengthUnderOverlap | src/modules/auth/auth.service.ts:87-88 | however requests overlap, any family, known at the start or not, grows by one row per completed rotation and one for its login |
| Overlap.NoOverlapKeepsChain | src/modules/auth/auth.service.ts:66-88 | if one user's requests do not overlap, its families are linear chains whatever the others do, overlapping and competing included |
| SerialRuns.InterleavedIsSerial | src/modules/auth/auth.service.ts:66-187 | if one user's requests follow one another, then under any interleaving with other users' steps its rows, reset tokens and account are exactly those of the serial run |
| SerialRuns.SerialExec | src/modules/auth/auth.service.ts:66-187 | turns taken request after request do what the serial run does |
| SerialRuns.ThroughIsAlone | src/modules/auth/auth.service.ts:66-187 | the steps of a request at one clock reading are the request run to its end |
| SerialRuns.RefreshAlone | src/modules/auth/auth.service.ts:66-88 | the steps of an uninterrupted refresh add up to the atomic refresh |
| SerialRuns.ResetAlone | src/modules/auth/auth.service.ts:129-143 | the steps of an uninterrupted reset add up to the atomic one |
| SerialRuns.ChangeAlone | src/modules/auth/auth.service.ts:150-161 | likewise for a password change |
| SerialRuns.LoginAlone | src/modules/auth/auth.service.ts:47-60 | the steps of an uninterrupted login open a family exactly when the credentials are valid |
| SerialRuns.RegisterAlone | src/modules/users/users.service.ts:22-36 | those of an uninterrupted registration create the account and its first family exactly when the e-mail is free |
| SerialRuns.ForgotAlone | src/modules/auth/auth.service.ts:105-127 | those of a reset request store the token exactly when the e-mail has an account |
| SerialRuns.ShortAlone | src/modules/auth/auth.service.ts:91-187 | likewise for logout, logout everywhere and revocation |
| SerialRuns.StepIsAlone | src/modules/auth/auth.service.ts:41-187 | every atomic request, refused or not, leaves the tables that the request standing for it, run without interruption, leaves |
| SerialRuns.RunIsSerial | src/modules/auth/auth.service.ts:41-187 | the requests of a run taken await by await, one after the other, bring the tables from any moment of the run to any later one |
| SerialRuns.InterleavedIsRun | src/modules/auth/auth.service.ts:41-187 | with all requests between two moments of a run in flight together, any interleaving that keeps one user's own requests in order leaves that user's part as the run does |
| SerialRuns.RunConsistent | src/modules/auth/auth.service.ts:203-212 | the requests of a run, started together, draw and present only what is their user's |
| SerialRuns.OwnersExist | src/modules/auth/auth.service.ts:203-212 | in every valid state each identifier in the tables or still to be drawn has one owner |
| SerialRuns.ReadyAtAnyMoment | src/modules/auth/auth.service.ts:66-103 | every moment of every run meets the hypotheses on the tables from which requests may overlap |
| SerialRuns.ConsistentAtAnyMoment | src/modules/auth/auth.service.ts:66-103 | and everything has one owner if each request presents only what is its user's or nobody's |
| SerialRuns.ChainIffAtAnyMoment | src/modules/auth/auth.service.ts:66-88 | from every moment of every run, every feasible schedule keeps families linear exactly when no two refreshes compete for a token |
| SerialRuns.NoSharedTokenAtAnyMoment | src/modules/auth/auth.service.ts:66-88 | and if nobody presents a token still to be drawn, exactly when no two refreshes present one token that is live and unexpired at that moment |
| Forks.ChainUnderOverlapIff | src/modules/auth/auth.service.ts:66-88 | every feasible schedule keeps families linear exactly when no two refreshes in flight present one token that is live and unexpired or can come to be through the logins, registrations and rotations in flight |
| Forks.ChainUnderOverlapIffNoSharedToken | src/modules/auth/auth.service.ts:66-88 | when nobody presents a token still to be drawn, exactly when no two refreshes present one token that is live and unexpired |
| Forks.ExecUnforked | src/modules/auth/auth.service.ts:66-88 | without such competitors at most one refresh per family is past its checks at any time, and nothing else in that family is live |
| Forks.OverlapForksFamily | src/modules/auth/auth.service.ts:68-88 | any two overlapping refreshes of one acceptable token, among any requests in flight, can both succeed and leave two live rows in its family |
| Finality.DeadForGoodIff | src/modules/auth/auth.service.ts:66-88 | a dead family stays dead under every feasible schedule exactly when no refresh in flight is past its checks on a token of it |
| Finality.ReplayFinalIff | src/modules/auth/auth.service.ts:74-88 | replay detection kills the family, and for good exactly when no refresh of that family was past its checks |
| Finality.CutOffFinalIff | src/modules/auth/auth.service.ts:100-103 | logging out everywhere, and the end of a password reset or change, kills every family of the user, and for good exactly when no refresh of one of them was past its checks |
| Finality.RevokedFinalIff | src/modules/auth/auth.service.ts:91-98 | revoking a row, or logging its token out, ends the session for good exactly when nothing else in its family is live and no refresh of it was past its checks |
| Finality.CutOffConfinesIff | src/modules/auth/auth.service.ts:141-161 | a cut-off leaves the user only sessions whose login checks the credentials afterwards exactly when no login has checked them already without having saved its row and no refresh of the user is past its checks |
| Registrations.OneAccountPerEmail | src/modules/users/users.service.ts:22-36 | however registrations overlap, e-mails stay unique; of the registrations of variants of one e-mail none succeeds if it had an account, never two do, and exactly one has as soon as one is decided if it had none |
| Registrations.LooksFirst | src/modules/users/users.service.ts:23-26 | a registration that finds its e-mail taken when it looks is over before it tries to insert |
| AuthorityUnderOverlap.StalenessUnderOverlap | src/modules/auth/auth.service.ts:84-88 | what is signed is exactly what the user held when the roles were loaded; if the guard passes, the user held every required permission when the token's roles were loaded, less than one lifetime plus the time from load to signing ago |
| AuthorityUnderOverlap.DelayAddsUp | src/modules/auth/auth.service.ts:84-88 | for every such delay a permission lost right after the load passes the guard up to the last millisecond of that bound |
| Finality.UsableTokenSuccesses | src/modules/auth/auth.service.ts:129-143 | under overlap a usable reset token can succeed exactly as often as there are requests in flight holding it |
| Finality.SpentTokenSuccesses | src/modules/auth/auth.service.ts:131-141 | a spent token, used or expired or unknown, exactly as often as there are requests that read it while it was usable |
| Finality.SingleUseIff | src/modules/auth/auth.service.ts:129-143 | a usable token is single-use under every schedule exactly when at most one request in flight holds it |
| Finality.SpentForGoodIff | src/modules/auth/auth.service.ts:131-141 | a spent token never succeeds again exactly when no reset in flight has read it as usable |
| Finality.MarkingFinalIff | src/modules/auth/auth.service.ts:141 | marking a token used is final exactly when no other reset in flight has read it as usable |
| Finality.ReplayOverlapRevives | src/modules/auth/auth.service.ts:74-88 | among any requests in flight, a refresh already past its checks can revive a family that replay detection has just ended |
| Finality.OverlapResetsTwice | src/modules/auth/auth.service.ts:131-141 | among any requests in flight, two overlapping resets with one unused token can both set the password |
| Operations.RefreshValid | src/modules/auth/auth.service.ts:66-89 | in a valid state a refresh with a revoked token leaves its family dead, one with a live unexpired token leaves the answered token's row the only live one of the family, and nothing else is answered with a pair |
| Operations.LogoutValid | src/modules/auth/auth.service.ts:91-98 | keeps a valid state valid, and writes the blacklist exactly for a given jti and a positive number of seconds |
| Operations.LogoutAllValid | src/modules/auth/auth.service.ts:100-103 | nothing of the user is live afterwards and nothing of anyone else has changed; of Redis exactly the user's cached entry goes |
| Operations.ResetValid | src/modules/auth/auth.service.ts:129-143 | succeeds exactly for an unused unexpired record; then the record is used, the password is the new one and nothing of the owner is live |
| Operations.ChangeValid | src/modules/auth/auth.service.ts:150-161 | succeeds exactly with the account's password; then the password is the new one and nothing of the user is live; otherwise the missing user or the wrong password is reported |
| Operations.RevokeSessionValid | src/modules/auth/auth.service.ts:181-187 | succeeds exactly when the row is the user's; revokes that row and changes no other |
| Operations.ListValid | src/modules/auth/auth.service.ts:163-178 | every entry shows, column by column, a row of the user that would refresh now, every such row that outlasts the millisecond is shown, none twice, newest first |
| Operations.LoginValid | src/modules/auth/auth.service.ts:57-60 | a login by any account of the table keeps the whole invariant |
| Services.JwtStrategy.Validate | src/modules/auth/strategies/jwt.strategy.ts:25-39 | refuses exactly while the token's own jti is listed and maps the payload field by field; after signature and expiry it decides as the step function's authentication |
| Services.RedisService.BlacklistToken | src/modules/redis/redis.service.ts:9-12 | sets or overwrites the entry, and ignores a non-positive lifetime |
| Services.RolesService.SetPermissions | src/modules/rbac/roles.service.ts:46-58 | the table update is the specified one, and nothing changes on an error |
| Services.RolesService.Remove | src/modules/rbac/roles.service.ts:40-43 | likewise for removal |
| Services.UsersService.Create | src/modules/users/users.service.ts:22-36 | stores the normalised account with the default role, or refuses and changes nothing |
| Services.UsersService.AssignRoles | src/modules/users/users.service.ts:39-49 | the table update is the specified one, and nothing changes on an error |
| Services.AuthService.Register | src/modules/auth/auth.service.ts:41-45 | the statements bring the tables to the specified state and answer, and keep a valid state valid |
| Services.AuthService.ValidateCredentials | src/modules/auth/auth.service.ts:47-55 | likewise |
| Services.AuthService.Refresh | src/modules/auth/auth.service.ts:66-89 | likewise; a detected replay leaves the family dead, a success leaves the answered token the only live one of the family |
| Services.AuthService.Logout | src/modules/auth/auth.service.ts:91-98 | likewise, for every combination of `jti` and lifetime |
| Services.AuthService.LogoutAll | src/modules/auth/auth.service.ts:100-103 | likewise; nothing of the user is live afterwards |
| Services.AuthService.ForgotPassword | src/modules/auth/auth.service.ts:105-127 | likewise; the stored record is unused and good for thirty minutes |
| Services.AuthService.ResetPassword | src/modules/auth/auth.service.ts:129-143 | likewise; succeeds exactly for a redeemable token, sets its owner's password and leaves nothing of the owner live |
| Services.AuthService.ChangePassword | src/modules/auth/auth.service.ts:150-161 | likewise; succeeds exactly with the account's password and leaves nothing of the user live |
| Services.AuthService.ListSessions | src/modules/auth/auth.service.ts:164-178 | in a valid state the list agrees with what `refresh` would answer, newest first |
| Services.AuthService.RevokeSession | src/modules/auth/auth.service.ts:181-187 | likewise; succeeds exactly when the row is the user's, and that row is revoked then |
| Services.AuthService.IssueTokenPair | src/modules/auth/auth.service.ts:189-220 | likewise, the permissions being those the nested loops compute; claims and stored columns are written out, the row good for the configured days |

## Left out

- Cryptography and JWT encoding: library code, reduced to the assumptions above; issuer, audience and algorithm are constants of every token.
- Database errors, transactions and connection loss: a table access either happens whole or the request has not got that far.
- Which letters `toLowerCase` maps to which: any regular casing will do.
- Request validation (DTO rules), throttling, routing and the public/protected switch: framework plumbing.
- First and last name, avatar, e-mail verification flag and descriptions: columns no rule depends on.
- `cacheUser` and `getCachedUser`: nothing calls them; `invalidateUserCache` is modelled and shown not to touch the blacklist.
- The Cognito module: a wrapper over another identity provider.
- The order in which Postgres returns rows that a query does not order: insertion order; ties in `createdAt` are listed latest insertion first.
- Role changes and the Redis writes as steps of the finer model: it interleaves the users, `refresh_tokens` and `auth_tokens` tables; for the authority in tokens the role graph may change in any way between two turns.
- Forks.ChainUnderOverlapIff: of a login whose token a refresh presents before it is drawn, the credentials must be valid at the start or not be made valid by another request in flight (`Settled`); nothing is asked of any other login.
