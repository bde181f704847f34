# cloud-notes server: the authentication and session core, in Dafny

This project models the decision logic of the cloud-notes HTTP server and
proves properties of it. The server is a note-taking backend written in Go.
Users register and log in. A login stores a session row and returns an
HS256-signed JSON Web Token (RFC 7519, section 3.2 of RFC 7518). The token
carries the user id, the session id and the session's creation time. Every
protected request passes a gate. The gate checks the `Authorization:
Bearer …` header, verifies the token under the configured secret, and lets
the request through only while the named session row still exists. Logging
out deletes that row, so a token is revocable even though its signature
stays valid. Behind the gate, users manage their own notes and their
profile. A separate migrator applies the schema's `.sql` files in name
order, once each.

Modules, one per part of the program:

- `Common`: `Option`, `Result` and the error values the services return.
- `Digits`, `Uuids`, `Times`: the text forms the token claims use.
  - `Digits`: fixed-width numerals.
  - `Uuids`: the canonical UUID string and `uuid.Parse`'s accepted forms.
  - `Times`: `time.Time.String`, an RFC 3339 writer, and the RFC 3339 parser's fast path.
- `Security` (`internal/security`): the token codec, and the helpers that keep the claims in a request context.
- `Stores`: the three tables (users, sessions, notes) as in-memory store classes behind the interfaces the services call.
- `Auth` (`internal/services/auth`): `Register`, `Login`, `Logout` and `ChangePassword`, as methods of a class over the stores.
- `Gate` (`internal/middleware/security.go`): the gate as a total decision function, plus the handler method that computes it.
- `Notes` (`internal/services/notes`): owner-checked create, list, update and delete.
- `Profile` (`internal/services/user`): profile read, update and delete.
- `Migrator` (`internal/migrator`): the plan (filter, sort, skip recorded), the run, and the imperative `Migrate`, proved to follow them.
- `Scenarios`: multi-call runs through the services and the gate.

Modelling conventions:

- **Outside values.** `uuid.New`, `time.Now` and bcrypt's random salt are method arguments.
- **Store failures.** Each store call that may fail takes a `fault` flag. A service takes `Faults(read, write)`: one flag for its lookup, one for its write.
- **Lookups.** A lookup that finds nothing answers `Ok(None)`, as the SQL stores do on `ErrNoRows`.
- **bcrypt and the token library** are function-valued fields.
  - `Auth.Bcrypt` holds bcrypt's two calls; `Security.Jwt` holds the token library's sign and parse.
  - The properties the code relies on are the ghost predicates `Auth.BcryptSound` and `Security.JwtSound`.
    - A hash verifies its own password and no other.
    - A token parses under its own key and under no other.
  - The service class invariant requires both predicates.
- **Panics** become an explicit outcome: `Security.Panic` and `Gate.Crash`.
- **Nil user.** The user service and `ChangePassword` dereference the looked-up user without a nil check. Their methods therefore require that the user exists, unless the lookup itself fails. The "## Findings" table shows this precondition can fail for a logged-in user.

## Model

| member | source | states |
|---|---|---|
| Stores.Lookup | internal/storage/users/storage.go:29-45 | a lookup by id fails exactly on a store fault; otherwise it finds a row exactly when the id is in the table, and "no rows" is `Ok(None)`, not an error; the row found is the stored row |
| Stores.FindByLogin | internal/storage/users/storage.go:83-98 | the user found by login exists exactly when some row holds that login; it is that row, stored under its own id |
| Stores.UserStore.Create | internal/storage/users/storage.go:47-64 | the insert succeeds exactly when there is no fault, the id is new and no row holds the login; then the table gains exactly that row, otherwise nothing changes |
| Stores.UserStore.GetByID | internal/storage/users/storage.go:66-81 | answers the lookup by id on the current table |
| Stores.UserStore.GetByLogin | internal/storage/users/storage.go:83-98 | a fault is the store error; otherwise the answer is the unique user with that login, or none |
| Stores.UserStore.Update | internal/storage/users/storage.go:144-161 | the row with the user's id is replaced (no matching row is not an error); a login held by another user is refused; on error nothing changes |
| Stores.UserStore.Delete | internal/storage/users/storage.go:163-176 | removes exactly that id, absent or not; on error nothing changes |
| Stores.SessionStore.Create | internal/storage/sessions/storage.go:46-61 | succeeds exactly without fault and with a new id; then the table gains exactly that session |
| Stores.SessionStore.GetByID | internal/storage/sessions/storage.go:63-78 | answers the lookup by id; an absent session is `Ok(None)` |
| Stores.SessionStore.Delete | internal/storage/sessions/storage.go:124-137 | removes exactly that id; on error nothing changes |
| Stores.NoteStore.Create | internal/storage/notes/storage.go:47-63 | succeeds exactly without fault and with a new id; then the table gains exactly that note |
| Stores.NoteStore.GetByID | internal/storage/notes/storage.go:65-80 | answers the lookup by id |
| Stores.NoteStore.GetByUserID | internal/storage/notes/storage.go:82-106 | without fault, the list holds exactly the user's notes, each once, each equal to its stored row |
| Stores.NoteStore.Update | internal/storage/notes/storage.go:108-125 | the row with the note's id is replaced; no matching row is not an error; on error nothing changes |
| Stores.NoteStore.Delete | internal/storage/notes/storage.go:127-140 | removes exactly that id; on error nothing changes |
| Uuids.UuidRoundTrip | internal/security/security.go:60-61 | `uuid.MustParse` of the canonical string of any UUID gives that UUID back, so the identifiers in a token survive the trip |
| Uuids.ParsedIsAscii | internal/security/security.go:60-61 | every string `uuid.MustParse` accepts is ASCII, so the lengths the model compares in characters are the byte lengths Go compares |
| Uuids.BracedForm | internal/security/security.go:60-61 | the UUID between two ASCII characters (the brace form) parses to that UUID; with a non-ASCII character in either position, which makes the string 39 bytes or more, the parse fails |
| Times.StringIsNotRfc3339 | internal/security/security.go:39-62 | no output of `time.Time.String` is accepted by the RFC 3339 parser, whatever the time |
| Times.Rfc3339RoundTrip | internal/security/security.go:62 | the RFC 3339 parser reads back exactly any valid time written in RFC 3339 form with nine fraction digits |
| Security.GenerateAccessTokenAsWritten | internal/security/security.go:31-43 | the token is empty exactly when signing fails (the error is dropped); otherwise it verifies under the secret to the claim map with `created_at` written by `String()`; Security.TokenRoundTripAsWritten states what the parser makes of it |
| Security.GenerateAccessToken | internal/security/security.go:31-43 | the corrected generator: the same, with `created_at` in RFC 3339 form; Security.TokenRoundTrip states that it parses back to exactly its claims |
| Security.ClaimMap | internal/security/security.go:36-40 | a token's claims are exactly `user_id`, `session_id` and `created_at`, all strings |
| Security.DecodeClaims | internal/security/security.go:58-68 | a verified token never yields `ErrInvalidToken`; it yields claims exactly when both ids are present, are strings and parse as UUIDs and `created_at` is a string; every other case panics |
| Security.ParseAccessToken | internal/security/security.go:45-69 | `ErrInvalidToken` exactly when the token does not verify under the configured secret |
| Security.TokenRoundTrip | internal/security/security.go:31-69 | a token from the corrected generator parses back, under the same secret, to exactly the claims it was made from; if signing failed, the empty token it returned is invalid |
| Security.DecodeEncoded | internal/security/security.go:36-68 | the claims the corrected generator writes decode to exactly the original user id, session id and creation time |
| Security.DecodeEncodedAsWritten | internal/security/security.go:36-68 | the claims as written decode to the original ids with the zero creation time |
| Security.TokenRoundTripAsWritten | internal/security/security.go:39-62 | a token from the generator as written keeps both ids but always decodes `created_at` as the zero time |
| Security.ForeignSecretRejected | internal/security/security.go:31-56 | any token signed under one secret, and the token either generator (as written or corrected) returns, is `ErrInvalidToken` under any other secret |
| Security.GetClaims | internal/security/security.go:71-73 | reads the claims stored under the package's context key; `None` (the panicking type assertion) when that key holds no claims |
| Security.SetClaims | internal/security/security.go:75-78 | `GetClaims(SetClaims(ctx, c)) == c`, and every other context key keeps its value |
| Auth.AuthService.Register | internal/services/auth/service.go:30-65 | the outcome for each case: lookup error; `ErrLoginAlreadyExists` with no user created; hashing error; store error; success. Success adds exactly one user, active, with the input's login, name and timezone and a hash that verifies the password and is not the password; on any error the users table is unchanged |
| Auth.AuthService.Login | internal/services/auth/service.go:67-108 | the outcome for each case: lookup error; `ErrUserNotFound`; `ErrInvalidPassword`; session store error; the token the as-written generator makes for {user id, session id, session creation time}, with the creation time written by `String()`. Success adds exactly that session, with the input's user agent; on any error no session is stored and no token is returned |
| Auth.AuthService.Logout | internal/services/auth/service.go:110-120 | removes only that session, and succeeds whether or not it existed; only a store error fails, and then nothing changes |
| Auth.AuthService.ChangePassword | internal/services/auth/service.go:122-153 | the outcome for each case: lookup error; `ErrInvalidPassword`; hashing error; store error; success. Success changes only the stored hash, to one that verifies the new password; on error the user is unchanged; sessions are never touched |
| Gate.TrimPrefixUnchanged | internal/middleware/security.go:35-39 | trimming `"Bearer "` leaves the header unchanged exactly when it does not start with it, so the `token == header` test is the scheme check |
| Gate.BearerSplit | internal/middleware/security.go:35 | the token handed to the parser is the header with exactly the `"Bearer "` prefix removed |
| Gate.Decide | internal/middleware/security.go:21-64 | the decision for each case: empty header 401 `ErrEmptyAuthHeader`; other scheme 401 `ErrInvalidAuthScheme`; parse failure 401 `ErrInvalidToken`; panic; session store error 500; absent session 401 `ErrSessionExpired`; otherwise proceed with the parsed claims in the context. Proceeding happens exactly when all checks pass |
| Gate.Serve | internal/middleware/security.go:24-63 | the handler answers the gate's decision on the sessions table it reads, and modifies no store |
| Gate.RevokedSessionRejected | internal/middleware/security.go:47-56 | a token that verifies but whose session is gone is refused with 401 `ErrSessionExpired` |
| Gate.DecisionIgnoresSessionRows | internal/middleware/security.go:47-58 | the decision depends only on which session ids exist, not on the stored session (its user is never compared with the token's) |
| Gate.IssuedTokenAdmitted | internal/middleware/security.go:41-61 | a token issued for a live session is let through with exactly the claims it was issued for |
| Gate.IssuedTokenAdmittedAsWritten | internal/middleware/security.go:41-61 | with the generator as written, the next handler sees the session's creation time replaced by the zero time |
| Notes.OutputOf | internal/services/notes/service.go:46-53 | a note's output carries its id, title, text, pinned flag and both times, and not its owner |
| Notes.Updated | internal/services/notes/service.go:95-99 | an update takes title, text and pinned from the input and sets the update time; id, owner and creation time are kept |
| Notes.Outputs | internal/services/notes/service.go:66-76 | one output per listed note, in the same order |
| Notes.OutputsListOwned | internal/services/notes/service.go:61-76 | the outputs are exactly those of the user's own notes, with no id twice |
| Notes.NoteService.CreateNote | internal/services/notes/service.go:26-54 | stores exactly one new note with the input's owner, title, text and pinned flag and no update time; the output mirrors it; a store error changes nothing |
| Notes.NoteService.GetNotes | internal/services/notes/service.go:56-79 | without a store error, the result lists exactly the outputs of the user's notes, each id once |
| Notes.NoteService.UpdateNote | internal/services/notes/service.go:81-113 | the outcome for each case: lookup error; a missing or foreign note is `ErrNoteNotFound`; store error; success replaces exactly that note with the updated row; on any error nothing is written |
| Notes.NoteService.DeleteNote | internal/services/notes/service.go:115-135 | the outcome for each case: lookup error; a missing or foreign note is `ErrNoteNotFound`; store error; success removes exactly that note; on any error nothing is deleted |
| Profile.ProfileOf | internal/services/user/service.go:35-40 | the profile carries login, name, timezone and creation time |
| Profile.ProfileHidesSecrets | internal/services/user/service.go:35-40 | the profile does not depend on the password hash or the status |
| Profile.WithProfile | internal/services/user/service.go:53-54 | a profile update changes only name and timezone; id, login, hash, status and creation time are kept |
| Profile.ProfileService.GetProfile | internal/services/user/service.go:25-41 | without a lookup error, the profile of the stored user; the error otherwise |
| Profile.ProfileService.GetProfileChecked | internal/services/user/service.go:25-41 | the corrected handler: answers every input, with the lookup error, `ErrUserNotFound` for a missing user, or the stored user's profile |
| Profile.ProfileService.UpdateProfile | internal/services/user/service.go:43-62 | lookup or store errors are returned and change nothing; success replaces the user with its profile-updated row |
| Profile.ProfileService.DeleteProfile | internal/services/user/service.go:64-79 | success removes exactly that user; errors change nothing; sessions and notes are never touched |
| Migrator.SortStrings | internal/migrator/migrator.go:56 | `sort.Strings`: the result is in ascending order and is a permutation of the input |
| Migrator.SqlFiles | internal/migrator/migrator.go:50-55 | the candidates are exactly the entries whose names end in `.sql` |
| Migrator.Plan | internal/migrator/migrator.go:29-67 | the files a run processes, in order: the `.sql` entries, sorted, minus those recorded; Migrator.PlanSorted, Migrator.PlanContents and Migrator.PlanDistinct state its properties |
| Migrator.Run | internal/migrator/migrator.go:63-101 | the files a run applies and how it ends; Migrator.RunAppliesPrefix and Migrator.RecordedOnce state its properties |
| Migrator.Pending | internal/migrator/migrator.go:63-67 | the files processed are exactly those not already recorded |
| Migrator.AppliedFiles | internal/migrator/migrator.go:29-43 | the loop over the migrations table yields exactly the set of recorded files |
| Migrator.CollectSqlFiles | internal/migrator/migrator.go:50-55 | the loop over the directory yields the `.sql` entries in listing order |
| Migrator.PlanSorted | internal/migrator/migrator.go:56-63 | files are processed in ascending name order |
| Migrator.PlanContents | internal/migrator/migrator.go:29-67 | the plan holds exactly the `.sql` entries not recorded in the table |
| Migrator.PlanDistinct | internal/migrator/migrator.go:50-67 | with a distinct directory listing, the plan names each file once |
| Migrator.RunAppliesPrefix | internal/migrator/migrator.go:63-101 | a run applies a prefix of the plan; it ends well exactly when it applies all of it; a panic names the first failing file, and every earlier file stays applied |
| Migrator.RecordedOnce | internal/migrator/migrator.go:76-98 | after a run, no file is recorded twice |
| Migrator.DoneRecordsEverySqlFile | internal/migrator/migrator.go:63-105 | after a successful run, every `.sql` file of the directory is recorded, and every file the run added is a `.sql` file of the directory that was not recorded before |
| Migrator.NoSqlFilesNoRun | internal/migrator/migrator.go:58-61 | with no `.sql` file, nothing is applied and the migrator returns without error |
| Migrator.ApplyFiles | internal/migrator/migrator.go:63-101 | the apply loop follows the run: its outcome is the run's, and the migrations table and the schema both grow by exactly the files the run applies |
| Migrator.Migrate | internal/migrator/migrator.go:14-106 | a setup failure returns that error and changes nothing; otherwise the outcome and the new database are those of running the plan |
| Scenarios.RevocationScenario | internal/services/auth/service.go:67-120 | register, log in: the token admits requests, and the next handler sees the user's id, the session's id and the zero creation time; log out: the same token is refused with 401 `ErrSessionExpired` |
| Scenarios.PasswordChangeScenario | internal/services/auth/service.go:122-153 | after a password change the old password is `ErrInvalidPassword`, the new one logs in, and existing sessions survive |
| Scenarios.DeletedUserAdmitted | internal/services/user/service.go:64-79 | after `DeleteProfile` the user's token still passes the gate with that user's id, though the user row is gone; the checked lookup then answers `ErrUserNotFound` |
| Scenarios.DuplicateRegistration | internal/services/auth/service.go:30-65 | a second registration of the same login is `ErrLoginAlreadyExists` and leaves exactly one user |

## Left out

- The SQL store implementations are left out. Their `SELECT`/`INSERT` statements, row scanning and the connection are replaced by in-memory tables.
  - The login's uniqueness is kept: the stores refuse a duplicate login.
  - Users' `List` and `Count` are not modelled.
  - Sessions' `GetByUserID` and `Update` are not modelled: no service in the core calls them.
- Stores.UserStore.Update and Stores.NoteStore.Update: the SQL `UPDATE` statements number their placeholders `$1..$4, $6, $7, $8` but pass seven arguments (internal/storage/users/storage.go:148-154, internal/storage/notes/storage.go:112-118). The real statements therefore fail. Both methods model the evidently intended replace-by-id instead.
- bcrypt's algorithm is not modelled. The model keeps only the generate/compare pair with the soundness predicate. Its cost factor, 72-byte limit and constant-time comparison cannot be stated on these values; a failing `GenerateFromPassword` is a `None` result.
- Auth.BcryptSound: its clause that no other password matches a hash is an idealisation. bcrypt ignores password bytes past the 72nd, so passwords sharing their first 72 bytes verify alike.
- The JSON Web Token library and HMAC-SHA-256 are not modelled. They appear only as a sign/parse pair with the soundness predicate. The token's text layout, base64url encoding and the library's own claim checks are not modelled.
- Security.JwtSound: its clause that a token never verifies under a different key is an idealisation. HMAC zero-pads keys shorter than its block, so a secret and the same secret followed by zero bytes verify the same token.
- `uuid.New`, `time.Now` and the random salt are arguments rather than calls.
- Security.DecodeClaims: the parser's `uuid.MustParse` is modelled on the forms `uuid.Parse` accepts.
  - The accepted lengths are 36, 38 (braces), 45 (`urn:uuid:`) and 32.
  - Hex digits and the `urn:uuid:` prefix are read case-insensitively.
  - The library does not check the values of the two brace bytes of the 38-byte form. The model takes any two ASCII characters there. A non-ASCII character there would make the string longer than 38 bytes in UTF-8, so the model refuses it.
  - Strings are sequences of characters, not of UTF-8 bytes. Uuids.ParsedIsAscii shows that every accepted string is ASCII, so counting characters and counting bytes agree on every string the parser accepts.
- Times.StringIsNotRfc3339 and Times.Rfc3339RoundTrip cover only part of the time formats.
  - `time.Time.String` is modelled without the zone abbreviation and without the monotonic-clock suffix. Both come after the parts that already make the RFC 3339 parser fail.
  - Only the RFC 3339 parser's fast path is modelled. The general-layout fallback that Go tries after it is not modelled; it also rejects the `String` form.
  - Rfc3339RoundTrip requires the year to be in 0..9999 and the offset to be within ±23:59. Outside those ranges RFC 3339 has no form.
- The HTTP handlers, DTO validation, response rendering, logging, configuration, process start-up and database connections are transport and wiring code. They are not part of this model.
- `render.ServerError`'s exact body is reduced to the error value `InternalServerError`.
- `MustMigrate` is not modelled. It only turns `Migrate`'s error into a panic.
- The migrator's file reads, its `Printf` output and the pgx connection are not modelled.
  - Per-file steps (read, begin, execute, record, commit) that fail are the `fault` argument. Setup steps before the first file are the `setup` argument.
  - `rows.Err()` is not checked after the scan loop in the source (internal/migrator/migrator.go:37-43). An error while iterating ends the loop silently with `applied` holding only part of the table, so files already recorded can be applied again and recorded twice. The model treats a scan failure only as the `ScanApplied` setup fault: Migrator.RecordedOnce and Migrator.PlanContents assume the table was read completely.
- Concurrency between requests is not modelled. Each store call is taken as atomic.
- Login does not look at the user's status: a blocked user can log in. The model keeps this behaviour as it is and states no property about it.

## Findings

| source | as written | input that shows it | evidently intended | confidence | as-written member | corrected member |
|---|---|---|---|---|---|---|
| internal/security/security.go:39-62 | `created_at` is written with `time.Time.String()` ("2006-01-02 15:04:05 +0000 UTC" form) but read with `time.Parse(time.RFC3339, …)`, whose error is discarded | any time: the character after the date is a space, not `T`, so the parse fails and the claims carry the zero time | write the time in RFC 3339 form (the corrected model writes all nine fraction digits) so that the claim round-trips | not executed | Security.GenerateAccessTokenAsWritten (Security.TokenRoundTripAsWritten, Times.StringIsNotRfc3339, Gate.IssuedTokenAdmittedAsWritten) | Security.GenerateAccessToken (Security.TokenRoundTrip, Times.Rfc3339RoundTrip, Gate.IssuedTokenAdmitted); Auth.AuthService.Login issues the as-written token, as the source does, so the scenarios show what the source does today |
| internal/services/user/service.go:25-79 | `DeleteProfile` removes the user row but not the user's sessions, and `GetProfile`, `UpdateProfile` and `ChangePassword` (internal/services/auth/service.go:122-153) use the looked-up user without a nil check | a logged-in user deletes their profile, then sends `GET` on the profile with the same token: the gate checks only that the session exists, so the handler runs and dereferences the nil user | a missing user is answered with `ErrUserNotFound` (or the user's sessions go with it); the database schema is not part of this model, so an `ON DELETE CASCADE` on sessions, if the schema has one, would already prevent this | not executed | Scenarios.DeletedUserAdmitted (the token still passes after the deletion and the user row is gone, where Profile.ProfileService.GetProfile requires it to exist) | Profile.ProfileService.GetProfileChecked (answers `ErrUserNotFound`; Scenarios.DeletedUserAdmitted shows it on the same run) |
