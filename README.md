# EventHub-Secu two-factor login, modelled in Dafny

This project models the core of EventHub-Secu, an event-management application with an Express/TypeScript API and a React/Redux client. The core is the two-factor (2FA) lifecycle of a user account:

- **generate** a TOTP secret;
- **activate** two-factor login with a first authenticator code, which also issues ten one-time backup codes;
- **log in** with a password, then with an authenticator code or a backup code;
- **disable** two-factor login.

Around this lifecycle it models:

- the in-memory repositories;
- password login and registration;
- the HTTP handlers of the `/otp` routes and the response envelope middleware;
- the event entity with its create, update, delete and lookup use cases;
- the client side: the two Redux slices, the login-form hook, the second-step login page, and the dialog that switches 2FA on and off.

## How the model is built

- **Entities** are datatypes: `Users.User`, `OtpBackupCode.OtpBackupCode`, `Event.EventProps`, `Tokens.Token`.
- **Stores whose arrays or maps the source mutates** are classes whose fields the methods reassign: `UserRepository`, `InMemoryOtpBackupCodeRepository`, `InMemoryEventRepository`, the Express `Response`, the two slice stores and the login form.
- **Use cases** are each specified by a pure function from the state before to the outcome and the state after. The state is `TwoFactorStore.State`: users by id plus backup-code records in store order. For example, `VerifyBackupCode.Consume` specifies the backup-code use case, and `Disable` specifies the disable use case. Each use case's `Execute` method runs against the repositories and is proved to agree with that function. Lemmas relate the functions to each other.
- **Errors** are the messages the source throws, returned as `Err(message)`.
- **Library calls** are parameters:
  - `otplib.verify` is `totpValid(secret, token)`;
  - `bcrypt.compare` is `matches(submitted, stored)`;
  - `bcrypt.hash` is `hash(password, salt)`;
  - `QRCode.toDataURL` is `toDataUrl`;
  - `jwt.verify`'s outcome is a `Decoded` value: the verified claims, or the `name` of the error it throws.
- **Fresh values** are inputs: `generateSecret()`, `randomBytes(4)` (as `entropy`), `randomUUID()`, `genSalt()` and `new Date()`.
- **Tokens** are kept as the claims and lifetime they are signed with.

The source behaves in some ways its comments or design do not suggest. The model keeps each of these as written:

- The activation loop makes ten backup codes; the comment above it says eight.
- Activation stores the codes in plain text, yet the backup path compares with `bcrypt.compare`. The comparison stays an abstract `matches`.
- The five-failure "lock-out" is only a different error message. No check of the counter comes before the comparison, so a matching code still succeeds after any number of misses (`Lifecycle.HitAfterLockout`).
- `res.status(401).jsonError(msg)` replies with status 400, because `jsonError` sets its own default status (`ResponseMiddleware.StatusThenJsonError`).
- An event update stores the new data without running the `Event` checks, and the use case's capacity check (`> 0`) is weaker than the entity's (`>= 1`) (`CreateEvent.EntityChecksBehindUseCase`).

## Model

| member | source | states |
|---|---|---|
| Users.Lookup | backend/infrastructure/repositories/UserRepositoryDatabase.ts:57-65 | `findById` finds a record exactly when the id is stored, and returns that record |
| Users.WithOtpFields | backend/infrastructure/repositories/UserRepositoryDatabase.ts:77-87 | `updateOtpFields` sets only the secret and the flag of that one user; every other record and every other field is unchanged |
| Users.WithOtpFieldsWellFormed | backend/infrastructure/repositories/UserRepositoryDatabase.ts:77-87 | updating the OTP fields keeps ids and unique e-mails intact |
| Users.FindByEmail | backend/infrastructure/repositories/UserRepositoryDatabase.ts:67-75 | `findByEmail` returns the stored record with exactly that e-mail, and null exactly when no record has it |
| Users.Login | backend/infrastructure/repositories/UserRepositoryDatabase.ts:24-35 | `login` returns the user exactly when the e-mail exists and `hash(password, salt)` equals the stored hash (`isValidPassword`) |
| Users.InsertWellFormed | backend/infrastructure/repositories/UserRepositoryDatabase.ts:10-22 | inserting a fresh id with an unregistered e-mail keeps e-mails unique |
| Users.UserRepository.constructor | backend/infrastructure/repositories/UserRepositoryDatabase.ts:8 | the store starts empty and well formed |
| Users.UserRepository.FindById | backend/infrastructure/repositories/UserRepositoryDatabase.ts:57-65 | the repository lookup is `Lookup` on its current map |
| Users.UserRepository.UpdateOtpFields | backend/infrastructure/repositories/UserRepositoryDatabase.ts:77-87 | the new map is `WithOtpFields` of the old one; the store stays well formed; the updated record is returned |
| Users.UserRepository.Create | backend/infrastructure/repositories/UserRepositoryDatabase.ts:10-22 | `create` adds exactly that record under its id, keeps the store well formed, and returns it |
| TwoFactorStore.SessionFor | backend/application/usecases/otp-usecases/VerifyOtpLoginUseCase.ts:44-60 | the login reply carries the user's id, name, e-mail and creation date and a session token over the user payload |
| OtpBackupCode.ValidateOrThrow | backend/domain/entities/OtpBackupCode.ts:12-22 | passes exactly when `codes` is non-empty and both counters are non-negative; otherwise the first failing check's message, in source order |
| OtpBackupCodeRepository.FindRecord | backend/infrastructure/repositories/InMemoryOtpBackupCodeRepository.ts:12-14 | `findByUserId` is null exactly when no record has that user id; otherwise it returns the record at the first index holding that user id |
| OtpBackupCodeRepository.WithoutUser | backend/infrastructure/repositories/InMemoryOtpBackupCodeRepository.ts:16-18 | after `deleteByUserId` no record of the user is left and the lookup finds none; every record of another user is kept, and nothing else is added |
| OtpBackupCodeRepository.WithUpdate | backend/infrastructure/repositories/InMemoryOtpBackupCodeRepository.ts:20-26 | `update` keeps the length; it overwrites exactly the first record of the same user with the new record, and is a no-op for a user without a record |
| OtpBackupCodeRepository.InMemoryOtpBackupCodeRepository.constructor | backend/infrastructure/repositories/InMemoryOtpBackupCodeRepository.ts:5 | the array starts empty |
| OtpBackupCodeRepository.InMemoryOtpBackupCodeRepository.Save | backend/infrastructure/repositories/InMemoryOtpBackupCodeRepository.ts:7-10 | `save` appends the record with no uniqueness check and returns it |
| OtpBackupCodeRepository.InMemoryOtpBackupCodeRepository.FindByUserId | backend/infrastructure/repositories/InMemoryOtpBackupCodeRepository.ts:12-14 | the lookup is `FindRecord` on the current array |
| OtpBackupCodeRepository.InMemoryOtpBackupCodeRepository.DeleteByUserId | backend/infrastructure/repositories/InMemoryOtpBackupCodeRepository.ts:16-18 | the new array is the old one filtered by `WithoutUser` |
| OtpBackupCodeRepository.InMemoryOtpBackupCodeRepository.Update | backend/infrastructure/repositories/InMemoryOtpBackupCodeRepository.ts:20-26 | overwrites the first record of the same user in place (`WithUpdate`); length unchanged; returns the record |
| OtpBackupCodeRepository.DeleteThenSaveLeavesOne | backend/infrastructure/repositories/InMemoryOtpBackupCodeRepository.ts:7-18 | `deleteByUserId(u)` then `save` of a record of `u` leaves exactly one record of `u`, and the lookup returns it |
| OtpBackupCodeRepository.FindAfterUpdate | backend/infrastructure/repositories/InMemoryOtpBackupCodeRepository.ts:20-26 | after an update the user's lookup returns the new record, and every other user's lookup is unchanged |
| GenerateOtpSecret.Generate | backend/application/usecases/otp-usecases/GenerateOtpSecretUseCase.ts:17-42 | fails with 'User not found' exactly for an unknown id and then writes nothing. Otherwise it stores the new secret with the flag unchanged and touches no other user and no backup code. The manual key is the secret, and the QR code encodes issuer 'EventHub', the user's e-mail and that secret |
| GenerateOtpSecret.Execute | backend/application/usecases/otp-usecases/GenerateOtpSecretUseCase.ts:17-42 | running against the user repository gives `Generate`'s result and user map |
| VerifyAndActivateOtp.BackupCodesFrom | backend/application/usecases/otp-usecases/VerifyAndActivateOtpUseCase.ts:46-51 | ten codes, each eight characters spelling its own four random bytes in upper-case hex |
| VerifyAndActivateOtp.GenerateBackupCodes | backend/application/usecases/otp-usecases/VerifyAndActivateOtpUseCase.ts:46-51 | the loop yields ten codes of eight upper-case hex digits, each decoding back to its own random bytes, equal to `BackupCodesFrom` |
| VerifyAndActivateOtp.Activate | backend/application/usecases/otp-usecases/VerifyAndActivateOtpUseCase.ts:23-71 | succeeds exactly for a known user with a secret whose code the verifier accepts. Each failure has its own message (unknown user, no secret, invalid code) and writes nothing. On success the flag is 1 with the same secret, the user's old sets are deleted and one fresh set holds the returned codes with both counters 0, and `success` is true |
| VerifyAndActivateOtp.Execute | backend/application/usecases/otp-usecases/VerifyAndActivateOtpUseCase.ts:23-71 | running the writes in source order against both repositories gives `Activate`'s result and state |
| VerifyAndActivateOtp.ActivationReplacesBackupSet | backend/application/usecases/otp-usecases/VerifyAndActivateOtpUseCase.ts:44-65 | after activation the user is enabled with the old secret and has exactly one backup set: the returned codes with zeroed counters. Every other user's set is unchanged |
| VerifyAndActivateOtp.BackupCodesAreHex | backend/application/usecases/otp-usecases/VerifyAndActivateOtpUseCase.ts:48-50 | each code is eight upper-case hex digits, and two codes are equal exactly when their random bytes are |
| Hex.HexEncode | backend/application/usecases/otp-usecases/VerifyAndActivateOtpUseCase.ts:49 | `toString('hex')` gives two lower-case hex digits per byte |
| Hex.HexEncodeAt | backend/application/usecases/otp-usecases/VerifyAndActivateOtpUseCase.ts:49 | byte `i` is spelled high nibble first at positions `2i` and `2i+1` |
| Hex.HexValue | backend/application/usecases/otp-usecases/VerifyAndActivateOtpUseCase.ts:49 | an upper-case hex digit's value is below 16, and the digit is the alphabet entry at that value |
| Hex.HexDecode | backend/application/usecases/otp-usecases/VerifyAndActivateOtpUseCase.ts:49 | the reference inverse of the encoding: byte `i` is read from digits `2i` and `2i+1` |
| Hex.BackupCodeText | backend/application/usecases/otp-usecases/VerifyAndActivateOtpUseCase.ts:49 | `randomBytes(4).toString('hex').toUpperCase()` has two upper-case hex digits per byte, spelling the bytes in order |
| Hex.DecodeSpelling | backend/application/usecases/otp-usecases/VerifyAndActivateOtpUseCase.ts:49 | reading back an upper-case spelling gives the bytes it spells |
| Hex.DecodeByte | backend/application/usecases/otp-usecases/VerifyAndActivateOtpUseCase.ts:49 | the two digits spelling a byte read back as that byte |
| Hex.DecodeBackupCodeText | backend/application/usecases/otp-usecases/VerifyAndActivateOtpUseCase.ts:49 | decoding a backup code gives back its random bytes (round trip) |
| Hex.BackupCodeTextInjective | backend/application/usecases/otp-usecases/VerifyAndActivateOtpUseCase.ts:49 | distinct random bytes give distinct backup codes |
| VerifyOtpLogin.Verify | backend/application/usecases/otp-usecases/VerifyOtpLoginUseCase.ts:23-61 | succeeds exactly for a known user with a secret, flag 1 and an accepted code. Otherwise it fails with 'User not found', 'OTP is not enabled for this user' or 'Invalid OTP code'. On success the reply repeats the stored id, name, e-mail and creation date, with a session token over the user payload. It returns no state: nothing is written and there is no failure counter |
| VerifyBackupCode.MatchedIndex | backend/application/usecases/otp-usecases/VerifyBackupCodeUseCase.ts:44-53 | the scan picks the first stored entry the upper-cased submission matches, scanning from 0, and gives -1 exactly when none matches |
| VerifyBackupCode.AfterMiss | backend/application/usecases/otp-usecases/VerifyBackupCodeUseCase.ts:57 | a miss raises `nb_consecutive_tests` by exactly one; codes and `nb_code_used` stay |
| VerifyBackupCode.Missed | backend/application/usecases/otp-usecases/VerifyBackupCodeUseCase.ts:55-58 | the miss is persisted: the user's lookup now gives `AfterMiss(record)`, users and store length unchanged |
| VerifyBackupCode.AfterHit | backend/application/usecases/otp-usecases/VerifyBackupCodeUseCase.ts:68-71 | a hit removes exactly the matched entry, raises `nb_code_used` by one and resets the failure counter to 0 |
| VerifyBackupCode.Used | backend/application/usecases/otp-usecases/VerifyBackupCodeUseCase.ts:67-72 | the hit is persisted: the user's lookup now gives `AfterHit(record, i)`, users and store length unchanged |
| VerifyBackupCode.Consume | backend/application/usecases/otp-usecases/VerifyBackupCodeUseCase.ts:28-93 | Unknown user, flag not 1 and missing set each fail with their message and write nothing. Stored codes that do not parse (the empty string) fail with 'Unexpected end of JSON input' and write nothing. Success happens exactly when the user is enabled and some stored entry matches; the reply then holds the user view and a session token. Users and every other user's set are never changed |
| VerifyBackupCode.ConsumeFrom | backend/application/usecases/otp-usecases/VerifyBackupCodeUseCase.ts:44-92 | once the set is found: codes that do not parse fail with 'Unexpected end of JSON input' and leave the state unchanged; success exactly when the codes parse and some entry matches; other users' records untouched |
| VerifyBackupCode.MissRaisesCounter | backend/application/usecases/otp-usecases/VerifyBackupCodeUseCase.ts:55-65 | a miss persists `AfterMiss` and fails with the lock-out message exactly when the raised counter is at least 5, and 'Invalid backup code' otherwise |
| VerifyBackupCode.HitConsumesCode | backend/application/usecases/otp-usecases/VerifyBackupCodeUseCase.ts:67-92 | a hit persists `AfterHit` at the first matching index and replies with the session and `remainingCodes` = old length − 1 |
| VerifyBackupCode.ScanForMatch | backend/application/usecases/otp-usecases/VerifyBackupCodeUseCase.ts:45-53 | the `for` loop with `break` computes `MatchedIndex` |
| VerifyBackupCode.Execute | backend/application/usecases/otp-usecases/VerifyBackupCodeUseCase.ts:28-93 | running against both repositories gives `Consume`'s result and backup store |
| VerifyBackupCode.ConsumeFromRecord | backend/application/usecases/otp-usecases/VerifyBackupCodeUseCase.ts:44-92 | the parse, scan, increment or splice, and `update` steps give `ConsumeFrom`'s result and store |
| DisableOtp.Disable | backend/application/usecases/otp-usecases/DisableOtpUseCase.ts:18-35 | fails with 'User not found' or 'OTP is not currently enabled' and writes nothing. Otherwise it sets the secret to null and the flag to 0, deletes the user's backup sets (the lookup then finds none), and returns `success: true` |
| DisableOtp.Execute | backend/application/usecases/otp-usecases/DisableOtpUseCase.ts:18-35 | the two ordered writes give `Disable`'s result and state |
| DisableOtp.DisableTouchesOnlyItsUser | backend/application/usecases/otp-usecases/DisableOtpUseCase.ts:29-32 | no other user's record or backup set changes |
| DisableOtp.DisableTwice | backend/application/usecases/otp-usecases/DisableOtpUseCase.ts:24-29 | a second disable fails with 'OTP is not currently enabled' and writes nothing |
| Lifecycle.GenerateActivateLogin | backend/application/usecases/otp-usecases/GenerateOtpSecretUseCase.ts:24-27 | generate then activate with an accepted code enables the user, and the same code then passes the OTP login |
| Lifecycle.RegenerateWhileEnabled | backend/application/usecases/otp-usecases/GenerateOtpSecretUseCase.ts:27 | generating for an enabled user replaces the active secret, keeps the flag at 1 and keeps the backup set |
| Lifecycle.DisableThenLogin | backend/application/usecases/otp-usecases/DisableOtpUseCase.ts:29-32 | after disable both login paths fail with 'OTP is not enabled for this user', and generating a secret does not re-enable |
| Lifecycle.ReactivationReplacesSet | backend/application/usecases/otp-usecases/VerifyAndActivateOtpUseCase.ts:29-65 | re-activating an enabled user succeeds and leaves exactly one set, the new one |
| Lifecycle.MatchCount | backend/application/usecases/otp-usecases/VerifyBackupCodeUseCase.ts:47-53 | the number of entries a submission matches is zero exactly when the scan finds none |
| Lifecycle.BackupCodeIsSingleUse | backend/application/usecases/otp-usecases/VerifyBackupCodeUseCase.ts:67-72 | a hit lowers the number of entries the code matches by one; a code that matched one entry is refused when resubmitted |
| Lifecycle.HitAfterLockout | backend/application/usecases/otp-usecases/VerifyBackupCodeUseCase.ts:44-72 | with the counter already at 5 or more, a matching code still succeeds and resets the counter |
| Lifecycle.ActiveSet | backend/application/usecases/otp-usecases/VerifyBackupCodeUseCase.ts:34-41 | the set the backup path works on exists exactly when the user is enabled and has a set |
| Lifecycle.MissesAccumulate | backend/application/usecases/otp-usecases/VerifyBackupCodeUseCase.ts:55-58 | a run of `n` misses leaves the codes and the used count, and raises the failure counter by `n` |
| Lifecycle.OneMoreMiss | backend/application/usecases/otp-usecases/VerifyBackupCodeUseCase.ts:55-58 | a non-empty run of misses is the shorter run followed by one more miss, which adds one more to the counter |
| Lifecycle.MissOnState | backend/application/usecases/otp-usecases/VerifyBackupCodeUseCase.ts:55-58 | a miss on a store whose active set is `record` with `n` misses counted leaves it with `n + 1` |
| Lifecycle.FifthMissLocks | backend/application/usecases/otp-usecases/VerifyBackupCodeUseCase.ts:60-64 | from a fresh set, misses 1 to 4 report 'Invalid backup code' and the fifth and later report the lock-out |
| Lifecycle.ActivateThenFiveMisses | backend/application/usecases/otp-usecases/VerifyAndActivateOtpUseCase.ts:57-65 | right after activation, five wrong codes in a row end with the lock-out message |
| Lifecycle.SubmissionCaseIgnored | backend/application/usecases/otp-usecases/VerifyBackupCodeUseCase.ts:48 | upper-casing the submission first changes nothing: the path upper-cases it itself |
| ResponseMiddleware.SuccessEnvelope | backend/api/middlewares/response.middleware.ts:24-30 | `{ success: true, data }`, which agrees with any status |
| ResponseMiddleware.ErrorEnvelope | backend/api/middlewares/response.middleware.ts:32-42 | `{ success: false, data: null, error: { message, code } }`, which agrees with its own status code and no other |
| ResponseMiddleware.Response.constructor | backend/api/middlewares/response.middleware.ts:19-23 | a fresh response has status 200 and nothing sent |
| ResponseMiddleware.Response.Status | backend/api/middlewares/response.middleware.ts:29 | `status()` sets the status only |
| ResponseMiddleware.Response.Json | backend/api/middlewares/response.middleware.ts:29 | `json()` sends the body only |
| ResponseMiddleware.Response.JsonSuccess | backend/api/middlewares/response.middleware.ts:24-30 | sends the success envelope with the given status (default 200) |
| ResponseMiddleware.Response.JsonError | backend/api/middlewares/response.middleware.ts:32-42 | sends the error envelope whose code is the status sent (default 400) |
| ResponseMiddleware.StatusThenJsonError | backend/api/middlewares/response.middleware.ts:32-41 | `res.status(s).jsonError(m)` ends with status 400 and code 400, whatever `s` was |
| OtpControllers.TempTokenGate | backend/api/controllers/OtpControllers.ts:64-91 | A missing field gives 400 before the token is decoded. A decode error named 'TokenExpiredError' gives 'Temp token expired. Please login again.' (401), and any other decode error is forwarded unchanged. A purpose other than 'otp-verification' gives 'Invalid temp token'. It proceeds exactly on a verified pending token, with the token's own id |
| OtpControllers.GenerateOtpSecretHandler | backend/api/controllers/OtpControllers.ts:26-38 | With no authenticated user it replies 'Not authenticated' (status 400) and writes nothing. Otherwise the use case's outcome is either the success envelope or an error passed to `next`; an error passed to `next` leaves the response's status and body untouched |
| OtpControllers.VerifyAndActivateOtpHandler | backend/api/controllers/OtpControllers.ts:41-61 | No user, or no `otpToken`, gives the matching error reply before any write. Otherwise `Activate`'s state, and its reply or forwarded error; an error passed to `next` leaves the response's status and body untouched |
| OtpControllers.VerifyOtpLoginHandler | backend/api/controllers/OtpControllers.ts:64-91 | the gate's decision, then `Verify` for the token's user id, with its reply or forwarded error; an error passed to `next` leaves the response's status and body untouched |
| OtpControllers.VerifyBackupCodeHandler | backend/api/controllers/OtpControllers.ts:94-121 | the gate's decision (no write unless it proceeds), then `Consume` for the token's user id; an error passed to `next` leaves the response's status and body untouched |
| OtpControllers.DisableOtpHandler | backend/api/controllers/OtpControllers.ts:124-136 | 'Not authenticated' with no write, or `Disable`'s state and reply or forwarded error; an error passed to `next` leaves the response's status and body untouched |
| LoginUser.Login | backend/application/usecases/user-usecases/LoginUserUseCase.ts:26-83 | A blank e-mail fails with 'Email is required'. An empty password (not trimmed) fails with 'Password is required'. Bad credentials fail with 'Invalid email or password'. With 2FA on it returns `token = ''`, `otpRequired = true` and a 5-minute temp token `{id, purpose: 'otp-verification'}`. Otherwise it returns a 1-day session token and neither extra field. The user view never holds password, salt or secret |
| LoginUser.SessionOrPending | backend/application/usecases/user-usecases/LoginUserUseCase.ts:44-82 | a login gives an empty session token exactly when it gives a temp token |
| RegisterUser.CheckInput | backend/application/usecases/user-usecases/RegisterUserUseCase.ts:27-37 | passes exactly when the username and e-mail are not blank and the password has at least 6 characters; otherwise the first failing check's message |
| RegisterUser.NewUser | backend/application/usecases/user-usecases/RegisterUserUseCase.ts:50-60 | the new record has the fresh id, the input name and e-mail, the hashed password with its salt, no secret and flag 0 |
| RegisterUser.Register | backend/application/usecases/user-usecases/RegisterUserUseCase.ts:25-84 | A failed check, or an e-mail already registered, gives its error and no insert. Otherwise exactly one record is inserted, the store stays well formed, and the reply is the user view with a session token |
| RegisterUser.Execute | backend/application/usecases/user-usecases/RegisterUserUseCase.ts:25-84 | running against the repository gives `Register`'s result and store |
| RegisterUser.SecondRegistrationRefused | backend/application/usecases/user-usecases/RegisterUserUseCase.ts:40-43 | registering the same e-mail again fails with 'Email already registered' |
| Event.Validate | backend/domain/entities/Event.ts:35-51 | passes exactly for a valid event. Otherwise the first failing check's message, in order: title, capacity below 1, a present negative price, id, description over 1000 characters (1000 passes) |
| Event.Construct | backend/domain/entities/Event.ts:18-20 | an event is constructed exactly when it passes `validate`, and it keeps its props |
| EventRepository.FindEvent | backend/infrastructure/repositories/InMemoryEventRepository.ts:16-18 | `findById` is null exactly when no event has the id; otherwise it returns the event at the first index holding the id |
| EventRepository.InMemoryEventRepository.constructor | backend/infrastructure/repositories/InMemoryEventRepository.ts:5 | the array starts empty |
| EventRepository.InMemoryEventRepository.Create | backend/infrastructure/repositories/InMemoryEventRepository.ts:7-10 | `create` appends the event and returns it |
| EventRepository.InMemoryEventRepository.FindAll | backend/infrastructure/repositories/InMemoryEventRepository.ts:12-14 | `findAll` returns the stored sequence |
| EventRepository.InMemoryEventRepository.FindById | backend/infrastructure/repositories/InMemoryEventRepository.ts:16-18 | the lookup is `FindEvent` on the current array |
| EventRepository.InMemoryEventRepository.Delete | backend/infrastructure/repositories/InMemoryEventRepository.ts:20-22 | `delete` removes every event with the id and leaves the lookup of every other id unchanged |
| EventRepository.InMemoryEventRepository.Update | backend/infrastructure/repositories/InMemoryEventRepository.ts:24-31 | an absent id fails with 'Event not found' and no change; otherwise only the found index is replaced |
| EventRepository.UpdateKeepingId | backend/infrastructure/repositories/InMemoryEventRepository.ts:24-31 | after an update that keeps the id, the lookup finds the new event and every other id's lookup is unchanged |
| CreateEvent.CheckInput | backend/application/usecases/events-usecases/CreateEventUseCase.ts:21-35 | passes exactly when the title is set, the start is not before now, the venue is set, the capacity is positive and any price is non-negative; otherwise the first failing check's message |
| CreateEvent.PropsOf | backend/application/usecases/events-usecases/CreateEventUseCase.ts:37-42 | the input fields are copied, with the fresh id and the current time as both dates |
| CreateEvent.Create | backend/application/usecases/events-usecases/CreateEventUseCase.ts:20-46 | any failure leaves the store untouched; success exactly when both layers' checks pass, appending the copied props |
| CreateEvent.Execute | backend/application/usecases/events-usecases/CreateEventUseCase.ts:20-46 | running against the repository gives `Create`'s result and events |
| CreateEvent.EntityChecksBehindUseCase | backend/application/usecases/events-usecases/CreateEventUseCase.ts:30-44 | a capacity in (0, 1) and a description over 1000 characters pass the use case's checks and are refused only by the entity |
| UpdateEvent.Execute | backend/application/usecases/events-usecases/UpdateEventUseCase.ts:7-18 | An empty id gives 'Event ID is required' and an absent event gives 'Event not found', both with no write. Otherwise the first event with the id is replaced by the unvalidated data, which is returned |
| UpdateEvent.LookupAfterUpdate | backend/application/usecases/events-usecases/UpdateEventUseCase.ts:17 | the data is seen by the next lookup when it keeps the id; when it changes the id of the only event with it, the lookup finds nothing |
| DeleteEvent.Execute | backend/application/usecases/events-usecases/DeleteEventUseCase.ts:6-17 | An empty id or an absent event gives its error and deletes nothing. Otherwise every event with the id goes (the lookup then finds none), and other ids are unchanged |
| GetEventById.Execute | backend/application/usecases/events-usecases/GetEventByIdUseCase.ts:7-13 | fails exactly on an empty id; otherwise the repository's `findById`, which is null exactly when no event has the id; reads only |
| AuthSlice.Reduce | frontend/src/modules/authentification/store/auth.slice.ts:124-185 | Pending sets loading and clears the error, and nothing else. Rejected clears loading and sets the message or the thunk's fallback, never empty, with tokens unchanged. A login needing OTP keeps the token and stores the temp token or null; otherwise it stores the token and clears the OTP fields; in both the error is left as it was. Verify stores the token and clears the OTP fields. Register sets only token and loading. Logout clears the tokens and OTP flag only. Consistency is preserved |
| AuthSlice.ConsistentAfterAll | frontend/src/modules/authentification/store/auth.slice.ts:36-186 | from the initial state, any action sequence keeps a temp token only while `otpRequired` is set |
| AuthSlice.ConsistentPreserved | frontend/src/modules/authentification/store/auth.slice.ts:124-185 | every reducer case preserves that invariant |
| AuthSlice.AuthStore.constructor | frontend/src/modules/authentification/store/auth.slice.ts:36-42 | every field starts null or false |
| AuthSlice.AuthStore.Logout | frontend/src/modules/authentification/store/auth.slice.ts:124-128 | the field assignments give `Reduce(old, Logout)` |
| AuthSlice.AuthStore.ClearError | frontend/src/modules/authentification/store/auth.slice.ts:129-131 | the field assignments give `Reduce(old, ClearError)` |
| AuthSlice.AuthStore.Pending | frontend/src/modules/authentification/store/auth.slice.ts:136 | the field assignments of each pending case give `Reduce(old, Pending)` |
| AuthSlice.AuthStore.LoginFulfilled | frontend/src/modules/authentification/store/auth.slice.ts:137-147 | the field assignments give `Reduce(old, LoginFulfilled)` |
| AuthSlice.AuthStore.RegisterFulfilled | frontend/src/modules/authentification/store/auth.slice.ts:154-157 | the field assignments give `Reduce(old, RegisterFulfilled)` |
| AuthSlice.AuthStore.VerifyFulfilled | frontend/src/modules/authentification/store/auth.slice.ts:164-181 | both verification cases give `Reduce(old, VerifyFulfilled)` |
| AuthSlice.AuthStore.Rejected | frontend/src/modules/authentification/store/auth.slice.ts:148-184 | each rejected case gives `Reduce(old, Rejected)` |
| UserSlice.WithOtpEnable | frontend/src/modules/user/store/user.slice.ts:193-195 | the flag is set only when a profile is loaded; no profile stays none |
| UserSlice.Reduce | frontend/src/modules/user/store/user.slice.ts:144-217 | Every case states the whole new state. The clear reducers null only their own fields. Profile cases set loading, error or the fetched profile and never touch the OTP fields. OTP pending sets the OTP loading flag and clears the OTP error only. Generate stores the setup. Activation stores the result and sets the flag to 1 only when there is a profile. Disable sets the flag to 0 and clears the setup and result. Rejections store the message or the fallback |
| UserSlice.OtpActionsKeepProfileIdentity | frontend/src/modules/user/store/user.slice.ts:172-217 | OTP actions change no profile field other than the flag |
| UserSlice.UserStore.constructor | frontend/src/modules/user/store/user.slice.ts:35-43 | every field starts null or false |
| UserSlice.UserStore.ClearProfile | frontend/src/modules/user/store/user.slice.ts:144-146 | gives `Reduce(old, ClearProfile)` |
| UserSlice.UserStore.ClearOtpSetup | frontend/src/modules/user/store/user.slice.ts:147-151 | gives `Reduce(old, ClearOtpSetup)` |
| UserSlice.UserStore.ClearOtpError | frontend/src/modules/user/store/user.slice.ts:152-154 | gives `Reduce(old, ClearOtpError)` |
| UserSlice.UserStore.ProfilePending | frontend/src/modules/user/store/user.slice.ts:159-162 | gives `Reduce(old, ProfilePending)` |
| UserSlice.UserStore.ProfileFulfilled | frontend/src/modules/user/store/user.slice.ts:163-166 | gives `Reduce(old, ProfileFulfilled)` |
| UserSlice.UserStore.ProfileRejected | frontend/src/modules/user/store/user.slice.ts:167-170 | gives `Reduce(old, ProfileRejected)` |
| UserSlice.UserStore.OtpPending | frontend/src/modules/user/store/user.slice.ts:172-205 | each OTP pending case gives `Reduce(old, OtpPending)` |
| UserSlice.UserStore.GenerateFulfilled | frontend/src/modules/user/store/user.slice.ts:176-179 | gives `Reduce(old, GenerateFulfilled)` |
| UserSlice.UserStore.ActivateFulfilled | frontend/src/modules/user/store/user.slice.ts:189-196 | gives `Reduce(old, ActivateFulfilled)` |
| UserSlice.UserStore.DisableFulfilled | frontend/src/modules/user/store/user.slice.ts:206-213 | gives `Reduce(old, DisableFulfilled)` |
| UserSlice.UserStore.OtpRejected | frontend/src/modules/user/store/user.slice.ts:180-216 | each OTP rejected case gives `Reduce(old, OtpRejected)` |
| UseLogin.ValidationErrors | frontend/src/modules/authentification/hooks/useLogin.ts:37-50 | an e-mail error exactly when the e-mail is empty, a password error exactly when the password is empty, nothing else |
| UseLogin.ValidatesIffBothFilled | frontend/src/modules/authentification/hooks/useLogin.ts:49 | `validate` returns true exactly when both fields are non-empty |
| UseLogin.FormValidPassesValidation | frontend/src/modules/authentification/hooks/useLogin.ts:73 | `isFormValid` implies `validate` succeeds |
| UseLogin.BlankPassesValidationOnly | frontend/src/modules/authentification/hooks/useLogin.ts:40-73 | the converse fails: white space passes `validate` with the button disabled |
| UseLogin.LoginForm.constructor | frontend/src/modules/authentification/hooks/useLogin.ts:12-16 | empty fields and no errors |
| UseLogin.LoginForm.Validate | frontend/src/modules/authentification/hooks/useLogin.ts:37-50 | replaces the error record and returns whether both fields are non-empty |
| UseLogin.LoginForm.HandleChange | frontend/src/modules/authentification/hooks/useLogin.ts:52-58 | changes only that field, and blanks only that field's error if one was showing |
| UseLogin.LoginForm.HandleSubmit | frontend/src/modules/authentification/hooks/useLogin.ts:60-71 | dispatches nothing when validation fails, otherwise the login with both fields |
| OtpVerifyPage.Effect | frontend/src/modules/authentification/components/OtpVerifyPage.tsx:44-56 | each dispatch is the matching auth action: `clearError` or the pending case of its thunk |
| OtpVerifyPage.OnOtpInput | frontend/src/modules/authentification/components/OtpVerifyPage.tsx:88 | the OTP field keeps digits only, in order, at most 6 |
| OtpVerifyPage.OnBackupInput | frontend/src/modules/authentification/components/OtpVerifyPage.tsx:125 | the backup field is stored upper-cased: same length, each character mapped by `toUpperCase`, no lower-case letter left; the other fields are kept |
| OtpVerifyPage.InputsAreStable | frontend/src/modules/authentification/components/OtpVerifyPage.tsx:88-125 | both filters are idempotent |
| OtpVerifyPage.OtpButtonAfterInput | frontend/src/modules/authentification/components/OtpVerifyPage.tsx:88-96 | after any input the OTP button is enabled exactly when six digits were typed and nothing is loading |
| OtpVerifyPage.OtpSubmit | frontend/src/modules/authentification/components/OtpVerifyPage.tsx:42-50 | nothing without a temp token or a code; otherwise clear the error, then request verification |
| OtpVerifyPage.BackupSubmit | frontend/src/modules/authentification/components/OtpVerifyPage.tsx:52-60 | the same guard in front of the backup request |
| OtpVerifyPage.OtpButtonSubmits | frontend/src/modules/authentification/components/OtpVerifyPage.tsx:42-96 | an enabled OTP button sends the code; the store then shows loading, no error, and the button disabled |
| OtpVerifyPage.BackupButtonSubmits | frontend/src/modules/authentification/components/OtpVerifyPage.tsx:52-132 | an enabled backup button sends the value; the store then shows loading, no error, and the button disabled |
| OtpVerifyPage.ToggleBackupMode | frontend/src/modules/authentification/components/OtpVerifyPage.tsx:62-65 | flips the mode, keeps the typed values, clears the error |
| OtpVerifyPage.ToggleTwice | frontend/src/modules/authentification/components/OtpVerifyPage.tsx:62-65 | toggling twice restores the page; the toggle's dispatch clears exactly the error |
| TwoFactorModal.VisiblePanels | frontend/src/modules/user/components/TwoFactorModal.tsx:72-175 | Exactly one panel shows, and generate and verify never show together. An activation result hides all panels but the backup codes. Verify only shows with a secret. Deactivation only shows in deactivate mode |
| TwoFactorModal.ActivationWalksThePanels | frontend/src/modules/user/components/TwoFactorModal.tsx:72-133 | generate, then verify after the secret arrives, then the backup codes after activation |
| TwoFactorModal.OnCodeInput | frontend/src/modules/user/components/TwoFactorModal.tsx:116 | the code field keeps digits only, in order, at most 6 |
| TwoFactorModal.ActivateButtonAfterInput | frontend/src/modules/user/components/TwoFactorModal.tsx:116-125 | after any input the activate button is enabled exactly when six digits were typed and nothing is loading |
| TwoFactorModal.HandleVerify | frontend/src/modules/user/components/TwoFactorModal.tsx:39-46 | nothing on an empty code, otherwise that code is sent |
| TwoFactorModal.ActivateButtonSends | frontend/src/modules/user/components/TwoFactorModal.tsx:39-125 | an enabled button sends the code, and the pending request disables it and clears the error |
| TwoFactorModal.HandleClose | frontend/src/modules/user/components/TwoFactorModal.tsx:56-61 | clears the setup, the result, the OTP error and the local code; nothing else in the store |
| TwoFactorModal.CloseResetsTheDialog | frontend/src/modules/user/components/TwoFactorModal.tsx:56-61 | after closing, the dialog reopens on its first panel in either mode |
| Text.Trim | backend/application/usecases/user-usecases/LoginUserUseCase.ts:28 | `trim()` is empty exactly when the string is all white space |
| Text.KeepDigits | frontend/src/modules/authentification/components/OtpVerifyPage.tsx:88 | `replace(/\D/g, '')` keeps only characters of the input that are digits, drops every non-digit, and leaves a string of digits as it is |
| Text.KeepDigitsAppend | frontend/src/modules/authentification/components/OtpVerifyPage.tsx:88 | the filter works piecewise, keeping digits in their order |
| Text.DigitsPrefix | frontend/src/modules/authentification/components/OtpVerifyPage.tsx:88 | `.slice(0, n)` of the digits: at most `n` digits, a prefix of all the digits |
| Text.DigitsPrefixIdempotent | frontend/src/modules/authentification/components/OtpVerifyPage.tsx:88 | filtering twice equals filtering once |
| Text.ToUpper | backend/application/usecases/otp-usecases/VerifyBackupCodeUseCase.ts:48 | `toUpperCase()` keeps the length, maps each letter to its capital and leaves no lower-case letter |
| Text.ToUpperIdempotent | frontend/src/modules/authentification/components/OtpVerifyPage.tsx:125 | upper-casing twice equals upper-casing once |
| Seqs.IndexOf | backend/infrastructure/repositories/InMemoryOtpBackupCodeRepository.ts:21 | `findIndex` gives the first position holding the key, or -1 exactly when none does |
| Seqs.FindFirst | backend/infrastructure/repositories/InMemoryOtpBackupCodeRepository.ts:13 | `find` gives the record at `findIndex`, or null exactly when none has the key |
| Seqs.RemoveAll | backend/infrastructure/repositories/InMemoryOtpBackupCodeRepository.ts:17 | `filter` keeps exactly the records without the key |
| Seqs.RemoveAllAppend | backend/infrastructure/repositories/InMemoryOtpBackupCodeRepository.ts:17 | filtering distributes over concatenation, so survivors keep their order |
| Seqs.ReplaceFirst | backend/infrastructure/repositories/InMemoryOtpBackupCodeRepository.ts:21-24 | assignment at `findIndex` replaces that one position, or nothing when the key is absent |
| Seqs.RemoveAt | backend/application/usecases/otp-usecases/VerifyBackupCodeUseCase.ts:68 | `splice(i, 1)` drops position `i`, keeps the rest in order, and removes one occurrence from the multiset |
| Seqs.CountKeyRemoveAt | backend/application/usecases/otp-usecases/VerifyBackupCodeUseCase.ts:68 | the splice lowers a key's count by one exactly when the removed entry holds it |
| Seqs.RemoveAllThenAppend | backend/infrastructure/repositories/InMemoryOtpBackupCodeRepository.ts:7-18 | filter-then-push leaves exactly one record with the key, and the lookup finds it |
| Seqs.FindOtherAfterRemoveAll | backend/infrastructure/repositories/InMemoryOtpBackupCodeRepository.ts:17 | filtering one key leaves every other key's lookup unchanged |

## Left out

- Database repositories, Prisma and seeding. The in-memory repositories and a user map stand for them. One difference: the database `update` throws on a missing row, while the in-memory one does nothing.
- `otplib` (TOTP per RFC 6238), `bcrypt`, `jsonwebtoken` (RFC 7519), `qrcode`, `crypto.randomBytes` and `randomUUID`. These are parameters or given fresh values, so the model proves only what the code does with their answers.
- JSON encoding of `codes`. The column is a list of codes, or the empty string whose parse fails with 'Unexpected end of JSON input'.
- The wall clock and token expiry. The current time is a parameter, and expiry is part of the given decode outcome.
- Rate limiting, routing, server start-up, the authentication middleware and the event and user controllers.
- Concurrency. Each use case runs as one atomic step, so the read-then-write race between simultaneous backup-code attempts is not modelled.
- The thunks' `fetch` calls and the messages they build. The reducers receive the resulting action.
- React rendering and the navigation effects of `useLogin` and `OtpVerifyPage`.
- `handleGenerate` and `handleDeactivate` of `TwoFactorModal`. They only dispatch a thunk, or call `onClose` after one.
- The middleware's `next()` call. Only the two helpers it installs are modelled.
- Text.ToUpper: only ASCII letters are mapped. Other Unicode case mappings are not modelled, and no string in this core needs them.
- Text.Trim: strings are sequences of code points, not UTF-16 units. Lengths such as the 1000-character description limit are counted in code points.
- Event.Validate: `NaN` capacities and prices, and non-string fields, are not modelled. Numbers are reals and dates are integers.
- UpdateEvent.Execute: `Partial<Event>` is a complete record. A partial object would be stored as given either way, since the data is not checked.
- VerifyBackupCode.ConsumeFromRecord: the source mutates the record it read from the store before calling `update`. With the in-memory repository that record is the stored object itself. The model builds the new record as a value and persists it with `update`, which gives the same final store.
- Hex.HexDecode: the source never decodes a code. This function is the reference inverse used to prove that codes are injective. It ignores an odd last digit, which no backup code has.
