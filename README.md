# Confirmation codes and credential handlers of django_blank, in Dafny

This project models the account back end of the `django_blank` Django template: the
lifecycle of email and phone confirmation codes, and the credential handlers that consume
confirmed codes (registration, password change and reset, email or phone change), login,
and the group-based permission rule.

The relational state is one class, `Database.Db`:

- the two confirmation tables, `ConfirmEmail` and `ConfirmPhone`, as maps keyed by their
  unique contact column;
- the `User` table, keyed by primary key;
- the names of the `Group` rows;
- the next primary key of each table.

Its invariant `Valid` holds the database's constraints:

- `secret_code` is unique within each confirmation table;
- ids are unique and below the next free id;
- a user's `email` and `phone` are unique among the users that have one;
- a user's groups exist.

Each handler is a module-level method on a `Db`. It modifies only the fields it writes and
keeps `Valid`. Its `ensures` states the whole outcome for every branch:

- the typed error it raises;
- the exact new contents of every table it changes;
- that nothing else changed.

The derived quantities of a phone confirmation (`sec_resend`, `count_resend`,
`count_sec_wait_renewal_sending`, `is_expired`) and the resend policy are pure functions of
the record, the clock and the configuration. Lemmas about them state the policy's behaviour
over time: monotonicity, the backoff step, the cooldown and the expiry boundary.

Inputs from the environment are parameters:

- each reading of the clock is an `Instant` in microseconds, as Django datetimes are; a phone request reads it up to three times (the new created_at, the reset-window wait, the backoff wait), and each reading is its own parameter, with no order imposed between them;
- the uuid4 secret is a 128-bit value the caller guarantees is unused in its table;
- the draws of `random.choice` are a function from position to alphabet index;
- the password hasher's salt is a string;
- the `phonenumbers` library is a partial function from (number, region) to its E.164 form.

Elapsed whole seconds follow Python's `int(td.total_seconds())`, which truncates toward
zero, and not Dafny's Euclidean division.

Expiry follows the code's strict comparison `created_at + ttl < now`: a record exactly TTL
old is **not** expired yet, although one might read "valid for TTL hours" as expiring once
the age reaches the TTL.

## Model

| member | source | states |
|---|---|---|
| Choices.RegionCode | src/confirm/choices.py:15-18 | a phone region is named by a two-letter ISO 3166-1 alpha-2 code |
| Text.Lower | src/confirm/handlers.py:21 | `lower()` keeps the length and lowers each character in place |
| Text.LowerHasNoUpper | src/confirm/handlers.py:21 | a lowered email contains no upper-case letter |
| Text.LowerIdempotent | src/confirm/handlers.py:21 | lowering an already lowered email changes nothing |
| Text.LowerOfUpper | src/user/handlers/login.py:17 | lowering erases any upper-casing done before it |
| ConfirmModels.UpsertKeepsTableValid | src/confirm/models.py:10-22 | writing a row with a fresh secret_code under the existing id, or the next id, keeps ids and secrets unique |
| ConfirmModels.RewriteKeepsTableValid | src/confirm/models.py:10-22 | rewriting a row's columns other than id and secret_code keeps the table's constraints |
| ConfirmModels.DeleteKeepsTableValid | src/confirm/models.py:10-22 | deleting a row keeps the table's constraints |
| ConfirmModels.TruncSeconds | src/confirm/models.py:63 | elapsed seconds are the microsecond difference truncated toward zero: `s*10^6 <= d < (s+1)*10^6` for a non-negative difference, the mirror image for a negative one |
| ConfirmModels.TruncSecondsMonotone | src/confirm/models.py:63 | a longer interval never counts fewer whole seconds |
| ConfirmModels.PassedWholeSeconds | src/confirm/models.py:81 | an interval of exactly n seconds counts as n passed seconds |
| ConfirmModels.ExpiryBoundary | src/confirm/models.py:32-38 | a record exactly TTL hours old is not expired, one microsecond later it is, and it is never expired at or before its creation |
| ConfirmModels.ExpiredAfterTtlPlusOneHour | src/confirm/models.py:85-91 | email and phone records created TTL + 1 hours ago are expired |
| ConfirmModels.ExpiryIsPermanent | src/confirm/models.py:85-91 | an expired record stays expired as the clock advances |
| ConfirmModels.CountResend | src/confirm/models.py:67-73 | sends left never exceed the maximum, and are positive exactly when count_send is below it |
| ConfirmModels.SecResend | src/confirm/models.py:53-65 | the resend wait is never negative, is 0 once no sends are left, is at most STEP * count_send, and is positive only while fewer than STEP * count_send seconds have passed |
| ConfirmModels.CountSecWaitRenewalSending | src/confirm/models.py:75-83 | the reset wait is never negative, is at most the reset window, and is 0 exactly when the window has elapsed |
| ConfirmModels.SecResendWhileSendsLeft | src/confirm/models.py:59-65 | with sends left, the resend wait is `max(0, STEP * count_send - passed)` |
| ConfirmModels.SecResendAtGeneration | src/confirm/models.py:59-65 | right after (re)generation, with sends left, the wait is the whole STEP * count_send |
| ConfirmModels.SecResendNonIncreasing | src/confirm/models.py:62-65 | the resend wait never grows as time passes |
| ConfirmModels.WaitRenewalNonIncreasing | src/confirm/models.py:81-83 | the reset wait never grows, and stays 0 once it has reached 0 |
| ConfirmModels.WaitRenewalAtGeneration | src/confirm/models.py:81-83 | right after (re)generation the whole reset window is left |
| ConfirmUtils.AlphabetIsCodeChars | src/confirm/utils.py:24 | the code alphabet is exactly A–Z and 0–9, 36 characters |
| ConfirmUtils.GenerateConfirmCode | src/confirm/utils.py:16-24 | the code has LENGTH_CONFIRM_CODE characters, each an upper-case letter or a digit |
| ConfirmUtils.GenerateConfirmData | src/confirm/utils.py:27-47 | fresh data carries the given secret, created_at = now, confirmed = false, the given purpose and a well-formed code |
| ConfirmUtils.TypeConfirmIsAvailableForUser | src/confirm/utils.py:50-73 | ValueError exactly when the filter does not have one key or names neither email nor phone; otherwise the verdict for whether a user holds that contact |
| ConfirmUtils.AvailabilityFor | src/confirm/utils.py:67-73 | UserAlreadyExist iff the contact is taken and the purpose is registration or change; UserNotFound iff it is free and the purpose is reset; no error in the two other cases |
| ConfirmUtils.NormalizationPhoneNumber | src/confirm/utils.py:76-94 | the E.164 form when the library accepts the number, IncorrectPhone otherwise |
| ConfirmManagers.GetConfirmed | src/confirm/managers.py:6-20 | returns a row matching secret and purpose that is confirmed; NotFound iff no row matches both; NotConfirmed iff the matching row is unconfirmed; nothing else; no TTL check |
| ConfirmManagers.GetConfirmedFindsRow | src/confirm/managers.py:15-20 | a confirmed row is returned for its own secret and purpose |
| ConfirmManagers.WrongPurposeIsNotFound | src/confirm/managers.py:7-13 | the right secret with another purpose is NotFound, not NotConfirmed |
| ConfirmManagers.ConsumedIsNotFound | src/confirm/managers.py:7-13 | once a row is deleted its secret is NotFound for any purpose |
| ConfirmManagers.GetConfirmedIn | src/confirm/managers.py:23-28 | the email manager looks in the email table, the phone manager in the phone table |
| ConfirmManagers.DeletedHandleIsGone | src/user/handlers/registration.py:46 | deleting the row a lookup returned makes that secret NotFound for every purpose |
| ConfirmManagers.DeleteConfirmation | src/user/handlers/registration.py:34 | `confirm_obj.delete()` removes exactly that row of that table, keeps the constraints, and a repeated request with the secret is NotFound |
| ConfirmHandlers.EmailConfirmData | src/confirm/handlers.py:26-28 | the email data is the generated data, with code '111111' when EMAIL_TEST_CONFIRM_CODE is set |
| ConfirmHandlers.PhoneConfirmData | src/confirm/handlers.py:54-56 | the phone data is the generated data, with code '111111' when PHONEL_TEST_CONFIRM_CODE is set |
| ConfirmHandlers.CreateConfirmEmail | src/confirm/handlers.py:11-35 | an availability error is returned and nothing changes; otherwise the row under the lowered email becomes the new data, an existing row keeps its id, a new one takes the next id |
| ConfirmHandlers.NextCountSend | src/confirm/handlers.py:66-82 | a permitted send sets count_send to 1 or to count_send + 1 below the maximum, so it stays in 1..max(1, MAX); a refusal is one of the two phone errors with a positive wait; the reset window and the backoff are each judged at their own clock reading |
| ConfirmHandlers.NextCountSendCases | src/confirm/handlers.py:66-82 | the four branches by seconds passed, at the reset-window reading and at the backoff reading: the window elapsed gives 1; the maximum spent gives MaxCountSend(reset - passed); the step not passed gives WaitBeforeSending(step - passed); otherwise count_send + 1 |
| ConfirmHandlers.BackoffStep | src/confirm/handlers.py:76-82 | after the n-th send, a resend at once must wait n * STEP, and one whose backoff reading is n * STEP seconds later is the (n+1)-th, for any reset-window reading in between |
| ConfirmHandlers.MaxSendThenCooldown | src/confirm/handlers.py:66-74 | with the maximum spent, every resend inside the reset window is refused with the window's remaining seconds, and the first one read after it restarts at 1, whatever the backoff reading |
| ConfirmHandlers.Resent | src/confirm/handlers.py:80-81 | an accepted send keeps the row's id and restarts its clock at the new data's created_at with the new count_send |
| ConfirmHandlers.BurstIsBounded | src/confirm/handlers.py:66-82 | over any series of accepted requests none of which reads the reset window a full window after the previous send, each adds one to count_send, and a number sent c times gets at most MAX - c more |
| ConfirmHandlers.CreateConfirmPhone | src/confirm/handlers.py:38-82 | IncorrectPhone or an availability error changes nothing; a new number gets a row with the next id and count_send = 1; an existing one is refused unchanged or rewritten, as the resend policy decides at the second and third clock readings, with data stamped at the first; a rewrite agrees with `Resent` on id, created_at and count_send; counts stay in bounds |
| ConfirmHandlers.InsertPhone | src/confirm/handlers.py:58-64 | `get_or_create` inserts the new data with the next id and count_send = 1 |
| ConfirmHandlers.ResendPhone | src/confirm/handlers.py:66-82 | an existing row keeps its id and gets the new data with the new count_send, or is left as it is with the policy's error; a rewrite agrees with `Resent` of the old row on id, created_at and count_send |
| ConfirmHandlers.FindUnconfirmed | src/confirm/handlers.py:96-102 | returns a row with this secret and code that is unconfirmed, and none exactly when no such row exists |
| ConfirmHandlers.MarkConfirmed | src/confirm/handlers.py:107-108 | only that row's confirmed flag changes, to true |
| ConfirmHandlers.ConfirmIsOneShot | src/confirm/handlers.py:96-108 | after a confirmation, the same secret and code find nothing |
| ConfirmHandlers.ConfirmObj | src/confirm/handlers.py:85-108 | NotFound with no change when no unconfirmed row matches; Expired with no change when it is past its TTL; otherwise only its confirmed flag is set; the other table is untouched |
| UserModels.MakePassword | src/user/handlers/registration.py:41 | the hash verifies the password it was made from and no other |
| UserModels.ContactOwnerUnique | src/user/models.py:17-18 | at most one user holds a given email or phone |
| UserModels.SetContact | src/user/handlers/email_or_phone.py:31-34 | only the chosen contact column changes, to the new value |
| UserModels.AddUserKeepsValid | src/user/handlers/registration.py:39-45 | adding a user under the next id, with a contact nobody holds, keeps contacts unique |
| UserModels.SetContactKeepsValid | src/user/handlers/email_or_phone.py:26-36 | giving a user a contact nobody holds keeps contacts unique |
| UserModels.WithPassword | src/user/handlers/password.py:46-52 | the users holding the contact get the new hash; every other user is unchanged |
| UserModels.WithPasswordKeepsValid | src/user/handlers/password.py:51-52 | a password update keeps the user table's constraints |
| UserUtils.PasswdIsEqual | src/user/utils.py:22-28 | PasswordNotEqual exactly when the two plaintexts differ, no error exactly when they are equal |
| UserUtils.PasswdIsEqualSymmetric | src/user/utils.py:27 | the order of the two passwords does not matter |
| UserUtils.PasswdIsEqualCaseSensitive | src/user/utils.py:27 | any two different passwords with the same lowercase form are unequal |
| UserUtils.GetJwtTokens | src/user/utils.py:6-19 | exactly a 'refresh' and an 'access' token, both issued for the user |
| UserUtils.TokensIdentifyUser | src/user/utils.py:15-19 | two users never receive the same tokens |
| Permissions.InAnyGroup | src/user/permissions.py:20 | the membership query holds iff some listed name is one of the user's groups |
| Permissions.HasPermission | src/user/permissions.py:13-20 | anonymous users are denied; None or [] admits every authenticated user; a non-empty list admits exactly members of a listed group |
| Permissions.EmptyListIsNone | src/user/permissions.py:17-18 | an empty group list decides exactly as None |
| Permissions.MoreGroupsNeverDeny | src/user/permissions.py:20 | a user in more groups is admitted wherever a user in fewer is |
| Permissions.LongerListNeverDenies | src/user/permissions.py:20 | naming one more group in a non-empty list never denies anyone admitted before |
| Permissions.NamedGroupsRestrict | src/user/permissions.py:17-20 | whoever a group list admits, the empty list admits too |
| Login.FindUser | src/user/handlers/login.py:19-22 | a user holding the contact, found exactly when one exists |
| Login.Authenticate | src/user/handlers/login.py:19-25 | succeeds iff a user holds the contact and the password verifies, with that user; any failure is UserNotFound |
| Login.LoginByEmail | src/user/handlers/login.py:9-27 | tokens for the user with the lowered email iff the password verifies; otherwise UserNotFound; reads the users only |
| Login.LoginByPhone | src/user/handlers/login.py:30-49 | IncorrectPhone for an invalid number before any lookup; otherwise tokens for the user with the E.164 number iff the password verifies, else UserNotFound |
| Login.LoginByEmailIgnoresCase | src/user/handlers/login.py:17 | typing the email in upper case gives the same result |
| Login.OwnPasswordLogsIn | src/user/handlers/login.py:24-27 | a user whose hash was made from the typed password receives their own tokens |
| Login.WrongPasswordLooksLikeUnknownUser | src/user/handlers/login.py:19-25 | a wrong password and an absent user both give UserNotFound |
| Registration.NewUser | src/user/handlers/registration.py:40-45 | the created user has the confirmed contact, no other contact, the given hash, is_superuser false, and only the base group |
| Registration.CreateUser | src/user/handlers/registration.py:37-45 | the base group exists afterwards, and the user is added under the next id |
| Registration.Registration | src/user/handlers/registration.py:14-46 | PasswordNotEqual or a lookup error changes nothing; a taken contact deletes only the confirmation and raises UserAlreadyExist; otherwise one new user, the base group and the confirmation deleted; afterwards the secret is NotFound |
| Password.ChangePassword | src/user/handlers/password.py:13-24 | PasswordNotEqual leaves the users as they were; otherwise only that user's hash changes, to one of the new password |
| Password.ChangePasswordByConfirm | src/user/handlers/password.py:27-53 | PasswordNotEqual or a lookup error for a reset code changes nothing; no user with the contact deletes the confirmation and raises UserNotFound; otherwise the holders of the contact get the new hash and the confirmation is deleted |
| Password.ResetChangesOnlyThatAccount | src/user/handlers/password.py:46-52 | after a reset the holder of the contact verifies exactly the new password, and every other user keeps their hash |
| EmailOrPhone.ChangeEmailOrPhone | src/user/handlers/email_or_phone.py:10-37 | a lookup error for a change code changes nothing; a contact held by anyone, the actor included, deletes the confirmation and raises UserAlreadyExist; otherwise only the actor's chosen contact changes and the confirmation is deleted |
| EmailOrPhone.ChangedContactIsOwnedByActor | src/user/handlers/email_or_phone.py:26-36 | after a change the actor is the only holder of the new contact, and every other user is unchanged |

## Left out

- HTTP views, serializers, URL routing and response shaping are request plumbing around the handlers. So are the notification and Celery tasks the views start after a code is created.
- Phone normalisation is the `phonenumbers` library. It is a parameter: a partial function whose result is taken as the E.164 form.
- Django password hashing is modelled as an ideal salted hash. It verifies exactly the password it was made from. Hash strength and the hash's encoding are not modelled.
- A JWT is modelled as its kind and the user it was issued for. Signing, claims and lifetimes belong to the token library.
- The clock, the uuid4 secret, the code draws and the hasher's salt are parameters. Their randomness and distribution are not modelled. A fresh secret is a precondition: it must be absent from its table.
- `transaction.atomic` and concurrent requests are not modelled. Each handler is one sequential step on the database.
- `Text.Lower`: `str.lower()` is modelled on ASCII letters only. Non-ASCII case folding in emails is not modelled.
- `ConfirmUtils.TypeConfirmIsAvailableForUser`: the ValueError messages are English stand-ins for the source's Russian text.
- `ConfirmModels.SecResend`: the upper bound STEP * count_send is stated only when created_at is not after now. A created_at in the future makes the elapsed seconds negative, and the wait can then exceed the step.
- `ConfirmModels.CountSecWaitRenewalSending`: the upper bound of the reset window is stated only when created_at is not after now, for the same reason.
- The `username`, `created_at` and `updated_at` columns of User are not modelled, nor the User fields no handler reads.
- `Password.ChangePassword`: `user.save()` writes back every field of the in-memory user object. The model updates only the password of the stored row, so a stale in-memory object overwriting newer columns is not captured.
- `EmailOrPhone.ChangeEmailOrPhone`: same as `Password.ChangePassword` for `user_change.save()`.
- The return value of `create_confirm_phone` on a rewrite is the row read back after the update. The model returns the rewritten row, which is the same value.
- `ConfirmHandlers.BurstIsBounded`: a series of requests is followed through the columns the resend policy reads, created_at and count_send. The secret and code that each send also rewrites do not affect the policy.
