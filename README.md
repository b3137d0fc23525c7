# OTP authentication and access control, in Dafny

This project models the authentication core of a Django backend:
- how a user or an administrator asks for a one-time password (OTP), redeems it for a token pair, logs out, and changes or resets a password;
- the bearer-token guard and the role → service gate in front of the views;
- the management commands that register API services and seed user roles;
- the request validators that run before any view;
- the logging middleware that records requests and responses with their secrets masked.

The database is a `Tables` value held by a `Database` class, one field per table:
- users, and profiles with their role, active flag and first-time-password flag;
- the OTP ledger, a sequence of records per profile;
- the blacklisted tokens, roles, API services and mails handed to the mail thread.

Each view is a pure function over `Tables` that returns its answer and the new tables. An imperative method on the `Database` object performs the view's writes one at a time. Each method is proved to end exactly where its function says, so every lemma about the function holds of the method. A `transaction.atomic` block that raises rolls back to the tables as they were when it began.

Modules follow the program's files:

| module | models |
|---|---|
| `Wrappers`, `Text`, `Values` | `Result`/`Option`, the HTTP and Python errors; Python strings and values (`str.lower`, `in`, `split`, `str()`, truthiness) |
| `Validators`, `AuthValidators`, `PermissionValidators` | `custom_validations/base.py`, `auth.py`, `permission_service.py` |
| `Schemas`, `SchemaBase` | `schemas/auth.py`, `schemas/base.py` |
| `Models`, `Store` | the role, service and base models; the tables and the ORM writes the views make |
| `Backend`, `AuthHelpers` | `authentication_backend.py`; `utils/auth.py` |
| `AuthEndpoints`, `AuthViews` | `api/v1/auth.py` as functions, and as methods on the database |
| `Guard` | `api/v1/auth_backend.py`; the request object is a class whose fields the guard sets |
| `Registry` | both `register_services.py` commands and `add_user_roles.py` |
| `Middleware` | both `middleware.py` copies; the middleware instance is a class |

Where a docstring and the code disagree, the model follows the code:
- a wrong old password is refused with 422, not the documented 401;
- a new `ApiService` is active by default, although its docstring says otherwise;
- `verify_otp` wraps only the OTP check in its atomic block, so a later 401 leaves the code consumed.

## Model

| member | source | states |
|---|---|---|
| Store.FirstIexact | katana_sdk/app/api/v1/auth.py:280-284 | The position found is the first key equal to the name ignoring case; none is found exactly when no key matches. |
| Store.ProfileIexact | smaple_django_setup/app/api/utils/auth.py:12-16 | The profile found by `username__iexact ... .first()` exists and matches ignoring case; `None` exactly when no profile matches. |
| Store.SameOrderSameLookup | katana_sdk/app/api/v1/auth.py:280-284 | The case-insensitive lookup depends only on the order profiles were created in. |
| Store.ExactIsIexact | katana_sdk/app/api/v1/auth.py:90-94 | A profile found by the exact lookup is also found by the case-insensitive one. |
| Store.ReplaceOtps | katana_sdk/app/api/v1/auth.py:129-130 | Deleting a profile's records and creating one leaves exactly that record in its ledger; other ledgers are untouched. |
| Store.ReplaceOtpsKeepsValid | katana_sdk/app/api/v1/auth.py:129-130 | Replacing the ledger keeps the store invariant, including at most one OTP record per profile. |
| Store.SetPasswordKeepsValid | katana_sdk/app/api/v1/auth.py:107-108 | Setting a password keeps the store invariant. |
| Store.ActivateKeepsValid | smaple_django_setup/app/api/utils/auth.py:162-164 | Activating a profile keeps the store invariant. |
| Store.BlacklistKeepsValid | katana_sdk/app/api/v1/auth.py:409 | Blacklisting a token keeps the store invariant. |
| Store.SendMailKeepsValid | katana_sdk/app/api/v1/auth.py:131-133 | Handing a mail to the mail thread keeps the store invariant. |
| Store.MarkUsedKeepsValid | smaple_django_setup/app/api/utils/auth.py:166-167 | Marking a record used keeps the store invariant. |
| Store.DeleteOtpAtKeepsValid | katana_sdk/app/api/v1/auth.py:681 | Deleting one record keeps the store invariant. |
| Store.NewAccountKeepsValid | katana_sdk/app/api/v1/auth.py:110-118 | Creating a user and then its profile with an existing role keeps the store invariant. |
| Store.NewProfileKeepsValid | katana_sdk/app/api/v1/auth.py:116-118 | Creating a profile for an existing user keeps the store invariant. |
| Store.Database.Restore | katana_sdk/app/api/v1/auth.py:89 | Rolling back an atomic block puts every table back as it was. |
| Store.Database.SetPassword | katana_sdk/app/api/v1/auth.py:107-108 | `set_password` + `save` changes only that user's password. |
| Store.Database.CreateUser | katana_sdk/app/api/v1/auth.py:110-114 | `update_or_create` on a new username adds one user, last in creation order. |
| Store.Database.CreateProfile | katana_sdk/app/api/v1/auth.py:116-118 | `Profile.objects.create` adds one inactive profile with the given role, last in creation order. |
| Store.Database.ActivateProfile | smaple_django_setup/app/api/utils/auth.py:162-164 | Sets only that profile's active flag. |
| Store.Database.DeleteOtps | katana_sdk/app/api/v1/auth.py:129 | Empties only that profile's ledger. |
| Store.Database.CreateOtp | katana_sdk/app/api/v1/auth.py:130 | Appends one record to only that profile's ledger. |
| Store.Database.MarkUsed | smaple_django_setup/app/api/utils/auth.py:166-167 | Sets `is_used` on one record and changes nothing else. |
| Store.Database.DeleteOtpAt | katana_sdk/app/api/v1/auth.py:681 | Removes one record and changes nothing else. |
| Store.Database.Blacklist | katana_sdk/app/api/v1/auth.py:409 | Adds one token to the blacklist and changes nothing else. |
| Store.Database.SendMail | katana_sdk/app/api/v1/auth.py:131-133 | Records one mail and changes nothing else. |
| Backend.MatchingUsers | katana_sdk/app/authentication_backend.py:11-13 | Every user listed matches the name by username or email, ignoring case. |
| Backend.MatchingUsersComplete | katana_sdk/app/authentication_backend.py:11-13 | Every matching user is listed. |
| Backend.Authenticate | katana_sdk/app/authentication_backend.py:9-18 | Two or more matches raise (not `DoesNotExist`, so not caught). A returned user is the only match, its password equals the given one, and it may authenticate. No match gives `None`. Conversely, when one user alone matches the name, has that password and may authenticate, that user is returned. |
| Backend.UniqueMatch | katana_sdk/app/authentication_backend.py:11-13 | When one user alone matches the name or e-mail ignoring case, the lookup finds exactly that user. |
| Backend.SelectedIsMatched | katana_sdk/app/authentication_backend.py:11-13 | Any user that matches the name is among the matches the lookup counts. |
| Backend.AmbiguousNameRaises | katana_sdk/app/authentication_backend.py:11-16 | Two distinct users matching one name make authentication raise `MultipleObjectsReturned`, whatever the password. |
| AuthHelpers.GetUserRole | smaple_django_setup/app/api/utils/auth.py:170-173 | The role name of a profile names an existing role row. |
| AuthHelpers.CheckAdminAccountStatus | smaple_django_setup/app/api/utils/auth.py:11-34 | Ok exactly for a case-insensitive match that is active with role ADMIN or MANAGER; 404 exactly when no profile matches; "Account is deactivated." exactly when the match is inactive. |
| AuthHelpers.FirstOtp | smaple_django_setup/app/api/utils/auth.py:38-40 | The record found is the first matching profile, code and type together; none exactly when no record matches. |
| AuthHelpers.CheckOtp | smaple_django_setup/app/api/utils/auth.py:37-57 | Ok only for a matching, unexpired, unused record, and Ok with that record whenever the first match is live. "Incorrect verification code." exactly when none matches. Expired (expiry <= now) is reported before used. "used" exactly when the first match is unexpired and used. Every refusal is 422. |
| AuthHelpers.DeadCodeNeverVerifies | smaple_django_setup/app/api/utils/auth.py:45-55 | A code whose matching records are all expired or used never verifies. |
| AuthHelpers.SameProfilesSameStatus | smaple_django_setup/app/api/utils/auth.py:11-34 | The account check reads only the profiles and their order. |
| AuthHelpers.ExpectedOtpType | smaple_django_setup/app/api/utils/auth.py:153-158 | SIGN_UP exactly when the account was just created; TWO_FACTOR exactly when not created and two-factor; otherwise SIGN_IN; never FORGOT_PWD. |
| AuthHelpers.AuthenticateUserFrame | smaple_django_setup/app/api/utils/auth.py:160-167 | Succeeds exactly when the check passes; a failure writes nothing; only the ledger and active flags can change. |
| AuthHelpers.AuthenticateUserConsumes | smaple_django_setup/app/api/utils/auth.py:160-167 | On success the checked record is marked used and the profile is active if it was just created. |
| AuthHelpers.AuthenticateUserPreservesValid | smaple_django_setup/app/api/utils/auth.py:160-167 | The check keeps the store invariant. |
| AuthHelpers.AuthenticateUserSpends | smaple_django_setup/app/api/utils/auth.py:160-167 | With one record per profile, a success spends the only record. |
| AuthHelpers.SecondVerificationFails | smaple_django_setup/app/api/utils/auth.py:51-55 | After a success every record is used, so verifying again fails for any code, type and time. |
| AuthHelpers.AuthenticateUserOn | smaple_django_setup/app/api/utils/auth.py:112-167 | The imperative check leaves the database and outcome its function gives. |
| AuthHelpers.TokensForUser | smaple_django_setup/app/api/utils/auth.py:98-105 | The minted tokens carry the user, email, role id and role name. |
| AuthEndpoints.RequestOtpRefusals | katana_sdk/app/api/v1/auth.py:83-118 | A request is refused (422, nothing written) exactly when the username is a staff user, when an existing profile's role is not NORMAL_USER/TECHNICIAN, or when a new user needs a missing NORMAL_USER role. The staff refusal comes first. |
| AuthEndpoints.IssueLoginOtpEffect | katana_sdk/app/api/v1/auth.py:120-134 | The ledger holds exactly one new record, SIGN_IN if the profile is active and SIGN_UP otherwise, and one login mail is sent. |
| AuthEndpoints.IssueLoginOtpKeepsValid | katana_sdk/app/api/v1/auth.py:129-130 | Issuing the OTP keeps the store invariant. |
| AuthEndpoints.RequestOtpKeepsValid | katana_sdk/app/api/v1/auth.py:36-142 | The whole user OTP request keeps the store invariant. |
| AuthEndpoints.RequestOtpIssues | katana_sdk/app/api/v1/auth.py:95-134 | On success the password and only OTP record are the six-digit code. An unknown user gets an inactive NORMAL_USER profile, while an existing profile is unchanged. |
| AuthEndpoints.RequestOtpUsers | katana_sdk/app/api/v1/auth.py:97-118 | After a request the name has a user and a profile whose role may request a code. An existing user keeps its active flag and a new user is active, and no other user changes. |
| AuthEndpoints.RequestOtpLookup | katana_sdk/app/api/v1/auth.py:279-283 | A profile nobody else matches ignoring case is found by the lookup and is the backend's only match. |
| AuthEndpoints.RequestOtpThenVerify | katana_sdk/app/api/v1/auth.py:36-142 | A code obtained from `authenticate_user_with_otp` and sent back before it expires logs that user in under their own name. |
| AuthEndpoints.AdminOtp | katana_sdk/app/api/v1/auth.py:146-216 | The admin OTP request keeps the store invariant. |
| AuthEndpoints.AdminOtpRefusals | katana_sdk/app/api/v1/auth.py:185-193 | A refusal writes nothing. The account check's error is reported first. A wrong password gives 401 "Provided password is incorrect.". |
| AuthEndpoints.AdminOtpIssues | katana_sdk/app/api/v1/auth.py:195-206 | On success the profile's ledger is one TWO_FACTOR record with the code, and one mail is sent. |
| AuthEndpoints.AdminRoundTrip | katana_sdk/app/api/v1/auth.py:146-330 | An admin who obtained a code and sends it back before it expires is logged in as that admin, and no user row changes. |
| AuthEndpoints.LoginAfterCheck | katana_sdk/app/api/v1/auth.py:307-330 | An admin logs in without a second check. Anyone else must pass the backend with the code, and that user's password becomes the new draw; a failure writes nothing more. When the backend returns a user, the token is that user's; when it raises, the answer is 422 "Something went wrong.". |
| AuthEndpoints.VerifyOtp | katana_sdk/app/api/v1/auth.py:220-335 | Verification keeps the store invariant. |
| AuthEndpoints.VerifyOtpAccepts | katana_sdk/app/api/v1/auth.py:279-330 | A found profile whose code checks out, and for a non-admin a backend that returns a user, is logged in: as the profile for an admin, as the returned user otherwise. |
| AuthEndpoints.SuspiciousLoginWrites | katana_sdk/app/api/v1/auth.py:302-313 | A 401 "suspicious login" answer still writes to the store. |
| AuthEndpoints.FreshLoginCodeChecks | katana_sdk/app/api/v1/auth.py:279-305 | A user whose only record is an unused code of the expected kind, equal to the password, and whom nobody else matches ignoring case passes the profile lookup, the code check and the backend. |
| AuthEndpoints.FreshLoginCodeVerifies | katana_sdk/app/api/v1/auth.py:279-330 | Such a user is logged in under their own name and role, the profile is active, and the password becomes the next draw. |
| AuthEndpoints.VerifyOtpFrame | katana_sdk/app/api/v1/auth.py:279-330 | Verification never adds or removes profiles or changes roles. |
| AuthEndpoints.VerifyOtpUnknownUser | katana_sdk/app/api/v1/auth.py:280-293 | 404 "... Please register first." exactly when no profile matches ignoring case. |
| AuthEndpoints.VerifyOtpCheckFails | katana_sdk/app/api/v1/auth.py:302-305 | A failed OTP check returns its error and leaves the database unchanged. |
| AuthEndpoints.VerifyOtpKeepsCheckLedger | katana_sdk/app/api/v1/auth.py:302-318 | After a passed check, the ledger is the one the check left, even if the backend then refuses. |
| AuthEndpoints.VerifyOtpRejectsSpentLedger | katana_sdk/app/api/v1/auth.py:302-305 | A profile whose records are all used cannot log in. |
| AuthEndpoints.VerifyOtpSucceeds | katana_sdk/app/api/v1/auth.py:295-330 | A success passed the check of the expected type and answers the role and role id. The profile becomes active; an admin's password is untouched, anyone else's becomes the new draw. |
| AuthEndpoints.VerifyOtpFailureAfterCheckConsumes | katana_sdk/app/api/v1/auth.py:307-313 | A 401 after the check still leaves the code consumed: it never verifies again. |
| AuthEndpoints.SuspiciousLoginPassedCheck | katana_sdk/app/api/v1/auth.py:307-313 | A 401 "Suspicious activity found while login." happens only after the OTP check passed. |
| AuthEndpoints.VerifyOtpNoReplay | katana_sdk/app/api/v1/auth.py:302-305 | The same code verified twice fails the second time. |
| AuthEndpoints.ManagerAdminCodeRefused | katana_sdk/app/api/v1/auth.py:195-200 | A MANAGER's admin-login code is TWO_FACTOR while `verify_otp` expects SIGN_IN for a non-ADMIN role, so it is refused as incorrect. |
| AuthEndpoints.BearerHeaderToken | katana_sdk/app/api/v1/auth.py:412 | `split(" ")[1]` of "Bearer <token>" is the token. |
| AuthEndpoints.LogoutEffect | katana_sdk/app/api/v1/auth.py:401-415 | An invalid refresh token gives 422 "Token is not valid." and no write. A valid logout blacklists exactly the refresh and access tokens. |
| AuthEndpoints.LogoutBlacklistsRefreshFirst | katana_sdk/app/api/v1/auth.py:405-420 | Once accepted, the refresh token is blacklisted even if reading the header then fails. |
| AuthEndpoints.ChangePasswordEffect | katana_sdk/app/api/v1/auth.py:490-506 | Succeeds exactly when the old password is right and differs from the new one. A refusal is 422 and writes nothing. After success, the same request is refused as "Old password is incorrect". |
| AuthEndpoints.ForgotPassword | katana_sdk/app/api/v1/auth.py:517-596 | The forgot-password request keeps the store invariant. |
| AuthEndpoints.ForgotPasswordEffect | katana_sdk/app/api/v1/auth.py:573-591 | Succeeds exactly when the account check does. The ledger is then one FORGOT_PWD record and one recovery mail is sent. A failure writes nothing. |
| AuthEndpoints.ResetPassword | katana_sdk/app/api/v1/auth.py:600-689 | The reset keeps the store invariant. |
| AuthEndpoints.ResetPasswordOutcome | katana_sdk/app/api/v1/auth.py:669-681 | Succeeds exactly for an existing exact username whose account check and FORGOT_PWD check pass. An unknown username is 404 "Not Found". A failure writes nothing. |
| AuthEndpoints.ResetPasswordSucceeds | katana_sdk/app/api/v1/auth.py:676-684 | On success only the user's password changes, and the profile's ledger is empty. |
| AuthEndpoints.ResetWritesKeepValid | katana_sdk/app/api/v1/auth.py:676-681 | The three writes of a reset keep the store invariant. |
| AuthEndpoints.ResetPasswordNoReuse | katana_sdk/app/api/v1/auth.py:675-681 | A reset code cannot be used twice. |
| AuthEndpoints.ForgotThenReset | katana_sdk/app/api/v1/auth.py:575-585 | The code sent by a forgot-password request resets the password before it expires. |
| AuthViews.IssueLoginOtpOn | katana_sdk/app/api/v1/auth.py:120-134 | The imperative OTP issue ends where its function says. |
| AuthViews.RequestOtpOn | katana_sdk/app/api/v1/auth.py:83-142 | The imperative user OTP request, with its rollback, ends where `RequestOtp` says. |
| AuthViews.AdminOtpOn | katana_sdk/app/api/v1/auth.py:185-216 | The imperative admin OTP request ends where `AdminOtp` says. |
| AuthViews.VerifyOtpOn | katana_sdk/app/api/v1/auth.py:279-335 | The imperative verification ends where `VerifyOtp` says. |
| AuthViews.LogoutOn | katana_sdk/app/api/v1/auth.py:401-420 | The imperative logout ends where `Logout` says. |
| AuthViews.ChangePasswordOn | katana_sdk/app/api/v1/auth.py:490-513 | The imperative password change ends where `ChangePassword` says. |
| AuthViews.ForgotPasswordOn | katana_sdk/app/api/v1/auth.py:573-596 | The imperative forgot-password request ends where `ForgotPassword` says. |
| AuthViews.ResetPasswordOn | katana_sdk/app/api/v1/auth.py:669-689 | The imperative reset ends where `ResetPassword` says. |
| Guard.BearerAuthenticateOutcome | katana_sdk/app/api/v1/auth_backend.py:23-49 | A blacklisted token gets 401 "Token is expired." whatever its JWT. Otherwise a verified JWT gives True and a rejected one gives None. Only a success changes the request. |
| Guard.BearerAuthenticateSetsClaims | katana_sdk/app/api/v1/auth_backend.py:32-37 | A success sets the user, `user_id` from the role-id claim, `user_role` from the role-name claim, and `logged_in`. |
| Guard.LoggedOutTokensRefused | katana_sdk/app/api/v1/auth_backend.py:46-49 | After a logout, both the access and the refresh token are refused. |
| Guard.VerifiedLoginTokenCarriesRole | katana_sdk/app/api/v1/auth_backend.py:32-37 | A token minted by a login puts the login's role and that role's id on the request. |
| Guard.ServiceAccessOutcome | katana_sdk/app/api/v1/auth_backend.py:78-89 | Passes exactly when the role exists and holds an active service with that code name. An unknown role is 404; otherwise 403 "This service is not accessible.". |
| Guard.ActiveMatches | katana_sdk/app/api/v1/auth_backend.py:154 | Lists exactly the active profiles matching the email ignoring case. |
| Guard.ActiveMatchesDistinct | katana_sdk/app/api/v1/auth_backend.py:154 | No profile is listed twice. |
| Guard.FetchUserProfileOutcome | katana_sdk/app/api/v1/auth_backend.py:142-163 | Ok gives the only active match. 404 exactly when there is none; two active matches raise `MultipleObjectsReturned`. |
| Guard.ServiceGateOutcome | katana_sdk/app/api/v1/auth_backend.py:77-89 | A refusal leaves the request alone and reports the access error first. A pass had access and records an active profile and its role in META; a logged-in caller's own username is used. |
| Guard.DeviceLoginGate | katana_sdk/app/api/v1/auth_backend.py:108-139 | Passes exactly when the e-mail (the caller's when logged in, else the payload's) has a single active profile matching it ignoring case, and then records that profile and its role in META. No e-mail raises `KeyError`; 404 exactly when nothing active matches; a refusal leaves the request unchanged. |
| Guard.ValidateUserAgentOutcome | katana_sdk/app/api/v1/auth_backend.py:184-199 | A mobile agent passes. A parsed non-mobile agent passes unless the role is NURSE, OT_ADMIN or COURIER. A parse error is refused too, always with 403 "Access restricted to mobile devices only.". |
| Guard.Request.Authenticate | katana_sdk/app/api/v1/auth_backend.py:23-39 | The imperative bearer check sets the request fields its function gives. |
| Guard.Request.DeviceStepOn | katana_sdk/app/api/v1/auth_backend.py:115-138 | The imperative device step sets META as its function gives. |
| Guard.Request.ServiceGateOn | katana_sdk/app/api/v1/auth_backend.py:77-89 | The imperative gate ends where `ServiceGate` says. |
| Registry.DeclaredNamesAppend | katana_sdk/app/api/management/commands/register_services.py:37-40 | The names scanned from two lists of URL entries are the names of each, in order. |
| Registry.Registrable | katana_sdk/app/api/management/commands/register_services.py:46-49 | The payload holds exactly the scanned names with neither "openapi" nor "root" in them. |
| Registry.FirstRepeatFinds | katana_sdk/app/api/management/commands/register_services.py:41-45 | No repeat is reported exactly when no name occurs twice; a reported name occurs twice. |
| Registry.FirstRepeatExtend | katana_sdk/app/api/management/commands/register_services.py:41-44 | The first repeat found is not affected by later names. |
| Registry.RegisterServicesRefusesDuplicates | katana_sdk/app/api/management/commands/register_services.py:41-44 | A repeated name (excluded names count too) fails with its duplicate message before any write. Without repeats, the command succeeds exactly when the insert does. |
| Registry.RegisterServicesActiveSet | katana_sdk/app/api/management/commands/register_services.py:51-57 | Afterwards the active services are exactly the registrable declared names. No row is deleted; undeclared rows are inactive. |
| Registry.UpsertAgain | katana_sdk/app/api/management/commands/register_services.py:51-57 | Deactivating and upserting the same names twice equals doing it once. |
| Registry.RegisterServicesIdempotent | katana_sdk/app/management/commands/register_services.py:51-57 | Re-running the command over the same routes changes nothing. |
| Registry.RegisterServicesInsertFailure | katana_sdk/app/management/commands/register_services.py:51-60 | A failed upsert after the deactivation reports "error: ..." and leaves every row inactive. |
| Registry.RegisterServicesOn | katana_sdk/app/api/management/commands/register_services.py:32-60 | The loop over the routes, the bulk deactivation and the upsert end where `RegisterServices` says; katana_sdk/app/management/commands/register_services.py holds the same text. |
| Registry.SeedRolesEffect | katana_sdk/app/api/management/commands/add_user_roles.py:13-17 | `get_or_create` never changes an existing role, adds only seeded names, fails exactly when a call fails, and keeps the roles created before that call. |
| Registry.SeedRolesPresent | katana_sdk/app/api/management/commands/add_user_roles.py:13-17 | With every name present, seeding changes nothing. |
| Registry.AddUserRolesSeeds | katana_sdk/app/api/management/commands/add_user_roles.py:12-21 | Success exactly when no call fails. On success the five roles exist, existing rows are unchanged, and re-running is a no-op. On failure the roles created before it stay. |
| Registry.GetOrCreateRoleOn | katana_sdk/app/api/management/commands/add_user_roles.py:13 | One `get_or_create` adds the role only if missing and assigns the next id only then. |
| Registry.SeedRolesStep | katana_sdk/app/api/management/commands/add_user_roles.py:13-17 | Seeding from the k-th name is one `get_or_create` followed by seeding the rest. |
| Registry.AddUserRolesOn | katana_sdk/app/api/management/commands/add_user_roles.py:10-21 | The five calls end where `AddUserRoles` says. |
| Models.NewApiService | katana_sdk/app/models/api_service.py:30-31 | A new service is active by default and keyed by its code name. |
| Models.NewUserRole | katana_sdk/app/models/user_role.py:14-16 | A new role is active, has no services, and carries its name. |
| Models.SeededRoleNames | katana_sdk/app/models/user_role.py:6-14 | The seeded names fit in 30 characters; only ADMIN and NORMAL_USER are among the declared choices. |
| Models.AssignSnoc | katana_sdk/app/models/base.py:36-37 | Assigning one more payload entry overrides that field. |
| Models.AssignKeeps | katana_sdk/app/models/base.py:36-37 | A field not in the payload keeps its value. |
| Models.AssignSets | katana_sdk/app/models/base.py:36-37 | Every payload key takes its payload value. |
| Models.ModelInstance.UpdateModelObject | katana_sdk/app/models/base.py:28-44 | The fields become the payload assignment, plus `updated_at`/`updated_by` when updating. `clean` runs before `save`, and the saved row equals the fields. |
| Models.AuditColumnsUntouched | katana_sdk/app/models/base.py:39-41 | Without `is_update`, the audit columns change only if the payload names them. |
| Validators.RequiredField | katana_sdk/app/api/v1/schemas/custom_validations/base.py:12-24 | Rejects exactly `None` and blank strings, with "{name} is required.". |
| Validators.ValidateLength | katana_sdk/app/api/v1/schemas/custom_validations/base.py:27-43 | Falsy optional values pass. The maximum is checked before the minimum, a bound of 0 is ignored, and each failure has its message. |
| Validators.IsNumericOnly | katana_sdk/app/api/v1/schemas/custom_validations/base.py:46-61 | Once the required check passes, a value passes exactly when it is falsy or its `str()` is digits and whitespace (digits only without spaces). A pass means that shape, and failures carry the matching message. |
| Validators.NumericOnlyOnIntegers | katana_sdk/app/api/v1/schemas/custom_validations/base.py:46-61 | `str()` of a positive integer passes; of a negative one fails. |
| Validators.NumericOnlyOnDigitStrings | katana_sdk/app/api/v1/schemas/custom_validations/base.py:46-61 | A non-blank string of digits (and whitespace, where allowed) passes, required or not. |
| Validators.FirstLineHasDigitIff | katana_sdk/app/api/v1/schemas/custom_validations/base.py:118-127 | The digit search stops at the first newline. |
| Validators.IsAlphanumeric | katana_sdk/app/api/v1/schemas/custom_validations/base.py:112-127 | A pass means ASCII letters and digits (and spaces when allowed) with a digit; a non-string raises. |
| Validators.AlphanumericAccepts | katana_sdk/app/api/v1/schemas/custom_validations/base.py:112-127 | Letters and digits with at least one digit pass. |
| Validators.PwdMatch | katana_sdk/app/api/v1/schemas/custom_validations/base.py:152-157 | Passes exactly when the two values are equal in Python; otherwise "Passwords do not match.". |
| Validators.IndexOf | katana_sdk/app/api/v1/schemas/custom_validations/base.py:176-181 | Finds the first occurrence of a character. |
| Validators.EmailPatternIsLanguage | katana_sdk/app/api/v1/schemas/custom_validations/base.py:176-181 | The matcher accepts exactly the language the email pattern describes. |
| Validators.EmailPatternSound | katana_sdk/app/api/v1/schemas/custom_validations/base.py:176-181 | Whatever the matcher accepts is in the pattern's language. |
| Validators.EmailPatternComplete | katana_sdk/app/api/v1/schemas/custom_validations/base.py:176-181 | Every word of the pattern's shape is accepted. |
| Validators.IndexOfFirst | katana_sdk/app/api/v1/schemas/custom_validations/base.py:176-181 | `IndexOf` returns the first occurrence. |
| Validators.IndexOfAbsent | katana_sdk/app/api/v1/schemas/custom_validations/base.py:176-181 | `IndexOf` of a missing character is the length. |
| Validators.ValidateEmail | katana_sdk/app/api/v1/schemas/custom_validations/base.py:160-187 | The pattern is checked before the 254-character limit; a pass is an email of at most 254 characters. |
| Validators.EmailNotBlank | katana_sdk/app/api/v1/schemas/custom_validations/base.py:176-181 | A matching email is not blank. |
| Validators.EmailHasTwoLocalChars | katana_sdk/app/api/v1/schemas/custom_validations/base.py:176-181 | A matching email has at least two characters before its only "@". |
| Validators.ValidateIntList | katana_sdk/app/api/v1/schemas/custom_validations/base.py:190-214 | Once the required check passes, a non-empty list passes exactly when every item is int-convertible and no two are equal in Python. A bad item is reported ("All elements in … must be integers.") before a repeat ("Some duplicate … IDs found."), and a non-list is refused with its message. |
| Validators.IntListOneAndTrue | katana_sdk/app/api/v1/schemas/custom_validations/base.py:205-212 | `[1, True]` counts as a duplicate, since `1 == True` in Python. |
| Validators.ValidateBoolType | katana_sdk/app/api/v1/schemas/custom_validations/base.py:64-77 | "true"/"1"/"True" give True and "False"/"false"/"0" give False; other truthy non-booleans are refused; a boolean gives nothing. |
| Validators.RemoveSpaces | katana_sdk/app/api/v1/schemas/custom_validations/base.py:239 | No whitespace remains. |
| Validators.RemoveSpacesKeeps | katana_sdk/app/api/v1/schemas/custom_validations/base.py:239 | Every non-space character is kept. |
| Validators.RemoveSpacesFrom | katana_sdk/app/api/v1/schemas/custom_validations/base.py:239 | Removing whitespace adds no character. |
| Validators.ValidateContactNumber | katana_sdk/app/api/v1/schemas/custom_validations/base.py:234-245 | Once the required check passes, a non-empty string passes exactly when removing whitespace leaves digits only, at least one; otherwise "Invalid … format.". A truthy non-string raises. A pass is digits and whitespace with at least one digit. |
| Validators.ContactNumberAccepts | katana_sdk/app/api/v1/schemas/custom_validations/base.py:234-245 | A string of digits and whitespace holding at least one digit passes, required or not. |
| Validators.NonEmptyPieces | katana_sdk/app/api/v1/schemas/custom_validations/base.py:452 | The comma pieces kept are non-empty. |
| Validators.DropEmpty | katana_sdk/app/api/v1/schemas/custom_validations/base.py:455 | Keeps exactly the items that are not the empty string. |
| Validators.SplitList | katana_sdk/app/api/v1/schemas/custom_validations/base.py:449-459 | No empty string remains. Unless there is a single item, the items kept are exactly the non-empty ones. |
| Validators.NonEmptyPiecesTexts | katana_sdk/app/api/v1/schemas/custom_validations/base.py:452 | The pieces kept spell the pieces joined. |
| Validators.SplitListPieces | katana_sdk/app/api/v1/schemas/custom_validations/base.py:451-452 | A single item holding "," splits into non-empty pieces without commas that spell the item without its commas. |
| Validators.NonEmptyPiecesFrom | katana_sdk/app/api/v1/schemas/custom_validations/base.py:452 | Every piece kept is one of the split pieces. |
| Validators.ValidateCodeNames | katana_sdk/app/api/v1/schemas/custom_validations/base.py:550-563 | A required empty list is refused. An optional list passes exactly when every item is an identifier string; any other failure is "Some of code names are not valid.". |
| AuthValidators.OutcomeToResult | katana_sdk/app/api/v1/schemas/custom_validations/auth.py:7 | A validator returns its input unchanged exactly when its checks pass. |
| AuthValidators.LoginValidate | katana_sdk/app/api/v1/schemas/custom_validations/auth.py:4-7 | Passes exactly when the username passes `validate_email`. |
| AuthValidators.AdminLoginValidate | katana_sdk/app/api/v1/schemas/custom_validations/auth.py:10-14 | The login check comes first; then a required password of 8 to 15 characters, with no class rule. |
| AuthValidators.VerifyOtpValidate | katana_sdk/app/api/v1/schemas/custom_validations/auth.py:17-20 | Passes exactly when `str(otp)` is numeric. |
| AuthValidators.VerifyOtpNoLengthCheck | katana_sdk/app/api/v1/schemas/custom_validations/auth.py:17-20 | Any non-negative integer OTP passes, whatever its length; a missing one fails. |
| AuthValidators.LogoutValidate | katana_sdk/app/api/v1/schemas/custom_validations/auth.py:23-26 | Passes exactly when the refresh token is present and not blank. |
| AuthValidators.ResetValidate | katana_sdk/app/api/v1/schemas/custom_validations/auth.py:29-43 | Returns its input on success. |
| AuthValidators.ResetValidateAdminFirst | katana_sdk/app/api/v1/schemas/custom_validations/auth.py:30 | The admin-login checks run first. |
| AuthValidators.ResetValidateSound | katana_sdk/app/api/v1/schemas/custom_validations/auth.py:35-41 | A pass has a six-digit OTP (or the falsy 0), a present confirmation, and equal passwords. |
| AuthValidators.ResetValidateMatch | katana_sdk/app/api/v1/schemas/custom_validations/auth.py:40-43 | Unequal passwords give "Password does not match."; equal ones pass. |
| AuthValidators.ChangeValidate | katana_sdk/app/api/v1/schemas/custom_validations/auth.py:46-55 | Returns its input on success. |
| AuthValidators.ChangeValidateOldFirst | katana_sdk/app/api/v1/schemas/custom_validations/auth.py:50 | A missing old password is the first refusal. |
| AuthValidators.ChangeValidateSound | katana_sdk/app/api/v1/schemas/custom_validations/auth.py:50-54 | A pass has the old password, an equal confirmation, and a new password that is alphanumeric with a digit and 8 to 15 long. |
| AuthValidators.ChangeValidateComplete | katana_sdk/app/api/v1/schemas/custom_validations/auth.py:50-55 | Input meeting all of those passes. |
| PermissionValidators.ApiServiceValidate | katana_sdk/app/api/v1/schemas/custom_validations/permission_service.py:4-8 | An empty list passes. A list passes exactly when every name is an identifier string. A missing list raises a non-HTTP error. The input is returned unchanged. |
| Schemas.StrField | katana_sdk/app/api/v1/schemas/auth.py:30 | A string field parses exactly when present as a string. |
| Schemas.IntField | katana_sdk/app/api/v1/schemas/auth.py:75 | An integer field keeps an integer, and a non-empty digit string is read as the number it spells. |
| Schemas.UsernameField | katana_sdk/app/api/v1/schemas/auth.py:30 | The username is lower-cased. |
| Schemas.ParseLogin | katana_sdk/app/api/v1/schemas/auth.py:14-32 | Parses exactly when the validator passes and the username is a string; the result is an email equal to the input ignoring case. |
| Schemas.ParseForgotPwd | katana_sdk/app/api/v1/schemas/auth.py:43-44 | Same shape as the login request. |
| Schemas.ParseAdminLogin | katana_sdk/app/api/v1/schemas/auth.py:35-40 | Adds the password of 8 to 15 characters. |
| Schemas.ParseResetPwd | katana_sdk/app/api/v1/schemas/auth.py:47-51 | A six-digit OTP and equal passwords of 8 to 15 characters. |
| Schemas.ParseResetPwdComplete | katana_sdk/app/api/v1/schemas/auth.py:47-51 | Every e-mail with a non-blank password of 8 to 15 characters, a matching confirmation and a six-digit OTP is accepted, lower-cased. |
| Schemas.ParseVerifyOtp | katana_sdk/app/api/v1/schemas/auth.py:54-79 | The OTP validator runs and reports first; a pass also parses the login part. |
| Schemas.ParseVerifyOtpComplete | katana_sdk/app/api/v1/schemas/auth.py:54-79 | Every e-mail of at most 254 characters with an integer OTP is accepted, lower-cased, with that OTP. |
| Schemas.ParseVerifyOtpSound | katana_sdk/app/api/v1/schemas/auth.py:75-79 | The OTP is a non-negative integer and the username an email. |
| Schemas.ParseLogOut | katana_sdk/app/api/v1/schemas/auth.py:100-118 | Parses exactly when the refresh token is a non-blank string. |
| Schemas.ParseChangePassword | katana_sdk/app/api/v1/schemas/auth.py:136-162 | Parses only when the change validator passes. |
| Schemas.ParseChangePasswordSound | katana_sdk/app/api/v1/schemas/auth.py:156-162 | A parsed request has a well-formed new password, an equal confirmation, and a non-blank old password. |
| Schemas.ParseChangePasswordComplete | katana_sdk/app/api/v1/schemas/auth.py:156-162 | Input meeting the rules parses. |
| Schemas.LowerKeepsEmail | katana_sdk/app/api/v1/schemas/auth.py:30 | Lower-casing an email keeps it an email. |
| SchemaBase.ValidateAttributes | katana_sdk/app/api/v1/schemas/base.py:39-67 | Passes exactly when ids is a non-empty list, `is_active` is given, and a reason is given exactly when deactivating. Missing ids are reported first. Every refusal is 422. |
| SchemaBase.FromDays | katana_sdk/app/api/v1/schemas/base.py:128-149 | Only 1, 7, 30, 90 and 365 are `DateEnum` values. |
| SchemaBase.DaysRoundTrip | katana_sdk/app/api/v1/schemas/base.py:145-149 | Each `DateEnum` member is found again from its value. |
| Text.SixDigits | katana_sdk/app/api/v1/auth.py:95 | `str(randint(100000, 999999))` is six digits. |
| Text.SplitJoinRoundTrip | katana_sdk/app/api/v1/auth.py:412 | `split` pieces joined back give the string, and no piece holds the separator. |
| Middleware.DictConverterFallback | katana_sdk/app/middleware.py:11-16 | As written, a JSON text is evaluated exactly when it holds none of `true`/`false`/`null`; anything else is wrapped in a list. |
| Middleware.ExcludedPathsNotLogged | katana_sdk/app/middleware.py:45-49 | A path holding an excluded part gives no log; any other request that does not raise gets a log with its method and path and no response yet. |
| Middleware.MaskSecretKeys | katana_sdk/app/middleware.py:61-67 | Every key whose lower-case form holds "password" or "refresh" has its value replaced by "*****"; every other entry is unchanged. |
| Middleware.RequestSecretsMasked | katana_sdk/app/middleware.py:58-70 | A JSON object body is logged with exactly its secret values masked, by either converter. |
| Middleware.FilesInfo | katana_sdk/app/middleware.py:75-81 | One `{file_name, file_size}` entry per file, in order. |
| Middleware.CollectFilesInfo | katana_sdk/app/middleware.py:76-81 | The appending loop builds that list. |
| Middleware.NonJsonResponsePlaceholder | katana_sdk/app/middleware.py:97-106 | A non-JSON response with content is logged as "Response may be in file.". |
| Middleware.MaskTokenObject | katana_sdk/app/middleware.py:114-118 | Masking a token object replaces exactly its access and refresh values by "******". |
| Middleware.LoginTokensLeakAsWritten | katana_sdk/app/middleware.py:104-118 | As written, a login answer is logged as its text with both tokens in it. |
| Middleware.LoginTokensMasked | katana_sdk/app/middleware.py:110-118 | With JSON read as JSON, a login answer is logged with both tokens masked and all else as sent. |
| Middleware.ResponseTokenMasked | katana_sdk/app/middleware.py:110-118 | With JSON read as JSON, a JSON object answer whose token is an object is logged with only that token's access and refresh masked. |
| Middleware.RequestLogger.ProcessRequest | katana_sdk/app/middleware.py:42-89 | Sets the start time and the `log_dict` its function gives, or none when it raises; smaple_django_setup/app/middleware.py holds the same text. |
| Middleware.RequestLogger.ProcessResponse | katana_sdk/app/middleware.py:91-127 | Without a log, nothing changes. Otherwise one row is saved, and `log_dict` and `start_time` are cleared. If masking raises, nothing is saved and the fields stay. |

## Left out

- Password hashing is not modelled. A password is stored and compared as the plain value, so `set_password`/`check_password` are equality.
- JWT minting and validation are inputs. `validate_token` and the blacklist acceptance of the refresh token are boolean parameters, and a JWT is verified or rejected by a `JwtOutcome` parameter. The simplejwt outstanding/blacklisted token tables are not modelled.
- The clock and `randint` are parameters. The drawn code satisfies `100000 <= n <= 999999`, and the expiry is a number.
- `start_new_thread` mail dispatch is modelled only as a mail appended to the mails table; SMTP and templates are not part of this model.
- Concurrency is not modelled. Two requests do not race, and an atomic block is all-or-nothing for one caller.
- An unexpected exception inside `change_password`'s save (the 500 answer) is not modelled, because the modelled writes cannot fail.
- The `Profile`, `OtpHistory` and `APILog` models are not part of this model; their fields are taken from how the views use them.
- `UserType` choices and the 30- and 255-character column limits are not enforced on writes. `SeededRoleNames` states which seeded names lie outside the choices.
- A failing database insert in `register_services` is the `insertError` parameter.
- The float, date, file, URL, address, dictionary-list and delivery-mode validators of `custom_validations/base.py` are not modelled.
- Python's `$` matching before a trailing newline is not modelled. The email, digit and alphanumeric patterns are read as whole-string matches.
- Validators.IsAlphanumeric: refuses a value ending in one newline under `without_spaces`, where `^(?=.*\d)[A-Za-z0-9]+$` lets Python's `$` match before that newline. So "abcdefg1\n" passes as a new password in the code (`custom_validations/auth.py:51`) but not in the model. With spaces allowed the two agree, since `\s` takes the newline.
- Pydantic's coercion of an integer field is modelled only for integers and digit strings.
- `validate_user_agent` is modelled, but none of the views in this model calls it. The user-agent parser is the `AgentParse` parameter.
- `request.user_id` holds the role id, as the code sets it; nothing in this model reads it.
- Middleware.DictConverter: reads a JSON text as JSON, the evaluated intent of the token masking (see Findings). A body that is not JSON under the JSON content type is taken as text that spells no Python literal.
- Middleware: bodies are JSON values, and a JSON text is represented by the value it encodes. The response time and the JSON key order on output are not recorded. `str.lower` is ASCII lower-casing.
- Text.Lower: lower-cases ASCII letters only; Python's Unicode case mapping is not modelled.
- AuthEndpoints.RequestOtp: reads `UserType.TECHNICIAN` as the role name "TECHNICIAN". `UserType` in `models/user_role.py` defines only ADMIN, CONTNET_MANAGER and NORMAL_USER, so in the code the attribute lookup at `auth.py:100` raises for every existing profile. The `except Exception` at `auth.py:137-142` turns that into 422 "Something went wrong."; the model instead lets NORMAL_USER and TECHNICIAN profiles request a code.
- AuthHelpers.CheckAdminAccountStatus: reads `UserType.MANAGER` as "MANAGER". Against the `UserType` in `models/user_role.py`, the lookup at `utils/auth.py:28` raises once the account is found and active, so no admin-status check passes in the code as written.
- Registry.AddUserRoles: reads `UserType.MANAGER`, `UserType.TECHNICIAN` and `UserType.FIELD_RELATIONSHIP_MANAGER` as the names they spell. In the code `add_user_roles.py:14` raises after ADMIN is created, and the command fails with only ADMIN seeded.
- Guard.ValidateUserAgent: reads `UserType.NURSE`, `UserType.OT_ADMIN` and `UserType.COURIER` as role names. In the code the lookup at `auth_backend.py:188` raises inside the `try`, and the `except` at `auth_backend.py:195-199` answers 403 for every request.
- Validators.RequiredField: blankness uses the whitespace of `Text.IsSpace` (ASCII and Latin-1 spaces). Python's `str.strip` also removes other Unicode spaces, so "\u2003" is blank in the code but not in the model.
- Validators.IsNumericOnly: `\d` and `\s` are read as ASCII digits and `Text.IsSpace`. Python's `re` matches Unicode digits and spaces, which the model refuses.
- Validators.ValidateEmail: `\w` is read as ASCII letters, digits and `_`. Python's `\w` is Unicode, so "josé@example.com" passes in the code but not in the model.
- Validators.RemoveSpaces: removes only the characters of `Text.IsSpace`. Python's `\s` also removes other Unicode whitespace.
- Validators.ValidateContactNumber: digits and whitespace are read as in `Text.IsDigit` and `Text.IsSpace`. Python's `\d` and `\s` also accept other Unicode digits and spaces.

## Findings

| source | as written | input that shows it | evidently intended | confidence | as-written member | corrected member |
|---|---|---|---|---|---|---|
| katana_sdk/app/middleware.py:11-16 | `dict_converter` evaluates a JSON response with `ast.literal_eval`, which fails on `true`, `false` and `null`. The body is then logged as `[text]`, `"token" in [text]` is false, and the tokens stay unmasked. The same text is in smaple_django_setup/app/middleware.py:11-16. | The answer of every successful `verify_otp`, e.g. `{"token": {"refresh": R, "access": A}, "message": "Login Successful.", "user_role": "NORMAL_USER", "is_first_time_password_changed": false}` | The response body is read as JSON, so lines 110-118 mask `token.access` and `token.refresh` with "******" before the log is saved. | high; not executed | Middleware.LoginTokensLeakAsWritten | Middleware.LoginTokensMasked |
