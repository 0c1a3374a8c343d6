# planit authentication core in Dafny

This project models the authentication subsystem of the planit backend in three parts.

- **Session lifecycle.** The auth controller handlers are modelled as pure transitions over two maps: the users (keyed by id) and the refresh-token records (keyed by token, each holding its owner and a revoked flag). The handlers are signup, login, refresh, logout, logout from all devices, profile read and update, and password change. Each handler returns a `Step`: a `Result` (the value, or a `Conflict` / `AuthenticationError` / `NotFound` error) together with the next state.
- **Role and ownership guards.** `requireRole` with its one-level `.flat()`, the shorthand guards and `requireOwnerOrAdmin` are modelled as pure decisions. Each one returns `Allow`, `Unauthenticated` (401) or `Forbidden` (403).
- **Request validation.** The model covers the password policy, the trimmed full-name bounds, the optional role membership check and the non-empty rules. It also covers the six validation chains built from these rules and the `validate` middleware, which maps errors to a 400 response.

Modules:

- `Wrappers`: `Option` and `Result`.
- `Js`: JavaScript truthiness, `||` and strict equality.
- `Roles`: the role constants.
- `RoleCheck`: the guards.
- `Validators`: the validation rules.
- `TokenStore`: the refresh-token records.
- `AuthController`: the handlers.
- `AuthProperties`: properties that span several handler calls.
- `Walkthrough`: one concrete run of signup, login, rotation and replay.

The collaborators whose code is not part of this model appear as parameters:

- password hashing is a `Hasher`, a pair of functions `hash` and `verify`;
- refresh-token verification is a function `decode: Token -> Option<UserId>`;
- `generateTokens` is represented by the `TokenPair` it produced. The handler requires that this pair's refresh token is not yet in the store;
- the id the user store assigns is a `newId` parameter, and the creation time is a `now` parameter;
- the library checks `isEmail`, `isURL` and the phone-number pattern are the predicates of a `Validators.Library`.

Every handler requires the store invariant `Wf` and ensures it again for the next state. `Wf` says that:

- users are stored under their own id;
- e-mails are unique;
- every token record belongs to a registered user.

The empty store satisfies `Wf`.

Notes on what the code does:

- **Deactivated login message.** A deactivated account gets its own message ("Account is deactivated…"). Only an unknown e-mail and a wrong password share "Invalid email or password".
- **Non-atomic rotation.** Rotation is two separate store calls, revoke then store, with no atomicity. The model treats each handler as one sequential step and claims nothing about concurrent refreshes.
- **Owner guard.** The guard grants access to the owner or to `admin` only; there is no list of privileged roles. `requireRole` accepts any mix of names and arrays. Arrays nested two levels deep are not spliced by `.flat()`, so their names never match (`RoleCheck.NestedTwiceNeverMatches`).
- **Refresh uses the decoded id.** Refresh looks up the user by the id decoded from the token, not by the owner stored in the token's record.
- **Logout does not check ownership.** Logout revokes the presented token whoever owns it.
- **Password change ignores the active flag.** Password change does not check that the account is active.

## Model

| member | source | states |
|---|---|---|
| AuthController.FindByEmail | src/controllers/authController.js:60-63 | the lookup finds a user exactly when one is registered with the e-mail, and the user it returns has that e-mail |
| AuthController.RoleOrDefault | src/controllers/authController.js:24 | a new user gets the supplied role when it is truthy, and planner when it is absent or empty |
| AuthProperties.ValidatedRoleIsStored | src/utils/validators.js:22-25 | a role that passed the signup role rule is kept as supplied, and whether supplied or defaulted it is one of the role values |
| AuthProperties.ValidatedSignupStoresARole | src/controllers/authController.js:20-26 | a successful signup whose role passed validation stores a user whose role is one of the role values |
| AuthController.Signup | src/controllers/authController.js:10-49 | fails with Conflict and leaves the state unchanged exactly when the e-mail is taken; otherwise it adds one active user with the given fields, the hashed password and the supplied or default role, returns that user's profile with the token pair, and stores one new valid refresh record owned by the new user while every existing user and record stays the same; the invariant is kept |
| AuthController.Login | src/controllers/authController.js:56-97 | succeeds exactly when an active user with the e-mail verifies the password; every failure is an AuthenticationError that stores nothing; the deactivated message is returned exactly when the account is deactivated, and otherwise the shared invalid-credentials message; on success the users are unchanged and one new valid record is stored for that user |
| AuthController.Refresh | src/controllers/authController.js:104-137 | succeeds exactly when the token decodes, its record is valid, and the decoded user exists and is active; failures are AuthenticationErrors that change nothing, with the invalid-token message exactly for decode or store failures; on success the presented record is revoked (owner kept), a new valid record is stored for the decoded user, and nothing else changes |
| AuthController.Logout | src/controllers/authController.js:144-155 | always succeeds; with no truthy token the state is unchanged; otherwise that token is invalid afterwards and every other record is untouched |
| AuthController.LogoutAll | src/controllers/authController.js:162-169 | always succeeds; every record owned by the caller becomes invalid and every other user's record is unchanged |
| AuthController.GetProfile | src/controllers/authController.js:176-195 | reads only; returns NotFound exactly when the caller's record is missing, otherwise the profile fields, the email-verified flag and the creation time of that record |
| AuthController.UpdateProfile | src/controllers/authController.js:202-222 | returns NotFound, with nothing changed, exactly when the caller is missing; otherwise only fullName and phoneNumber change, each only when the supplied value is truthy; other users and all token records are untouched, and the returned profile is the updated record's |
| AuthController.ChangePassword | src/controllers/authController.js:229-251 | a wrong current password gives an AuthenticationError and changes nothing; otherwise the caller's credential becomes the hash of the new password, nothing else about any user changes, every caller record is revoked and no other user's record changes |
| AuthProperties.SecondSignupConflicts | src/controllers/authController.js:14-17 | after a successful signup, a second signup with the same e-mail fails with Conflict and leaves the state unchanged |
| AuthProperties.SignupThenLogin | src/controllers/authController.js:60-80 | a freshly signed-up user logs in with the same password when the hasher verifies its own hashes |
| AuthProperties.RotationInvalidatesPresented | src/controllers/authController.js:111-127 | after a rotation, replaying the old token fails with the invalid-token error, the new token is valid, and the new token can itself be exchanged when it decodes to the same user |
| AuthProperties.LogoutAllEndsSessions | src/controllers/authController.js:162-163 | after logout-all, refreshing with any record the caller owned fails with the invalid-token error |
| AuthProperties.ChangePasswordEndsSessions | src/controllers/authController.js:236-245 | after a password change, no record of the caller can be exchanged; the new password logs in and the old one, which logged in before, no longer does |
| TokenStore.Put | src/controllers/authController.js:32 | storing adds one valid record for the owner and leaves every other record as it was |
| TokenStore.Revoke | src/controllers/authController.js:148 | revocation makes the token invalid, keeps its owner, and leaves the key set and every other record unchanged; an unknown token changes nothing |
| TokenStore.RevokeIdempotent | src/controllers/authController.js:126 | revoking a token twice is the same as revoking it once |
| TokenStore.OwnedBy | src/controllers/authController.js:163 | the tokens selected for revocation one by one are exactly the records bulk revocation invalidates, with owners kept; every record outside the selection is left as it was by bulk revocation |
| TokenStore.RevokeAll | src/controllers/authController.js:245 | bulk revocation invalidates every record of the user, keeps owners and keys, and leaves other users' records as they were |
| TokenStore.RevokeEach | src/controllers/authController.js:163 | revoking the user's records one at a time ends in the same store as the bulk revocation |
| TokenStore.RevokeAllIdempotent | src/controllers/authController.js:245 | bulk revocation twice is bulk revocation once |
| RoleCheck.Flat | src/middleware/roleCheck.js:19 | an element is in the flattened list exactly when it is a name argument or an item of an array argument |
| RoleCheck.FlatAppend | src/middleware/roleCheck.js:19 | flattening distributes over concatenation of the argument list |
| RoleCheck.RequireRole | src/middleware/roleCheck.js:7-30 | 401 exactly when there is no user; otherwise allow exactly when the user's role is a name argument or an item of an array argument, and 403 otherwise |
| RoleCheck.SpreadAndArrayAgree | src/middleware/roleCheck.js:5-19 | passing role names as separate arguments or as one array gives the same decision for every request |
| RoleCheck.NestedTwiceNeverMatches | src/middleware/roleCheck.js:18-21 | a role inside an array nested two levels deep is not matched |
| RoleCheck.RequireAdmin | src/middleware/roleCheck.js:35 | 401 exactly without a user; allows exactly the admin role |
| RoleCheck.RequirePlanner | src/middleware/roleCheck.js:37 | 401 exactly without a user; allows exactly the planner role |
| RoleCheck.RequireVendor | src/middleware/roleCheck.js:39 | 401 exactly without a user; allows exactly the vendor role |
| RoleCheck.RequirePlannerOrAdmin | src/middleware/roleCheck.js:41 | 401 exactly without a user; allows exactly the roles planner and admin |
| RoleCheck.RequireVendorOrPlanner | src/middleware/roleCheck.js:43 | 401 exactly without a user; allows exactly the roles vendor and planner |
| Js.Or | src/middleware/roleCheck.js:58 | `a || b` is the left operand when it is truthy and the right one otherwise, and it is truthy exactly when either operand is |
| RoleCheck.RequestedUserId | src/middleware/roleCheck.js:58 | the requested id is the route parameter when it is present and non-empty, and otherwise the body property, which may be undefined |
| RoleCheck.RequireOwnerOrAdmin | src/middleware/roleCheck.js:49-71 | 401 exactly without a user; otherwise allow exactly when the requested id is the caller's id as a string, or the caller is admin; 403 otherwise |
| RoleCheck.AdminPassesOwnership | src/middleware/roleCheck.js:60-63 | an admin passes the ownership guard for any requested id, including none |
| RoleCheck.OwnerPassesByDefaultParam | src/middleware/roleCheck.js:49-62 | with the default parameter name `userId`, a caller whose own non-empty id is that route parameter is allowed whatever its role and whatever the body holds |
| RoleCheck.NonAdminNeedsAnId | src/middleware/roleCheck.js:58-69 | a non-admin is refused when neither the parameters nor the body name an id |
| Validators.Lookahead | src/utils/validators.js:14 | a lookahead for a character class succeeds exactly when such a character occurs before the first line terminator |
| Validators.MatchesStrengthPattern | src/utils/validators.js:14 | the pattern matches exactly when a lower-case letter, an upper-case letter and a digit each occur before the first line terminator |
| Validators.OnlyFirstLineCounts | src/utils/validators.js:14 | text after the first line terminator neither helps nor hurts the pattern |
| Validators.PasswordMessages | src/utils/validators.js:11-15 | no message exactly for a strong password; the length message appears exactly when the password is shorter than 8 characters and the pattern message exactly when a lower-case letter, an upper-case letter or a digit is missing from the first line; no other message and no message twice, with the length message first |
| Validators.PasswordRule | src/utils/validators.js:11-15 | no error exactly for a strong password; every error is reported against the rule's field |
| Validators.LeadingSpaces | src/utils/validators.js:18 | counts the white space at the start of a string: everything before the count is white space and the next character is not |
| Validators.WithoutTrailingSpaces | src/utils/validators.js:18 | the length of a string without its trailing white space: everything after it is white space and the character before it is not |
| Validators.Trim | src/utils/validators.js:18 | the result is a contiguous part of the input, everything cut off is white space, and the result neither starts nor ends with white space |
| Validators.CutIsUnique | src/utils/validators.js:18 | a string has only one slice that neither starts nor ends with white space and has only white space around it |
| Validators.TrimIsTheCut | src/utils/validators.js:18 | any such slice is what trimming returns, so the trimmed value is fully determined by the two properties of Validators.Trim |
| Validators.TrimOfTrimmed | src/utils/validators.js:18 | a value that neither starts nor ends with white space is left unchanged by trimming |
| Validators.TrimIdempotent | src/utils/validators.js:18 | trimming twice is trimming once |
| Validators.TrimIgnoresPadding | src/utils/validators.js:18 | white space added on either side does not change the trimmed value |
| Validators.FullNameRule | src/utils/validators.js:17-20 | a full name is accepted exactly when its trimmed length is between 2 and 100 |
| Validators.FullNameIgnoresPadding | src/utils/validators.js:17-20 | surrounding white space never changes whether a full name is accepted |
| Validators.RoleRule | src/utils/validators.js:22-25 | a role is accepted exactly when it is absent or is admin, planner or vendor |
| Validators.Required | src/utils/validators.js:6-9 | a required field (the e-mail) is accepted exactly when its text, the empty string if absent, passes the check, and otherwise yields exactly one error at its path |
| Validators.Optional | src/utils/validators.js:27-35 | an optional field is accepted exactly when it is absent or passes its check |
| Validators.NonEmptyRule | src/utils/validators.js:45-47 | a required field is accepted exactly when it is present and non-empty, with no other requirement |
| Validators.SignupErrors | src/utils/validators.js:5-36 | no error exactly when the e-mail check passes, the password is strong, the trimmed name has 2 to 100 characters, and the role, phone and picture are each absent or valid |
| Validators.LoginErrors | src/utils/validators.js:39-48 | no error exactly when the e-mail check passes and the password is non-empty; no strength rule applies |
| Validators.ResetRequestErrors | src/utils/validators.js:51-56 | no error exactly when the e-mail check passes |
| Validators.ResetPasswordErrors | src/utils/validators.js:59-69 | no error exactly when the reset token is non-empty and the new password is strong |
| Validators.ChangePasswordErrors | src/utils/validators.js:72-82 | no error exactly when the current password is non-empty and the new password is strong |
| Validators.RefreshTokenErrors | src/utils/validators.js:85-89 | no error exactly when the refresh token is non-empty |
| Validators.SignupPasswordMessages | src/utils/validators.js:11-15 | the signup chain's messages for `password` are exactly the password-rule messages |
| Validators.ResetNewPasswordMessages | src/utils/validators.js:64-68 | the reset chain's messages for `newPassword` are exactly the password-rule messages |
| Validators.ChangeNewPasswordMessages | src/utils/validators.js:77-81 | the change chain's messages for `newPassword` are exactly the password-rule messages |
| Validators.NewPasswordRuleIsSignupRule | src/utils/validators.js:59-82 | the reset and change chains report the same new-password messages as signup reports for the same password |
| Validators.Validate | src/utils/validators.js:92-106 | next is called exactly when there are no errors; otherwise a 400 with one entry per error in the same order, with field from the path and message from the msg |
| Validators.ValidateRoundTrip | src/utils/validators.js:92-106 | the error list can be read back from the response unchanged |
| Walkthrough.SignupBodyAccepted | src/utils/validators.js:5-36 | the sample signup body (a@x.com, Abcd1234, "A B") passes every signup rule |
| Walkthrough.SignupStep | src/controllers/authController.js:10-49 | the sample signup creates the user with the planner role and stores its refresh token |
| Walkthrough.WrongPasswordStep | src/controllers/authController.js:70-74 | a wrong password is refused with the shared message and stores nothing |
| Walkthrough.LoginStep | src/controllers/authController.js:56-97 | the right password logs in and stores a second refresh token |
| Walkthrough.RotateStep | src/controllers/authController.js:104-137 | the signup's refresh token is exchanged, then revoked, and the new one is stored |
| Walkthrough.ReplayStep | src/controllers/authController.js:111-114 | replaying the token that was rotated away is refused and changes nothing |

## Left out

- **Token codec.** TokenManager is not part of this model. This covers JWT signing and verification, secrets, token formats, randomness and expiry clocks. A record is valid when it is present and not revoked; expiry is not modelled. The fresh token pair and the decode function are parameters. When verification fails, the model raises an AuthenticationError with the invalid-token message; the exact error class is TokenManager's.
- **User model.** The User model is not part of this model. This covers `create`, `findByEmail`, `findById`, `update`, `verifyPassword` and `updatePassword`.
  - E-mails are compared as given, because normalisation happens before the lookup.
  - A created user is assumed active, not e-mail-verified, and created at `now`.
  - If the caller's record is missing, `updateProfile` is modelled as NotFound.
- **Role values.** The values of ROLES are taken to be "admin", "planner" and "vendor". Their definition is not part of this model.
- **Password change precondition.** AuthController.ChangePassword requires the caller's record to exist. The handler reads `user.password` without checking for null, so the model does not invent an error for that case.
- **Profile picture.** The signup handler never stores `profilePicture`, so the model's `SignupRequest` has no such field.
- **Library validators.** These express-validator behaviours are the predicates of a `Library` or plain sequence operations:
  - `isEmail`, `normalizeEmail` and `isURL`;
  - the phone-number pattern;
  - the way `isLength` counts surrogate pairs and variation selectors (the model uses the sequence length);
  - the string coercion of non-string field values.
  - The model assumes the `trim` sanitizer strips the JavaScript `\s` set.
- **Error messages.** Validators.RoleRule: the role message text is built from the assumed role values and is not checked against the real ones.
- **JavaScript numbers.** Js values model numbers as integers (no NaN, no fractions). Every object or array is one truthy value that never equals a string.
- **Responses.** HTTP status codes and JSON bodies of the handlers are not modelled, beyond the error class, the message and which profile fields are returned. The guards' 403 message texts are also left out.
- **Concurrency.** Asynchronous ordering, concurrency and store failures are not modelled. This includes timeouts, partial bulk revocation and the race between two refreshes of one token. Each handler is one sequential step.
- **Body field types of unvalidated routes.** The logout and profile-update routes have no validation chain, and the signup chain checks the phone number only after string coercion, so these fields could carry any JSON value. The model gives them optional strings:
- AuthController.Logout: a truthy non-string refresh token would be passed on to the revocation call, whose handling of it belongs to TokenManager, which is not part of this model.
- AuthController.UpdateProfile: a truthy number, boolean or object given as fullName or phoneNumber would be stored as it is; the model's user record holds strings only.
- AuthController.Signup: a numeric phone number that passes the phone pattern after string coercion would be stored as a number; the model stores strings only.
- **Wiring.** The authentication middleware that sets `req.user`, the route wiring, Firebase initialisation and the server process lifecycle are not part of this model. The caller's identity is an explicit parameter.
