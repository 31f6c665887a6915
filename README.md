# Authentication layer of streamify-Backend, modelled in Dafny

This project models the decision logic of the backend's authentication layer: the four
controller handlers `signup`, `login`, `logout` and `onboard`, and the `protectRoute`
middleware that guards `/onboarding` and `/me`. The MongoDB user collection becomes a
`UserStore` object. It holds a map from ids to records, an email index and an id counter.
The handlers return the HTTP response they send: status, JSON body and cookie operation.
Token signing (`jwt.sign`), token verification (`jwt.verify`) and the password check
(`user.matchPassword`) are parameters of the handlers. The random avatar number is chosen
nondeterministically in 1..100.

Modules, leaf first:

- `Wrappers` (wrappers.dfy): `Option`.
- `Users` (users.dfy): user records, the update overlay of `findByIdAndUpdate`, and the
  store with `FindOne`, `FindById`, `Create` and `FindByIdAndUpdate`.
- `Http` (http.dfy): the environment (`NODE_ENV`), JavaScript falsiness of request fields,
  cookies and responses.
- `EmailFormat` (email_format.dfy): the signup email regular expression. It is stated as the
  language the regex denotes, and separately as a direct check whose contract says the two
  agree.
- `Avatars` (avatars.dfy): decimal rendering of the seed and the DiceBear avatar URL.
- `AuthController` (auth_controller.dfy): the four handlers and their specifications.
- `AuthMiddleware` (auth_middleware.dfy): `protectRoute`.
- `AuthFlows` (auth_flows.dfy): properties that span handlers. Signup followed by login,
  the session cookie opening the gate, and an admitted user never meeting the onboarding 404.

Behaviours of the code that the model keeps as written:

- Login with a missing email or password answers 400 "All fields are required"
  (controllers/auth.controller.js:72-74).
- The onboarding `missingFields` list includes `bio` whenever `bio` is absent or empty,
  even though `bio` does not trigger the 400 (controllers/auth.controller.js:133). A body
  carrying only `fullName` is told `[nativeLanguage, learningLanguage, location, bio]`.
- The 201 of signup, the 200 of login and the 200 of onboarding send the full stored record,
  `password` field included (controllers/auth.controller.js:60, 96, 157). Only `protectRoute`
  strips it (controllers/auth.middleware.js:25). Whether the schema's serialisation hides the
  field is decided in Database/model.js, which is not part of this model.
- The onboarding update spreads the whole request body, so it can overwrite `email`,
  `password` or `profilePic`, not only the profile fields.

Assumptions, because Database/model.js is not part of this model:

- The store has a unique index on `email`. A `create` or update that would duplicate an email
  fails. In onboarding that failure reaches the catch block and gives 500.
- Fields that signup does not set are absent, and `isOnboarded` starts false.
- Emails are compared exactly, as case-sensitive strings, both by `findOne({ email })` and by
  the unique index: there is no lower-casing or trimming.

## Model

| member | source | states |
|---|---|---|
| `Users.WithoutPassword` | controllers/auth.middleware.js:25 | the stripped user keeps every field of the record except the password |
| `Users.ApplyPatch` | controllers/auth.controller.js:138-142 | the update never changes the record's id |
| `Users.ApplyPatchIdempotent` | controllers/auth.controller.js:138-142 | applying the same update document twice gives the same record as applying it once |
| `Users.FindByEmail` | controllers/auth.controller.js:23 | `findOne({ email })` finds a record iff some stored record has that email, and what it finds has that email and is stored |
| `Users.FindByEmailIsOwner` | controllers/auth.controller.js:76 | with unique emails, the lookup by a stored record's email returns exactly that record |
| `Users.InsertKeepsEmailsUnique` | controllers/auth.controller.js:23-36 | adding a record whose email is not taken keeps emails unique, so the duplicate check of signup keeps the store free of duplicates |
| `Users.IndexedEmailsUnique` | controllers/auth.controller.js:23-26 | a consistent email index implies no two records share an email |
| `Users.UpdateById` | controllers/auth.controller.js:138-144 | the update reports a missing id exactly when the id is not stored, a duplicate key exactly when the id is stored and the overlaid record's email belongs to another record, and a successful update yields the stored record overlaid with the document |
| `Users.UserStore.FindOne` | controllers/auth.controller.js:23 | the index lookup returns the same record as the search over all records |
| `Users.UserStore.FindById` | controllers/auth.middleware.js:25 | finds a record iff the id is stored, and returns the record filed under that id |
| `Users.UserStore.Create` | controllers/auth.controller.js:31-36 | fails and changes nothing iff the email is taken; otherwise adds exactly one record, under a fresh id, with the given fields, and keeps the store consistent |
| `Users.UserStore.FindByIdAndUpdate` | controllers/auth.controller.js:138-142 | changes only the record of that id, to the overlaid record, and leaves the store untouched on a missing id or a duplicate email |
| `EmailFormat.FirstIndex` | controllers/auth.controller.js:18 | returns the first position holding the character, or none when the character does not occur |
| `EmailFormat.LastIndex` | controllers/auth.controller.js:18 | returns the last position holding the character, or none when the character does not occur |
| `EmailFormat.IsValidEmail` | controllers/auth.controller.js:18-21 | the email check accepts a string iff it splits as a non-empty local part over `[A-Za-z0-9._%+-]`, `@`, a non-empty domain over `[A-Za-z0-9.-]`, `.` and at least two ASCII letters |
| `EmailFormat.SplitPointsAreFirstAndLast` | controllers/auth.controller.js:18 | in any split the regex finds, the `@` is the first `@` of the string and the `.` is its last `.` |
| `EmailFormat.ValidEmailHasOneAt` | controllers/auth.controller.js:18 | an accepted email contains exactly one `@` |
| `EmailFormat.ValidEmailTopLevel` | controllers/auth.controller.js:18 | an accepted email ends in a `.` followed only by two or more ASCII letters |
| `Avatars.NatToString` | controllers/auth.controller.js:29 | the decimal rendering of the seed is a non-empty string of digits |
| `Avatars.DigitChar` | controllers/auth.controller.js:29 | a digit value renders as the digit character of that value |
| `Avatars.ParseNatToString` | controllers/auth.controller.js:29 | reading the decimal rendering back gives the number |
| `Avatars.AvatarUrl` | controllers/auth.controller.js:28-29 | the avatar URL is the DiceBear base ending in `seed=user` followed by a non-empty run of digits; `SeedOfAvatarUrl` and `AvatarUrlInjective` state that the seed is recoverable |
| `Avatars.SeedOfAvatarUrl` | controllers/auth.controller.js:28-29 | the seed can be read back from the avatar URL |
| `Avatars.AvatarUrlInjective` | controllers/auth.controller.js:28-29 | distinct seeds give distinct avatar URLs |
| `AuthController.SessionCookieOptions` | controllers/auth.controller.js:53-58 | the session cookie has maxAge 604800000 ms (seven days) and is HTTP-only; it is `SameSite=None` and `Secure` exactly in production and `Lax` otherwise, so a cross-site cookie is always secure |
| `AuthController.ClearCookieOptions` | controllers/auth.controller.js:106-110 | the logout clear uses the attributes of the session cookie, without the lifetime |
| `AuthController.SignupGuard` | controllers/auth.controller.js:10-26 | a rejection carries one of the four guard messages; no rejection means all three fields are present, the password has at least 6 characters, the email matches the regex and no record has it (`SignupGuardOrder` states the full order) |
| `AuthController.SignupGuardOrder` | controllers/auth.controller.js:10-26 | signup's guards fire in order: missing field, then password shorter than 6, then email not matching the regex, then email taken; each fires iff all earlier ones passed and its own condition holds |
| `AuthController.Signup` | controllers/auth.controller.js:6-65 | a failed guard gives 400 with that guard's message and an unchanged store; otherwise adds exactly one record under a fresh id, with the given name, email and password and an avatar with seed 1..100, replies 201 with it, and sets the session cookie for its id |
| `AuthController.Login` | controllers/auth.controller.js:68-101 | the response is the login specification evaluated on the store |
| `AuthController.LoginOutcomes` | controllers/auth.controller.js:72-96 | a missing field gives 400; it gives 200 iff a stored record has the email and the password check passes, and then it sends a record that has the request's email and passes the password check, with that record's session cookie; every other complete request gets the same 401 |
| `AuthController.LoginFailuresIndistinguishable` | controllers/auth.controller.js:76-84 | an unknown email and a known email with a wrong password get the identical 401 response |
| `AuthController.Logout` | controllers/auth.controller.js:104-111 | replies 200 "Logged out successfully" and clears `jwt` with the httpOnly, sameSite and secure values used when setting it |
| `AuthController.Truthy` | controllers/auth.controller.js:134 | `filter(Boolean)` never lengthens the list |
| `AuthController.MissingFieldList` | controllers/auth.controller.js:128-134 | `missingFields` holds at most the five onboarding names; `MissingFieldListExact` states which names and in what order |
| `AuthController.TruthyMembers` | controllers/auth.controller.js:134 | `filter(Boolean)` keeps exactly the non-empty names among the flags |
| `AuthController.TruthyAppend` | controllers/auth.controller.js:134 | filtering a concatenation is the concatenation of the filtered parts |
| `AuthController.TruthyFlag` | controllers/auth.controller.js:129-133 | one flag filters to its field name when the field is falsy, or to nothing |
| `AuthController.FieldRanks` | controllers/auth.controller.js:129-133 | the five onboarding field names are distinct and ranked in source order |
| `AuthController.MissingFieldListSpelled` | controllers/auth.controller.js:128-134 | `missingFields` is, in source order, each of the five names whose field is falsy |
| `AuthController.MissingFieldListExact` | controllers/auth.controller.js:124-135 | a name is in `missingFields` iff it is one of fullName, nativeLanguage, learningLanguage, location, bio and its field is absent or empty; the names appear in that order, each at most once |
| `AuthController.MissingFieldsWithOnlyFullName` | controllers/auth.controller.js:124-135 | a body carrying only `fullName` gets `missingFields` = nativeLanguage, learningLanguage, location, bio |
| `AuthController.IncompleteOnboardNamesAField` | controllers/auth.controller.js:124-135 | the onboarding 400 always lists at least one missing field |
| `AuthController.OnboardPatchForcesFlag` | controllers/auth.controller.js:140 | the update `{ ...body, isOnboarded: true }` gives the record overlaid with the body and then `isOnboarded` true, whatever the body sent |
| `AuthController.Onboard` | controllers/auth.controller.js:119-162 | the response and the new store are those of the onboarding specification on the old store |
| `AuthController.OnboardOutcomes` | controllers/auth.controller.js:124-157 | 400 iff one of the four required fields is missing; 404 iff they are present and the id is not stored; 500 iff they are present, the id is stored and the overlaid record's email belongs to another record; 200 iff they are present, the id is stored and the email clashes with no other record; the store is unchanged on every non-200 reply; on 200 only the caller's record changes, to the old record overlaid with the body and `isOnboarded` true, and the reply carries it |
| `AuthController.OnboardIdempotent` | controllers/auth.controller.js:138-157 | resending a body that succeeded gives the same response and leaves the store as it was |
| `AuthMiddleware.ProtectRoute` | controllers/auth.middleware.js:4-42 | the outcome is the gate specification on the request's cookies and the store; on admit `req.user` is the admitted user, on deny `req.user` is unchanged |
| `AuthMiddleware.GateOutcomes` | controllers/auth.middleware.js:6-35 | exactly one of: 401 "Unauthorized - No token provided" iff the cookie is missing or empty; 401 "Invalid Token" iff the verifier rejects the token; 401 "Unauthorized - User not found" iff the decoded id is not stored; otherwise admission of the record with that id, password stripped |
| `AuthMiddleware.GateRejectsBeforeLookup` | controllers/auth.middleware.js:14-25 | without a token, or with a rejected token, the outcome does not depend on the store |
| `AuthFlows.SignupThenLogin` | controllers/auth.controller.js:76-96 | after a successful signup, login with that email succeeds iff the password check accepts the candidate for the stored secret, and otherwise gets the uniform 401 |
| `AuthFlows.SessionCookieAdmits` | controllers/auth.middleware.js:6-35 | the cookie set after signup or login opens the gate for that user, when the verifier accepts what the signer issued |
| `AuthFlows.AdmittedUserCanOnboard` | controllers/auth.controller.js:138-144 | a request the gate admits belongs to a stored record, so a complete onboarding body never meets the 404: it gets 200 iff the new email belongs to no other record, and 500 otherwise |

## Left out

- `jwt.sign` and `jwt.verify` internals (HMAC, the 7-day expiry inside the token): they are the
  parameters `sign` and `verify`; a verify failure of any kind is `None`.
- Password hashing and `matchPassword`: Database/model.js is not part of this model; the check
  is the parameter `matches`, and the store keeps whatever secret `create` receives.
- `upsertStreamUser` (Database/Stream.js): it catches its own errors (Database/Stream.js:22-24),
  so it affects neither the store nor the response; the external chat mirror is not modelled.
- The 500 replies that come from unexpected exceptions (a failing database, a throwing
  `matchPassword`, the catch blocks of every handler and of `protectRoute`) are not modelled.
  The one modelled 500 is the duplicate-email update in onboarding.
- `Onboard` takes the id of the authenticated user as a parameter. The request without
  `req.user` (a TypeError, so 500) cannot arise behind `protectRoute`.
- Request bodies are modelled as string fields that may be absent. JSON `null`, numbers, arrays
  and an `_id` key in the onboarding body are not modelled.
- `Signup`: the password length guard (controllers/auth.controller.js:14) counts Unicode scalar
  values in the model (`|password|`), while JavaScript's `.length` counts UTF-16 code units, so
  the two differ for characters outside the Basic Multilingual Plane. For example, a password
  of three such characters has `.length` 6 and passes the source's guard, but has length 3 in
  the model and is rejected there.
- The race between `findOne` and `create` in signup: requests are sequential in the model.
- `Routes/auth.route.js`: route wiring only. The `/onboarding` and `/me` routes run behind
  `protectRoute`, which `AdmittedUserCanOnboard` relates to onboarding.
- `Database/db.js`, `Server.js`: connection setup, CORS, cookie parsing and the port.
- Console logging.
