# Kilimo App — a Dafny model of its authentication, OTP and form core

Kilimo is a farm-support app built from two parts:

- a Node/Express back end with Prisma and PostgreSQL. It registers users, logs them in, and issues one-time passcodes (OTPs) by e-mail for account verification and password reset. It also accepts contact-form submissions.
- a React Native client. It keeps the session's tokens in the device store and refreshes an expired access token behind the scenes. It also drives the six-slot OTP entry screen.

This project models the core of both sides in Dafny and proves properties of that model.

The modules, one per source file or utility:

| module | models |
|---|---|
| `Common` | `Option`, `Result`, JavaScript truthiness of an optional string |
| `JsText` | the string built-ins the code uses (`toLowerCase`, `indexOf`, `split(...)[1]`, `trim`, `replace(/\D/g, "")`), ASCII only |
| `Patterns` | the regular expressions: the e-mail pattern, the Kenyan phone pattern, six digits |
| `Validation` | the app's `validation.ts` |
| `Formatters` | the app's `formatters.ts` |
| `ErrorHandler` | the app's `errorHandler.ts`, with a thrown JavaScript value as a datatype |
| `Crypto` | bcrypt as an injective digest |
| `OtpService` | the server's `otpService.js`: a table of OTP records, on values and as a class |
| `Mail` | the outbox that `sendOTPEmail` writes to |
| `Users` | the user table |
| `AuthService` | the server's `authService.js` |
| `PasswordReset` | the server's `passwordResetService.js` and `passwordResetController.js` |
| `OtpController` | the server's `otpController.js` |
| `FormController` | the server's `formController.js` |
| `Schemas` | the server's zod schemas and the `validate` middleware |
| `AuthMiddleware` | the server's `protect` middleware |
| `Storage` | the app's `storage.ts`: a class over a map from key to string |
| `ApiClient` | the app's `apiClient.ts`: the token-refresh coordinator, as pure steps and as a class |
| `ClientAuth` | the app's `authService.ts` |
| `OtpScreen` | `OTPVerificationScreen.tsx`: the slot array, the countdown and the time display |

How the outside world is modelled:

- Anything the code gets from outside is a parameter. That covers the clock (milliseconds), the generated OTP, the JWT signer and verifier, the new record's id, zod's e-mail test, the server's reply, and whether a store read fails.
- bcrypt is the injective function `Crypto.Hash`. `Crypto.Compare(p, d)` holds exactly when `d == Hash(p)`.
- The OTP table's `createdAt` order is its insertion order.
- The back end's "find the newest unused record" is `FindActive`. It picks the last matching position.

Consequences of the code that the model makes explicit:

- The "Maximum OTP attempts exceeded" branch (`otpService.js:90-96`) is dead. The third wrong code already marks the record used (`otpService.js:101-111`), so a fourth call finds no active record and answers "Invalid or expired OTP". `OtpService.ThreeWrongCodesExhaust` proves this sequence, and `OtpService.AttemptsExceededUnreachable` proves that the branch is never taken from any well-formed table.
- Both tokens live in the plain async store (`storage.ts:12-22`); nothing is kept in a secure store.
- `_retry` is set only on the request that starts a refresh (`apiClient.ts:76`). Requests queued during the refresh are replayed with the new header but without the flag (`ApiClient.BurstSharesOneRefresh`).
- `verifyOTP` reads the record (`otpService.js:66-73`) and updates it later (`otpService.js:83-118`) in separate queries. The model runs each call as one step (see Left out).

## Model

| member | source | states |
|---|---|---|
| OtpService.ExpireMinutes | kilimo-backend/src/services/otpService.js:33 | the expiry window is the configured number of minutes, or 2 when that is missing, not a number or zero; never zero |
| OtpService.Invalidate | kilimo-backend/src/services/otpService.js:17-24 | every unused record of the user and type becomes used; every other field and every other record is unchanged |
| OtpService.Create | kilimo-backend/src/services/otpService.js:14-54 | the old challenges of that user and type are invalidated; one new record is appended holding the hashed code, zero attempts, a maximum of 3, unused, expiring `minutes` after now; older records only evolve |
| OtpService.FindActive | kilimo-backend/src/services/otpService.js:66-73 | returns the newest unused record of the user and type, or none exists |
| OtpService.Verify | kilimo-backend/src/services/otpService.js:63-123 | in source order: no active record gives "Invalid or expired OTP"; past expiry the record is marked used and "OTP has expired" is returned; a live record at or over its limit is marked used and answers "Maximum OTP attempts exceeded"; a live record under its limit and a wrong code raises the attempts, marks the record used at the third, and answers "Invalid OTP code"; success holds exactly when the record is live, under the limit and the code matches, and it consumes the record; only the found record changes |
| OtpService.UniqueActive | kilimo-backend/src/services/otpService.js:17-24 | in a well-formed table at most one unused record exists per user and type, and it is the one found |
| OtpService.CreateValid | kilimo-backend/src/services/otpService.js:14-54 | creating a challenge keeps the table well formed (ids are positions, exhausted records are used, one active challenge per user and type) |
| OtpService.CreateLeavesOnlyNew | kilimo-backend/src/services/otpService.js:17-24 | after creation, the new record is the only active one of that user and type, and records of other users or types are untouched |
| OtpService.VerifyValid | kilimo-backend/src/services/otpService.js:63-123 | verification keeps the table well formed |
| OtpService.AttemptsExceededUnreachable | kilimo-backend/src/services/otpService.js:90-96 | in a well-formed table the attempts-exceeded branch is never reached |
| OtpService.ConsumedMeansNotFound | kilimo-backend/src/services/otpService.js:114-119 | once a verification has marked the record used, a further verification with any code answers "not found" |
| OtpService.SuccessIsSingleUse | kilimo-backend/src/services/otpService.js:114-119 | a code that verified once never verifies again |
| OtpService.WrongCodeKeepsChallenge | kilimo-backend/src/services/otpService.js:101-111 | a wrong code that leaves the record unused keeps it the active challenge, with one more attempt recorded |
| OtpService.ThreeWrongCodesExhaust | kilimo-backend/src/services/otpService.js:101-111 | three wrong codes in the window each answer "Invalid OTP code", and then even the right code answers "not found" |
| OtpService.SuccessMeansCodeMatches | kilimo-backend/src/services/otpService.js:99 | success implies that an active record of the user and type holds the hash of the submitted code |
| OtpService.OtpTable.constructor | kilimo-backend/src/services/otpService.js:6 | an empty table with the configured expiry |
| OtpService.OtpTable.CreateOtp | kilimo-backend/src/services/otpService.js:14-54 | the table becomes `Create` of the old table; the new record and the plain code are returned; well-formedness is kept |
| OtpService.OtpTable.VerifyOtp | kilimo-backend/src/services/otpService.js:63-123 | the table and the result are those of `Verify`; well-formedness is kept |
| Mail.Outbox.SendOtpEmail | kilimo-backend/src/services/emailService.js:20-121 | exactly one mail to the address with the code is appended, and success is reported |
| Users.FindByEmail | kilimo-backend/src/services/authService.js:15-17 | a found index holds that e-mail; none found means no user has it |
| Users.FindById | kilimo-backend/src/services/authService.js:83-84 | a found index holds that id; none found means no user has it |
| Users.FindUnique | kilimo-backend/src/services/authService.js:15-17 | in a well-formed table, looking up a user's own e-mail or id finds that user |
| AuthService.RegisterUser | kilimo-backend/src/services/authService.js:12-41 | an e-mail taken in any letter case gives "User with this email already exists" and changes nothing; otherwise one unverified user is appended with the lower-cased e-mail and the bcrypt digest, and the table stays well formed |
| AuthService.RegistrationIgnoresCase | kilimo-backend/src/services/authService.js:15-17 | once an address is registered, a second registration in another letter case is refused |
| AuthService.LoginUser | kilimo-backend/src/services/authService.js:46-64 | both failures give the one message "Invalid credentials"; success returns a stored user with the lower-cased e-mail whose digest matches the password |
| AuthService.LoginUserSucceedsIff | kilimo-backend/src/services/authService.js:46-64 | login succeeds exactly when some user has the lower-cased e-mail and the password's digest |
| AuthService.RegisterThenLogin | kilimo-backend/src/services/authService.js:12-64 | after registering, a login with the same password and the e-mail in any letter case succeeds |
| AuthService.SendOtp | kilimo-backend/src/services/authService.js:69-77 | a verification challenge is created and its plain code is mailed to the user |
| AuthService.GetUserById | kilimo-backend/src/services/authService.js:82-97 | "User not found" exactly when no user has the id; otherwise the user's public fields, without the password |
| PasswordReset.RequestPasswordReset | kilimo-backend/src/services/passwordResetService.js:7-14 | an unknown e-mail gives the same success reply and sends nothing; a known one creates a password-reset challenge and mails its code |
| PasswordReset.ResetPassword | kilimo-backend/src/services/passwordResetService.js:16-24 | an unknown e-mail gives "User not found"; otherwise the code is verified as a password-reset challenge, and only on success the user's digest becomes that of the new password |
| PasswordReset.OnlyResetChallengesReset | kilimo-backend/src/services/passwordResetService.js:16-20 | when the user has no unused password-reset challenge, the verification a reset performs answers "Invalid or expired OTP" and leaves the table unchanged, even if a verification challenge holds that code |
| PasswordReset.ForgotPasswordGuard | kilimo-backend/src/controllers/passwordResetController.js:14-16 | passes exactly when the e-mail is given |
| PasswordReset.ResetPasswordGuard | kilimo-backend/src/controllers/passwordResetController.js:39-45 | passes exactly when all three fields are given and the password has at least 8 characters; each failure's message, in source order |
| PasswordReset.ForgotPassword | kilimo-backend/src/controllers/passwordResetController.js:10-27 | the guard's 400 changes nothing; an unknown address gets the generic reply with no challenge stored and no mail sent; a known one gets a password-reset challenge and one mail with its code to the stored address |
| PasswordReset.ResetPasswordController | kilimo-backend/src/controllers/passwordResetController.js:34-56 | the guard's 400 changes nothing; an unknown address gives "User not found" with both tables unchanged; otherwise the challenge is verified as a password reset, its error passed on as a thrown message, and only on success is the new password's digest stored |
| OtpController.VerifyGuard | kilimo-backend/src/controllers/otpController.js:17-24 | passes exactly when the user id and the code are given and the code is six digits; a missing user id is reported first |
| OtpController.ClientOtpCheckIsServerCheck | KilimoMobileApp/src/utils/validation.ts:54-56 | the app's OTP check accepts exactly the codes the server's format guard lets through |
| OtpController.VerifyOtpController | kilimo-backend/src/controllers/otpController.js:12-60 | a failed guard changes nothing; a failed verification passes its message on; success marks exactly that user verified, and the returned user is verified |
| FormController.CheckForm | kilimo-backend/src/controllers/formController.js:16-35 | passes exactly when every field is given, the e-mail and phone match their patterns and the message has at least 10 characters; each failure's message, in source order |
| FormController.SubmitForm | kilimo-backend/src/controllers/formController.js:10-65 | a failed check changes nothing; otherwise one submission with the user and the fields is appended and returned |
| FormController.GetSubmissions | kilimo-backend/src/controllers/formController.js:72-99 | lists exactly the user's submissions, newest first |
| FormController.SubmittedIsListedFirst | kilimo-backend/src/controllers/formController.js:38-47 | a new submission heads its owner's list |
| FormController.SubmissionsAreScoped | kilimo-backend/src/controllers/formController.js:77-89 | a submission never appears in another user's list |
| Schemas.Validate | kilimo-backend/src/middleware/validation.js:32-41 | a rejection is a 400 with a non-empty message |
| Schemas.ValidatePassesIff | kilimo-backend/src/middleware/validation.js:32-41 | the middleware passes a body exactly when every field of the schema is present and meets all its checks |
| Schemas.FormSchemaConstraints | kilimo-backend/src/middleware/validation.js:6-12 | the form schema's constraints written out field by field |
| Schemas.AccountSchemaConstraints | kilimo-backend/src/middleware/validation.js:14-30 | the register, login and OTP schemas' constraints written out |
| Schemas.ShortFirstNameReportedFirst | kilimo-backend/src/middleware/validation.js:7 | a first name shorter than 2 characters is the issue reported |
| Schemas.FormSchemaImpliesControllerChecks | kilimo-backend/src/controllers/formController.js:16-35 | given an e-mail test no looser than the controller's pattern, a body the form schema accepts also passes every check of the controller |
| AuthMiddleware.ExtractToken | kilimo-backend/src/middleware/auth.js:14-16 | a token is read exactly when the header starts with "Bearer" and has a non-empty second space-separated field |
| AuthMiddleware.BearerRoundTrip | kilimo-backend/src/middleware/auth.js:14-16 | "Bearer " followed by a token without spaces gives back that token |
| AuthMiddleware.LoosePrefix | kilimo-backend/src/middleware/auth.js:14-16 | the prefix test is loose: "Bearer" followed by any space-free text, a space and a token yields that token |
| AuthMiddleware.OtherScheme | kilimo-backend/src/middleware/auth.js:14-16 | a header of another scheme ("Basic abc") yields no token |
| AuthMiddleware.MissingToken | kilimo-backend/src/middleware/auth.js:14-21 | "Bearer" without a second field, or with an empty one, yields no token |
| AuthMiddleware.Protect | kilimo-backend/src/middleware/auth.js:10-47 | no token or a bad token gives "Not authorized"; a token whose user is gone gives "User not found"; otherwise the user's public fields |
| AuthMiddleware.IssuedTokenAdmits | kilimo-backend/src/middleware/auth.js:10-47 | a bearer header with a token issued for an existing user admits exactly that user |
| Storage.KeyNamesDistinct | KilimoMobileApp/src/services/storage.ts:3-8 | the four store keys are distinct |
| Storage.Read | KilimoMobileApp/src/services/storage.ts:24-40 | a read yields the stored value, and nothing when the key is absent or the read fails |
| Storage.StorageService.SaveTokens | KilimoMobileApp/src/services/storage.ts:12-22 | both tokens are set and no other key changes |
| Storage.StorageService.GetAccessToken | KilimoMobileApp/src/services/storage.ts:24-31 | the stored access token, or nothing |
| Storage.StorageService.GetRefreshToken | KilimoMobileApp/src/services/storage.ts:33-40 | the stored refresh token, or nothing |
| Storage.StorageService.RemoveTokens | KilimoMobileApp/src/services/storage.ts:42-52 | both tokens are removed and no other key changes |
| Storage.StorageService.SaveUserData | KilimoMobileApp/src/services/storage.ts:55-65 | the user entry is set and no other key changes |
| Storage.StorageService.GetUserData | KilimoMobileApp/src/services/storage.ts:67-75 | the stored user entry when it is present and non-empty, else nothing |
| Storage.StorageService.RemoveUserData | KilimoMobileApp/src/services/storage.ts:77-84 | the user entry is removed and no other key changes |
| Storage.StorageService.SaveUserEmail | KilimoMobileApp/src/services/storage.ts:87-94 | the e-mail entry is set and no other key changes |
| Storage.StorageService.GetUserEmail | KilimoMobileApp/src/services/storage.ts:96-103 | the stored e-mail, or nothing |
| Storage.StorageService.ClearAll | KilimoMobileApp/src/services/storage.ts:106-118 | the store is empty |
| Storage.TokensRoundTrip | KilimoMobileApp/src/services/storage.ts:12-40 | tokens saved read back unchanged |
| Storage.EmailRoundTrip | KilimoMobileApp/src/services/storage.ts:87-103 | an e-mail saved reads back unchanged |
| ApiClient.SettleAll | KilimoMobileApp/src/services/apiClient.ts:123-131 | every queued request is settled in order: all rejected with the error, or all replayed with the new bearer token |
| ApiClient.OnResponseError | KilimoMobileApp/src/services/apiClient.ts:54-77 | anything but a first 401 is rejected as is; a first 401 during a refresh is parked in the queue; otherwise the request is marked as a retry and a refresh starts |
| ApiClient.Fail | KilimoMobileApp/src/services/apiClient.ts:102-107 | a failed refresh rejects the whole queue with its reason, empties it and moves on to clearing the store |
| ApiClient.OnRefreshTokenRead | KilimoMobileApp/src/services/apiClient.ts:80-88 | a missing or empty refresh token fails the refresh; otherwise the exchange starts |
| ApiClient.OnRefreshSucceeded | KilimoMobileApp/src/services/apiClient.ts:90-101 | the queue is replayed with the new token and emptied, the refresh ends, and the original request is replayed with the new header |
| ApiClient.OnRefreshFailed | KilimoMobileApp/src/services/apiClient.ts:102-107 | a failed exchange fails the refresh with its message |
| ApiClient.OnClearFinishedAsWritten | KilimoMobileApp/src/services/apiClient.ts:105-110 | as written: the refresh ends and the refresh error is rethrown, but requests parked during the clear stay in the queue |
| ApiClient.OnClearFinished | KilimoMobileApp/src/services/apiClient.ts:102-110 | corrected: requests parked during the clear are rejected too, then the refresh ends with the refresh error |
| ApiClient.StepsKeepInv | KilimoMobileApp/src/services/apiClient.ts:12-16 | every step keeps the coordinator's invariant: refreshing exactly while a refresh is under way, the queue empty when idle, the originating request marked as a retry |
| ApiClient.ArriveAll | KilimoMobileApp/src/services/apiClient.ts:61-74 | arrivals during a refresh keep it refreshing and change neither the phase nor the settled requests |
| ApiClient.ArrivalsAreParked | KilimoMobileApp/src/services/apiClient.ts:61-74 | first 401s during a refresh are appended to the queue in arrival order |
| ApiClient.BurstSharesOneRefresh | KilimoMobileApp/src/services/apiClient.ts:54-131 | a burst of 401s causes one refresh; afterwards every parked request is replayed with the new token and the refresh has ended |
| ApiClient.StrandedDuringClear | KilimoMobileApp/src/services/apiClient.ts:102-110 | as written: a 401 arriving while the store is cleared is still queued and unsettled when the failed refresh ends, and the coordinator invariant is broken; it stays pending until some later 401 starts another refresh, if one ever does |
| ApiClient.LateArrivalRejected | KilimoMobileApp/src/services/apiClient.ts:102-110 | corrected: that request is rejected with the refresh error and the queue is empty |
| ApiClient.ApiClient.constructor | KilimoMobileApp/src/services/apiClient.ts:12-16 | not refreshing, with an empty queue |
| ApiClient.ApiClient.RequestInterceptor | KilimoMobileApp/src/services/apiClient.ts:34-41 | a stored, non-empty access token is attached as a bearer header; otherwise the request goes out unchanged |
| ApiClient.ApiClient.ProcessQueue | KilimoMobileApp/src/services/apiClient.ts:123-131 | the loop settles the queue exactly as `SettleAll` does and leaves the rest of the state alone |
| ApiClient.ApiClient.HandleResponseError | KilimoMobileApp/src/services/apiClient.ts:54-77 | the state and outcome of `OnResponseError` |
| ApiClient.ApiClient.RefreshTokenRead | KilimoMobileApp/src/services/apiClient.ts:80-88 | the step `OnRefreshTokenRead` on the stored refresh token; a failure clears the store |
| ApiClient.ApiClient.RefreshSucceeded | KilimoMobileApp/src/services/apiClient.ts:90-101 | the step `OnRefreshSucceeded`, with both new tokens saved |
| ApiClient.ApiClient.RefreshFailed | KilimoMobileApp/src/services/apiClient.ts:102-107 | the step `OnRefreshFailed`, with the store cleared |
| ApiClient.ApiClient.ClearFinished | KilimoMobileApp/src/services/apiClient.ts:108-110 | the corrected step `OnClearFinished` |
| ClientAuth.HandleError | KilimoMobileApp/src/services/authService.ts:207-219 | a server reply gives its body message or the fallback; no reply gives the network message; otherwise the error's own message or a fixed text; non-empty when the fallback is |
| ClientAuth.HandlersDisagree | KilimoMobileApp/src/utils/errorHandler.ts:4-22 | for a server error carrying both an error message and a body message, `formatErrorMessage` and `handleError` show different texts |
| ClientAuth.HandlersAgreeOnBodyMessage | KilimoMobileApp/src/utils/errorHandler.ts:4-22 | they agree when the error has no message of its own |
| ClientAuth.WithSession | KilimoMobileApp/src/services/authService.ts:54-63 | saving a session sets both tokens and the user entry and keeps every other key |
| ClientAuth.SaveSessionIfEstablished | KilimoMobileApp/src/services/authService.ts:54-63 | the session is saved exactly when the reply is a success with data |
| ClientAuth.Login | KilimoMobileApp/src/services/authService.ts:47-70 | the reply is returned and the session saved exactly when it is established; an error is rethrown as its message and leaves the store alone |
| ClientAuth.VerifyOtp | KilimoMobileApp/src/services/authService.ts:97-120 | the same success-gated saving as login |
| ClientAuth.Signup | KilimoMobileApp/src/services/authService.ts:75-92 | the e-mail is saved exactly when the reply is a success |
| ClientAuth.Logout | KilimoMobileApp/src/services/authService.ts:180-187 | the store is empty |
| ClientAuth.IsAuthenticated | KilimoMobileApp/src/services/authService.ts:192-195 | authenticated exactly when a non-empty access token can be read |
| ClientAuth.LoginThenLogout | KilimoMobileApp/src/services/authService.ts:47-195 | after an established login the user is authenticated; after logout, not |
| ClientAuth.FailedLoginKeepsState | KilimoMobileApp/src/services/authService.ts:47-70 | a reply that establishes no session leaves authentication as it was |
| ErrorHandler.FormatErrorMessage | KilimoMobileApp/src/utils/errorHandler.ts:4-22 | in order: a string error itself, the error's message, the body's message, the body's error, a fixed text; empty only for the empty string |
| ErrorHandler.FormatErrorMessageDefault | KilimoMobileApp/src/utils/errorHandler.ts:21 | with none of those present the fixed default message is shown |
| ErrorHandler.IsAuthError | KilimoMobileApp/src/utils/errorHandler.ts:38-40 | exactly the responses with status 401 or 403 |
| Validation.ValidEmailShape | KilimoMobileApp/src/utils/validation.ts:4-7 | an accepted address has a non-empty local part, one "@", and a domain with a dot and non-empty labels, and contains no white space |
| Validation.ValidateEmail | KilimoMobileApp/src/utils/validation.ts:4-7 | accepts exactly the addresses matching the e-mail pattern (shape in `ValidEmailShape`) |
| Validation.ValidatePhoneIgnoresSpace | KilimoMobileApp/src/utils/validation.ts:12-16 | white space anywhere in the number does not change the verdict |
| Validation.ValidatePhone | KilimoMobileApp/src/utils/validation.ts:12-16 | an accepted number, once white space is removed, has 9, 10, 12 or 13 characters and ends with 1 or 7 and eight digits |
| Validation.PasswordMessagesDistinct | KilimoMobileApp/src/utils/validation.ts:21-49 | the five rule messages are distinct |
| Validation.FailedMessagesSpec | KilimoMobileApp/src/utils/validation.ts:21-49 | a rule's message is reported exactly when the rule fails, in rule order, at most five |
| Validation.FailedMessagesUnfolded | KilimoMobileApp/src/utils/validation.ts:21-49 | the reported list is the five rules' reports in order |
| Validation.ValidatePassword | KilimoMobileApp/src/utils/validation.ts:21-49 | the five checks, in source order, push exactly the failing rules' messages; valid exactly when no rule fails |
| Validation.FullNameHasTwoLetters | KilimoMobileApp/src/utils/validation.ts:61-63 | an accepted name holds at least two letters |
| Validation.ValidateOtp | KilimoMobileApp/src/utils/validation.ts:54-56 | accepts exactly six decimal digits |
| Validation.ValidateFullName | KilimoMobileApp/src/utils/validation.ts:61-63 | an accepted name has at least two characters, all letters or white space (two letters by `FullNameHasTwoLetters`) |
| Patterns.MatchesEmail | kilimo-backend/src/controllers/formController.js:21-24 | the executable test agrees with the e-mail pattern |
| Patterns.ServerPhoneIsClientPhone | kilimo-backend/src/controllers/formController.js:27-30 | every phone the server accepts is accepted by the app |
| Patterns.PhoneLength | KilimoMobileApp/src/utils/validation.ts:12-16 | an accepted number has 9, 10, 12 or 13 characters and ends with a leading digit and eight digits |
| Formatters.FormatPhoneNumberShape | KilimoMobileApp/src/utils/formatters.ts:4-18 | the result is the input unchanged or "+254" followed by digits; the input comes back unchanged when its digits start with none of 254, 0, 7 and 1 |
| Formatters.FormatPhoneNumber | KilimoMobileApp/src/utils/formatters.ts:4-18 | any rewritten number starts with "+254"; otherwise the input comes back as given (shape, idempotence and the accepted numbers in the lemmas below) |
| Formatters.KeepDigitsOfInternational | KilimoMobileApp/src/utils/formatters.ts:6 | stripping non-digits from "+digits" gives the digits |
| Formatters.FormatPhoneNumberIdempotent | KilimoMobileApp/src/utils/formatters.ts:4-18 | formatting twice is formatting once |
| Formatters.FormatSubscriber | KilimoMobileApp/src/utils/formatters.ts:13-14 | a bare digit string led by 7 or 1 gets "+254" in front |
| Formatters.FormatTrunk | KilimoMobileApp/src/utils/formatters.ts:11-12 | "0" and digits becomes "+254" and those digits |
| Formatters.FormatCountryCode | KilimoMobileApp/src/utils/formatters.ts:9-10 | "254" and digits gains a plus sign |
| Formatters.FormatInternationalForm | KilimoMobileApp/src/utils/formatters.ts:6-10 | "+254" and digits comes back as it was |
| Formatters.FormatValidPhone | KilimoMobileApp/src/utils/formatters.ts:4-18 | a number the app accepts formats to "+254" and its last nine digits |
| Formatters.TruncateText | KilimoMobileApp/src/utils/formatters.ts:52-57 | short text is unchanged; longer text is its prefix plus "..."; length bound |
| Formatters.CapitalizeWords | KilimoMobileApp/src/utils/formatters.ts:62-64 | same length; only word starts change, to upper case |
| Formatters.CapitalizeWordsIdempotent | KilimoMobileApp/src/utils/formatters.ts:62-64 | capitalizing twice is capitalizing once |
| Formatters.MaskEmailFields | KilimoMobileApp/src/utils/formatters.ts:69-75 | read back, the masked address has as user name the first three characters of the original followed by "***", and the very domain of the original |
| Formatters.MaskEmail | KilimoMobileApp/src/utils/formatters.ts:69-75 | without a user name or a domain the input comes back as given; otherwise the result ends with "***@" and the domain |
| Formatters.MaskEmailIdempotent | KilimoMobileApp/src/utils/formatters.ts:69-75 | for a user name of at least three characters, masking twice is masking once |
| JsText.LowerCase | kilimo-backend/src/services/authService.js:15 | every character mapped by ASCII lower-casing, same length |
| JsText.LowerCaseIsLowerCased | kilimo-backend/src/services/authService.js:15 | a lower-cased address is lower case and lower-casing it again changes nothing |
| JsText.SameIgnoringCaseLowerCase | kilimo-backend/src/services/authService.js:15 | two addresses match ignoring case exactly when their lower-cased forms are equal |
| JsText.IndexOf | KilimoMobileApp/src/utils/formatters.ts:70 | the first occurrence, or none |
| JsText.SecondField | kilimo-backend/src/middleware/auth.js:15 | the second separator-delimited field exists exactly when the separator occurs, and holds no separator |
| JsText.FilterAppend | KilimoMobileApp/src/utils/formatters.ts:6 | stripping characters distributes over concatenation |
| JsText.TrimStart | KilimoMobileApp/src/utils/validation.ts:62 | drops exactly the leading white space |
| JsText.TrimEnd | KilimoMobileApp/src/utils/validation.ts:62 | drops exactly the trailing white space |
| Crypto.CompareHash | kilimo-backend/src/services/authService.js:57 | a password matches its own digest and no other password does |
| OtpScreen.Filled | KilimoMobileApp/src/screens/OTPVerificationScreen.tsx:223 | the number of filled slots; all are filled exactly when it equals the slot count |
| OtpScreen.JoinLength | KilimoMobileApp/src/screens/OTPVerificationScreen.tsx:75-79 | with single-character slots the joined code's length is the number of filled slots |
| OtpScreen.LengthCheckIsAllFilled | KilimoMobileApp/src/screens/OTPVerificationScreen.tsx:75-79 | the six-character check on the joined code holds exactly when every slot is filled |
| OtpScreen.LengthCheckNeedsSingleChars | KilimoMobileApp/src/screens/OTPVerificationScreen.tsx:75-79 | without single-character slots, a joined code of length six can leave a slot empty |
| OtpScreen.FirstEmpty | KilimoMobileApp/src/screens/OTPVerificationScreen.tsx:134-139 | the first empty slot, or none when all are filled |
| OtpScreen.LastFilled | KilimoMobileApp/src/screens/OTPVerificationScreen.tsx:141-152 | the last filled slot, or none when all are empty |
| OtpScreen.ChangeSlot | KilimoMobileApp/src/screens/OTPVerificationScreen.tsx:54-60 | text that is not all digits is ignored; otherwise exactly that slot takes the text |
| OtpScreen.PressThenDelete | KilimoMobileApp/src/screens/OTPVerificationScreen.tsx:134-152 | pressing a digit and then deleting restores the slots |
| OtpScreen.Tick | KilimoMobileApp/src/screens/OTPVerificationScreen.tsx:41-48 | a running countdown drops by one second and stops at zero; a stopped one stays put |
| OtpScreen.TickValid | KilimoMobileApp/src/screens/OTPVerificationScreen.tsx:41-48 | ticking keeps the countdown well formed (running exactly while above zero) |
| OtpScreen.RunsOut | KilimoMobileApp/src/screens/OTPVerificationScreen.tsx:41-48 | from t seconds the countdown reaches zero in t ticks, and the resend link stays hidden before that |
| OtpScreen.StoppedStaysPut | KilimoMobileApp/src/screens/OTPVerificationScreen.tsx:44 | once the interval is cleared no tick changes the timer |
| OtpScreen.ResendAsWritten | KilimoMobileApp/src/screens/OTPVerificationScreen.tsx:125 | as written: the timer is set to 60 and the interval is left as it was |
| OtpScreen.Resend | KilimoMobileApp/src/screens/OTPVerificationScreen.tsx:117-132 | corrected: the countdown restarts at 60 and is well formed |
| OtpScreen.ResendFreezesTimer | KilimoMobileApp/src/screens/OTPVerificationScreen.tsx:117-132 | as written, a resend after the countdown ran out shows 60 seconds forever and the resend link never comes back |
| OtpScreen.ResendRestartsCountdown | KilimoMobileApp/src/screens/OTPVerificationScreen.tsx:117-132 | corrected, the resend link is back after 60 ticks |
| OtpScreen.Decimal | KilimoMobileApp/src/screens/OTPVerificationScreen.tsx:157 | `toString` of a natural number: digits only, a single digit exactly below 10 |
| OtpScreen.ValueDecimal | KilimoMobileApp/src/screens/OTPVerificationScreen.tsx:157 | reading the decimal text back gives the number |
| OtpScreen.PadStart2 | KilimoMobileApp/src/screens/OTPVerificationScreen.tsx:157 | the padded text has at least two characters |
| OtpScreen.PadStartValue | KilimoMobileApp/src/screens/OTPVerificationScreen.tsx:157 | padding with zeros keeps the value |
| OtpScreen.FormatTimeReadsBack | KilimoMobileApp/src/screens/OTPVerificationScreen.tsx:154-158 | "mm:ss" whose fields read back as the minutes and the seconds below 60 |
| OtpScreen.FormatTime | KilimoMobileApp/src/screens/OTPVerificationScreen.tsx:154-158 | at least five characters with ":" third from the end; exactly five below 100 minutes (read-back in `FormatTimeReadsBack`) |
| OtpScreen.FormatTimeExamples | KilimoMobileApp/src/screens/OTPVerificationScreen.tsx:154-158 | 60 seconds shows "01:00" and 9 shows "00:09" |
| OtpScreen.OtpEntry.constructor | KilimoMobileApp/src/screens/OTPVerificationScreen.tsx:31-32 | six empty slots and a running 60-second countdown |
| OtpScreen.OtpEntry.ChangeText | KilimoMobileApp/src/screens/OTPVerificationScreen.tsx:54-60 | the slots become `ChangeSlot` of the old slots |
| OtpScreen.OtpEntry.NumberPress | KilimoMobileApp/src/screens/OTPVerificationScreen.tsx:134-139 | the loop puts the digit in the first empty slot, or changes nothing when all are filled |
| OtpScreen.OtpEntry.Delete | KilimoMobileApp/src/screens/OTPVerificationScreen.tsx:141-152 | the loop empties the last filled slot, or changes nothing when all are empty |
| OtpScreen.OtpEntry.Code | KilimoMobileApp/src/screens/OTPVerificationScreen.tsx:75 | the loop builds the slots joined in order |
| OtpScreen.OtpEntry.BeginVerify | KilimoMobileApp/src/screens/OTPVerificationScreen.tsx:74-79 | a joined code of any length but six is refused and changes nothing; otherwise it is sent and verification is under way; it is sent exactly when every slot is filled |
| OtpScreen.OtpEntry.EndVerify | KilimoMobileApp/src/screens/OTPVerificationScreen.tsx:107-114 | verification ends; a failure empties all six slots |
| OtpScreen.OtpEntry.OnTick | KilimoMobileApp/src/screens/OTPVerificationScreen.tsx:41-48 | the countdown takes one `Tick` and nothing else changes |
| OtpScreen.OtpEntry.ResendCode | KilimoMobileApp/src/screens/OTPVerificationScreen.tsx:117-132 | a successful resend empties the slots and restarts the countdown (corrected); a failed one changes nothing |

## Left out

- Crypto.Hash: bcrypt's salt, cost factor and 72-byte truncation are not modelled. The digest is an injective function, so `compare` holds exactly for the same password.
- JsText.LowerCase: only ASCII letters change case. JavaScript's full Unicode case mapping and UTF-16 lengths are not modelled; strings are sequences of characters.
- Schemas.FieldIssues, Schemas.Validate: the schema library's version is not pinned by the code. The model follows zod 3: a missing field reports "Required", and the middleware reads the issues through `error.errors` (`validation.js:38`), which zod 3 provides.
- Schemas.Validate: zod's e-mail test is a parameter. Body values are strings only, so zod's type errors for non-string values are not modelled.
- OtpService.OtpTable.CreateOtp: a database failure, and the wrap into "Failed to create OTP", are not modelled. The model has no I/O errors.
- OtpService.Verify: each verification is one atomic step. The code's separate read and update, which two concurrent requests can interleave, are not modelled.
- OtpService.FindActive: newest-first order by `createdAt` is modelled as insertion order, the ids of the records.
- FormController.GetSubmissions: newest-first order by `createdAt` is modelled as insertion order, the position ids of the rows; `Submission` does not carry the `createdAt` column the query returns.
- Storage.StorageService.SaveTokens: writes to the device store always succeed. The store's exceptions and the logging around them are not modelled. A read failure is the `readFails` parameter.
- ApiClient.ApiClient.RefreshSucceeded: the network exchange, its timeout, and a failure of the token save inside the refresh are not modelled. The reply is a parameter, and JavaScript's asynchronous interleaving is modelled as the arrival of steps.
- AuthService.RegisterUser: the returned row omits the `createdAt` column that the query selects; the user table has no timestamps.
- ClientAuth.WithSession: the user object is its JSON text. `JSON.stringify` and `JSON.parse` are not modelled.
- ClientAuth.HandleError: requires a non-null error. JavaScript would throw a `TypeError` on a null error, and that case is not modelled.
- ErrorHandler.IsNetworkError: defined only; no caller in the modelled core depends on it, and `logError` (console output) is left out.
- OtpScreen.OtpEntry.ChangeText: requires an index below six; the screen only passes slot indices.
- OtpScreen.OtpEntry.ButtonEnabled: defined only; its meaning is covered by `LengthCheckIsAllFilled` and `BeginVerify`.
- Rendering, focus moves (`handleKeyPress`), alerts and navigation on the screens are not modelled.
- Id generation for users, OTP records and submissions is a parameter or the position in the table. Prisma's "record to update not found" error is the `RecordNotFound` failure.
- The app's `resendOTP`, `forgotPassword`, `resetPassword` and `getCurrentUser` are plain pass-through calls, not modelled beyond `HandleError`.
- The thin wrappers `api.ts`, `auth.ts` and `formService.ts` are not modelled. The form service's `handleError` is `ClientAuth.HandleError` with the fallback "Failed to submit form".
- `formatDate` and `formatTime` in `formatters.ts` depend on the locale and the date library, and are not modelled. The second screen `OTPScreen.tsx` repeats `formatTime` and is not modelled.
- Server wiring (`server.js`, the route files, the logger) and the JWT library are outside the model. Signing and verifying a token are parameters.
- The e-mail HTML body and the SMTP transport are not modelled; the outbox records recipient and code.

## Findings

| source | as written | input that shows it | evidently intended | confidence | as-written member | corrected member |
|---|---|---|---|---|---|---|
| KilimoMobileApp/src/screens/OTPVerificationScreen.tsx:117-132 | The countdown interval is created once, when the screen mounts. It clears itself at zero. A successful resend only sets the timer back to 60 and never starts a new interval. | Wait until the countdown shows the resend link, then press Resend and let the request succeed: the screen shows "Resend Code in 01:00" for good, and the link never returns. | A resend restarts the countdown, so the link returns after 60 seconds. | high, not executed | OtpScreen.ResendAsWritten (OtpScreen.ResendFreezesTimer) | OtpScreen.Resend (OtpScreen.ResendRestartsCountdown; used by OtpScreen.OtpEntry.ResendCode) |
| KilimoMobileApp/src/services/apiClient.ts:102-110 | On a failed refresh the queue is settled and emptied before the store is cleared. `isRefreshing` stays true until the clear finishes. A 401 that arrives during the clear is parked in the queue after it was settled, and is left pending when the failed refresh ends. | A refresh fails because no refresh token is stored. While the store is being cleared, a second request gets a 401. Its promise is left pending after the failed refresh ends, until some later 401 starts another refresh, if one ever does. | Requests parked during the clear are rejected with the same refresh error. | medium, not executed | ApiClient.OnClearFinishedAsWritten (ApiClient.StrandedDuringClear) | ApiClient.OnClearFinished (ApiClient.LateArrivalRejected; used by ApiClient.ApiClient.ClearFinished) |
