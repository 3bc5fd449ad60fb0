# SuperBank core, modelled in Dafny

SuperBank is a demo banking front end (Next.js and TypeScript). Its logic, apart from presentation, is in six small pieces, and this project models each one:

- **Form validators.** These are the zod schemas of `lib/validation/security-schemas.ts` (password, username, government ID, address, registration, login, transaction authorisation, password reset) and of `lib/validation/schemas.ts` (phone, PIN, one-time code, PIN set-up, account application, queue joining, transfer).
  - A schema is a function from the input record to its list of issues, each a field path and a message. A value is accepted exactly when that list is empty. The semantics are those of zod version 3, including its default enum message: every check of a field runs, and issues appear in key order.
  - An object's own refinement runs after its keys and reports at `confirmPassword` or `confirmPin`.
  - Dates are read the way the `Date` object of the V8 engine (Node.js, Chrome) reads them (module `Calendar`):
    - a `YYYY-MM-DD` string is UTC midnight, and a day past the end of its month rolls into the next month;
    - `new Date(year, month - 1, day)` reads the years 0 to 99 as 1900 to 1999 and rolls over out-of-range months and days.
- **The security audit trail** of `lib/security/audit.ts`. This is a logger object whose `log` appends one entry and passes high and critical entries to the security team. It has five wrappers that fix the action and the risk, and two queries that filter, sort newest first and cut.
- **The non-cryptographic parts of `lib/security/encryption.ts`:**
  - one-time passwords: the dynamic truncation of an HMAC-SHA-1 digest, the six-digit token, and the window search in `validateTOTP`;
  - the formats of account numbers, backup codes, hex tokens and rate-limit keys.
- **The route guard** of `middleware.ts`. It decides whether a request passes, is sent to `/login` or is sent home.
- **The application store** of `store/app-store.ts`: four fields and five actions.
- **The help dialog's logic** in `components/ui/faq-modal.tsx`:
  - the question table;
  - the search-and-category filter;
  - the expand/collapse toggle;
  - the reset when the dialog opens.

Parameters stand in for the things the core reads from outside:

- the current instant in milliseconds (`now`) and the current calendar year (`currentYear`);
- the email check of zod (`isEmail`);
- HMAC-SHA-1 (`hmac`);
- the random bytes and the random entry id.

An omitted argument that the source defaults (risk level, limit, hours, window, count, length) is an `Option`. `None` means the default.

Several behaviours of the code differ from what its messages or comments suggest, and the model follows the code:

- A username of 30 characters and a password of 128 characters are accepted, although the messages say "less than".
- A NUIT (tax number) of any nine characters is accepted.
- A transfer of 0.5 is refused with "must be greater than 0".
- A plus sign followed by fifteen digits matches the phone pattern but fails the length limit.
- The birth year "0050" is read as 1950.
- The "/admin/(.*)" route is matched literally, so protection is just the "/admin" prefix, including "/administrator".
- The HMAC message for a time step is the ASCII decimal numeral of the step, not the 8-byte big-endian counter of section 5.1 of RFC 4226.
- Two different (identifier, action) pairs share a rate-limit key when the action contains ':'.

## Model

| member | source | states |
|---|---|---|
| Schemas.PhoneAcceptance | lib/validation/schemas.ts:3-6 | a phone number is accepted iff it has 9 to 15 characters and is an optional '+', a non-zero digit and only digits |
| Schemas.PhonePatternLength | lib/validation/schemas.ts:6 | the pattern alone admits 2 to 16 characters, and 16 only with a leading '+' |
| Schemas.PlusWithFifteenDigits | lib/validation/schemas.ts:5-6 | '+' and fifteen digits draws exactly the too-long issue |
| Schemas.PinAcceptance | lib/validation/schemas.ts:8-10 | a PIN is accepted iff it is four digits |
| Schemas.PinWrongLength | lib/validation/schemas.ts:8-10 | a PIN of the wrong length draws the length issue and then the digits issue |
| Schemas.OtpAcceptance | lib/validation/schemas.ts:12-14 | a one-time code is accepted iff it is six digits |
| Schemas.LoginAcceptance | lib/validation/schemas.ts:16-18 | phone login is accepted iff the phone schema accepts the number; every issue is reported at phone |
| Schemas.PinVerifyAcceptance | lib/validation/schemas.ts:28-30 | PIN entry is accepted iff the PIN is four digits; every issue is reported at pin |
| Schemas.OtpVerifyAcceptance | lib/validation/schemas.ts:32-34 | code entry is accepted iff the code is six digits; every issue is reported at otp |
| Schemas.PinSetupAcceptance | lib/validation/schemas.ts:20-26 | PIN set-up is accepted iff the PIN is four digits and the confirmation equals it |
| Schemas.PinMismatchReported | lib/validation/schemas.ts:23-26 | differing PINs always give the mismatch issue at path confirmPin |
| Schemas.AccountApplicationAcceptance | lib/validation/schemas.ts:36-42 | accepted iff full name ≥ 2, ID number ≥ 8 and NUIT of exactly 9 characters, of any kind |
| Schemas.QueueJoinAcceptance | lib/validation/schemas.ts:44-47 | accepted iff branch and service are both non-empty |
| Schemas.TransferAcceptance | lib/validation/schemas.ts:49-53 | accepted iff amount ≥ 1 and recipient account ≥ 10 characters, whatever the description |
| Schemas.FractionalAmountRefused | lib/validation/schemas.ts:50 | an amount of 0.5 is refused, with exactly the amount issue |
| SecuritySchemas.PasswordAcceptance | lib/validation/security-schemas.ts:4-21 | a password is accepted iff 12 ≤ length ≤ 128, it has upper, lower, digit and special characters, and it is clear of the deny-list |
| SecuritySchemas.PasswordIssuesAtRoot | lib/validation/security-schemas.ts:4-21 | every password issue is attached to the password itself |
| SecuritySchemas.CommonPatternIgnoresCase | lib/validation/security-schemas.ts:13-20 | upper-casing a password does not change whether it hits the deny-list |
| SecuritySchemas.WordAbsent | lib/validation/security-schemas.ts:15-18 | a deny-list word with a letter missing from the password in both cases does not occur in it, whatever the case |
| SecuritySchemas.NotCommonByLetters | lib/validation/security-schemas.ts:13-20 | a password lacking a digit of 123456 and a letter of each word, in both cases, is clear of the deny-list |
| SecuritySchemas.ShortPasswordReport | lib/validation/security-schemas.ts:5 | "Sh0rt!" draws only the too-short issue |
| SecuritySchemas.NoSpecialPasswordReport | lib/validation/security-schemas.ts:10 | "NoSpecialChar123" draws only the special-character issue |
| SecuritySchemas.StrongPasswordAccepted | lib/validation/security-schemas.ts:4-21 | "Str0ng&Secure#Pass1" is accepted |
| SecuritySchemas.CommonPasswordReport | lib/validation/security-schemas.ts:11-21 | "Password123!" passes every class and length rule and draws only the common-pattern issue |
| SecuritySchemas.UsernameAcceptance | lib/validation/security-schemas.ts:24-31 | a username is accepted iff it has 8 to 30 word characters and starts with a letter or '_' |
| SecuritySchemas.LeadingDigitUsernameReport | lib/validation/security-schemas.ts:28-31 | "9startswithdigit" draws only the leading-digit issue |
| SecuritySchemas.ValidUsernameAccepted | lib/validation/security-schemas.ts:24-31 | "valid_user1" is accepted |
| SecuritySchemas.ShortUsernameReport | lib/validation/security-schemas.ts:25 | "short" draws only the too-short issue |
| SecuritySchemas.GovernmentIdAcceptance | lib/validation/security-schemas.ts:34-39 | a government ID is accepted iff its type is one of the three, its number has ≥ 6 characters, and its expiry is YYYY-MM-DD and after now |
| SecuritySchemas.ExpiryAccepted | lib/validation/security-schemas.ts:37-38 | a well-formed calendar expiry date is accepted iff now is before its UTC midnight |
| SecuritySchemas.MalformedExpiryReport | lib/validation/security-schemas.ts:37-38 | a non-YYYY-MM-DD expiry draws the format issue and then the expiry issue |
| SecuritySchemas.LaterExpiryStillValid | lib/validation/security-schemas.ts:38 | if an expiry date is accepted now, so is any later date |
| SecuritySchemas.February30RollsOver | lib/validation/security-schemas.ts:38 | "2026-02-30" denotes the same instant as "2026-03-02" |
| SecuritySchemas.AddressAcceptance | lib/validation/security-schemas.ts:42-49 | an address is accepted iff street ≥ 5, city, state and country ≥ 2, and the ZIP code is well formed |
| SecuritySchemas.ZipCodeForms | lib/validation/security-schemas.ts:46 | a ZIP code is five digits, optionally followed by '-' and four digits |
| SecuritySchemas.UsDateSplit | lib/validation/security-schemas.ts:59 | splitting MM/DD/YYYY at '/' gives exactly its month, day and year |
| SecuritySchemas.UsDateBirthYear | lib/validation/security-schemas.ts:59-61 | a well-formed birth date's year is the Date constructor's year for its fields |
| SecuritySchemas.DateOfBirthAcceptance | lib/validation/security-schemas.ts:57-63 | for a real date from year 100 on, birth dates are accepted iff 18 ≤ currentYear − birth year ≤ 120 |
| SecuritySchemas.AgeEighteenAccepted | lib/validation/security-schemas.ts:61-62 | in 2026, "12/31/2008" is accepted, since the age counts years only |
| SecuritySchemas.AgeSeventeenRefused | lib/validation/security-schemas.ts:61-62 | in 2026, "01/01/2009" draws only the age issue |
| SecuritySchemas.AgeHundredTwentyAccepted | lib/validation/security-schemas.ts:61-62 | in 2026, "01/01/1906" is accepted |
| SecuritySchemas.AgeHundredTwentyOneRefused | lib/validation/security-schemas.ts:61-62 | in 2026, "12/31/1905" draws only the age issue |
| SecuritySchemas.SmallYearQuirk | lib/validation/security-schemas.ts:60-61 | "06/15/0050" has birth year 1950 |
| SecuritySchemas.ContactInfoAcceptance | lib/validation/security-schemas.ts:66-70 | the contact block is accepted iff the email passes, the phone matches the pattern and the address is accepted |
| SecuritySchemas.ShortPhoneAtRegistration | lib/validation/security-schemas.ts:68 | "12" matches registration's phone pattern, although the phone login schema refuses it as too short |
| SecuritySchemas.RegistrationAcceptance | lib/validation/security-schemas.ts:52-81 | a registration is accepted iff first and last name have ≥ 2 characters, the birth date, government ID, address, username and password pass their schemas, the email passes, the phone matches the pattern, the password is confirmed, the two-factor method is known and the terms are agreed |
| SecuritySchemas.RegistrationAccepted | lib/validation/security-schemas.ts:52-81 | an accepted registration has a policy-abiding password typed twice, a valid username, the terms agreed, a known two-factor method, a valid email and phone, an unexpired ID and an age in range |
| SecuritySchemas.PasswordMismatchReported | lib/validation/security-schemas.ts:71-78 | differing passwords always give the mismatch issue at credentials.confirmPassword, and no issue anywhere else (not at credentials.password) carries the mismatch message |
| SecuritySchemas.TermsRefusalReported | lib/validation/security-schemas.ts:80 | not agreeing to the terms always gives its issue at agreeToTerms |
| SecuritySchemas.TwoFactorRefusalReported | lib/validation/security-schemas.ts:79 | a two-factor method outside sms/email/authenticator always gives an issue at twoFactorMethod |
| SecuritySchemas.LoginAcceptance | lib/validation/security-schemas.ts:84-89 | sign-in is accepted iff identifier and password are non-empty; the password policy is not applied |
| SecuritySchemas.TransactionAuthAcceptance | lib/validation/security-schemas.ts:92-97 | accepted iff the method is 2fa, biometric or pin and the code has ≥ 6 characters |
| SecuritySchemas.PasswordResetAcceptance | lib/validation/security-schemas.ts:100-109 | a reset is accepted iff the identifier is non-empty, the new password abides by the policy and is confirmed, and the code has ≥ 6 characters |
| SecuritySchemas.ResetMismatchReported | lib/validation/security-schemas.ts:106-109 | differing passwords make the last reset issue the mismatch at confirmPassword, and no issue anywhere else (not at newPassword) carries the mismatch message |
| Calendar.DayNumberOrder | lib/validation/security-schemas.ts:38 | day numbers order calendar dates as the calendar does, in both directions |
| Calendar.NextDateIsNextDay | lib/validation/security-schemas.ts:38 | the next calendar date has the next day number |
| Calendar.RollYearContainsDay | lib/validation/security-schemas.ts:60 | the year reached by rolling month and day over is the year holding that day |
| Calendar.DateYearContainsDay | lib/validation/security-schemas.ts:60-61 | getFullYear of the constructed date is the year holding the day its arguments denote |
| Calendar.DateYearOfCalendarDate | lib/validation/security-schemas.ts:60-61 | for a real date, the constructor's year is the written year after the 0–99 rule |
| Audit.MergeDetails | lib/security/audit.ts:20-24 | stored details are the caller's keys plus timestamp and sessionId; timestamp is now; sessionId is the caller's truthy value or "unknown"; every other key is unchanged |
| Audit.TransactionRisk | lib/security/audit.ts:82 | high iff amount > 10000, medium iff 1000 < amount ≤ 10000, low iff amount ≤ 1000 |
| Audit.TransactionRiskMonotone | lib/security/audit.ts:82 | a larger amount is never a lower risk, and a transaction is never critical |
| Audit.UserLogsCorrect | lib/security/audit.ts:53-58 | the user query returns only that user's logged entries, newest first, each at most as often as logged; for limit ≥ 0 it returns min(limit, count) of them, all of them when the limit covers the count; no entry of the user's that is left out is newer than one returned |
| Audit.HighRiskLogsCorrect | lib/security/audit.ts:60-68 | an entry is in the high-risk report iff it is logged, high or critical, and after now − hours h; newest first, each as often as logged |
| Audit.FreshAlertReported | lib/security/audit.ts:35-37 | an alerting entry just logged is in the high-risk report for any positive window |
| Audit.AuditLogger.constructor | lib/security/audit.ts:4 | the trail and the alerts start empty, and agree |
| Audit.AuditLogger.Log | lib/security/audit.ts:6-40 | appends exactly the new entry (risk default low) to the trail, alerts with it iff high or critical, and keeps alerts equal to the alerting entries |
| Audit.AuditLogger.GetUserAuditLogs | lib/security/audit.ts:53-58 | returns the user query with limit 50 by default and changes nothing |
| Audit.AuditLogger.GetHighRiskLogs | lib/security/audit.ts:60-68 | returns the high-risk report with 24 hours by default and changes nothing |
| Audit.AuditLogger.LogLogin | lib/security/audit.ts:71-79 | logs LOGIN_SUCCESS as low or LOGIN_FAILED as medium, with its details, and never alerts |
| Audit.AuditLogger.LogTransaction | lib/security/audit.ts:81-90 | logs TRANSACTION_INITIATED at the amount's risk and alerts once iff amount > 10000 |
| Audit.AuditLogger.LogPasswordChange | lib/security/audit.ts:92-100 | logs PASSWORD_CHANGED as medium and never alerts |
| Audit.AuditLogger.LogAccountLockout | lib/security/audit.ts:102-110 | logs ACCOUNT_LOCKED as high and always alerts with that entry |
| Audit.AuditLogger.LogSuspiciousActivity | lib/security/audit.ts:112-120 | logs SUSPICIOUS_ACTIVITY as critical and always alerts with that entry |
| Encryption.TimeStep | lib/security/encryption.ts:105 | the step is the 30-second interval holding now |
| Encryption.CounterMessage | lib/security/encryption.ts:120 | the HMAC message is the ASCII bytes of the step's decimal numeral |
| Encryption.CounterMessageInjective | lib/security/encryption.ts:120 | different steps give different messages |
| Encryption.Offset | lib/security/encryption.ts:123 | the offset is at most 15, so four bytes from it lie inside the digest |
| Encryption.DynamicTruncation | lib/security/encryption.ts:123-127 | the truncated value lies in [0, 2^31) |
| Encryption.TruncationBytes | lib/security/encryption.ts:124-127 | the truncated value gives back the four digest bytes from the offset, the first with its top bit cleared |
| Encryption.TotpToken | lib/security/encryption.ts:117-130 | the token is six digits whose value is the truncated HMAC of the step's message mod 10^6 |
| Encryption.ValidateTotp | lib/security/encryption.ts:102-115 | true iff some step within the window (default 1) of the current step yields the token; false for a negative window |
| Encryption.DriftTolerated | lib/security/encryption.ts:107-114 | a token issued within the window of steps of now is accepted |
| Encryption.WindowMonotone | lib/security/encryption.ts:107 | widening the window never rejects an accepted token |
| Encryption.MalformedTokenRejected | lib/security/encryption.ts:109 | a token that is not six digits is never accepted |
| Encryption.AccountNumber | lib/security/encryption.ts:67-71 | ten characters: "1001" and an upper-case hex that decodes back to the three random bytes |
| Encryption.AccountNumberInjective | lib/security/encryption.ts:67-71 | different random bytes give different account numbers |
| Encryption.BackupCodes | lib/security/encryption.ts:74-78 | count codes (default 10, none for a negative count), each eight upper-case hex characters decoding to its draw |
| Encryption.BackupCodesDistinct | lib/security/encryption.ts:74-78 | codes from different draws differ |
| Encryption.SecureToken | lib/security/encryption.ts:62-64 | a negative length is an error; otherwise 2·length lower-case hex characters (default 32 bytes) that decode back to the bytes |
| Encryption.RateLimitKeyRoundTrip | lib/security/encryption.ts:87-89 | for an action without ':' the key reads back as (action, identifier) |
| Encryption.RateLimitKeyInjective | lib/security/encryption.ts:87-89 | among actions without ':' distinct pairs have distinct keys |
| Encryption.RateLimitKeyCollision | lib/security/encryption.ts:88 | ("c", "a:b") and ("b:c", "a") share a key |
| Middleware.ProtectedIsAdminPrefix | middleware.ts:8-19 | a path is protected iff it starts with "/admin" |
| Middleware.AdminIsProtected | middleware.ts:14-20 | a path is an admin route iff it is protected |
| Middleware.LoginExemptionUnused | middleware.ts:25 | no protected path starts with "/login", so the exemption never applies |
| Middleware.DecisionCases | middleware.ts:4-40 | passes iff not under "/admin" or signed in as admin; to /login iff under "/admin" without a token; home iff under "/admin" with a token and a role other than admin |
| Middleware.AdministratorIsGuarded | middleware.ts:19-35 | "/administrator" is guarded like the admin pages |
| AppStore.Store.constructor | store/app-store.ts:22-25 | no user, English, not signed in, no queue ticket; consistent |
| AppStore.Store.SetUser | store/app-store.ts:27 | sets the user and the flag to whether there is one, leaves the rest, and makes the state consistent |
| AppStore.Store.SetLanguage | store/app-store.ts:28 | changes the language only and keeps consistency |
| AppStore.Store.SetAuthenticated | store/app-store.ts:29 | changes the flag only; the state is consistent afterwards iff the flag agrees with the user |
| AppStore.Store.SetCurrentQueue | store/app-store.ts:30 | changes the queue ticket only and keeps consistency |
| AppStore.Store.Logout | store/app-store.ts:31 | clears user, flag and queue ticket, keeps the language, is idempotent, and leaves a consistent state |
| FaqModal.CategoriesCoverTable | components/ui/faq-modal.tsx:41-107 | every table item sits under one of the category buttons |
| FaqModal.FilterFaqsCorrect | components/ui/faq-modal.tsx:109-118 | the filter keeps the table order and keeps exactly the items matching both term and category |
| FaqModal.SearchIgnoresCase | components/ui/faq-modal.tsx:110-113 | terms that lower-case alike select the same items |
| FaqModal.EverythingShown | components/ui/faq-modal.tsx:109-118 | no term and category "All" shows the whole table in order |
| FaqModal.SecurityCategory | components/ui/faq-modal.tsx:69-77 | category "Security" with no term shows exactly the item with id "4" |
| FaqModal.AccountSearch | __tests__/components/faq-modal.test.tsx:51-60 | searching "account" shows "How do I open a new account?" |
| FaqModal.NoMatchShowsNothing | components/ui/faq-modal.tsx:109-118 | items none of which matches the term are all filtered out |
| FaqModal.NonexistentFindsNothing | __tests__/components/faq-modal.test.tsx:114-123 | searching "nonexistent" shows nothing, in any category |
| FaqModal.Toggled | components/ui/faq-modal.tsx:120-128 | the toggled set holds the id iff the old one did not, and agrees on every other id |
| FaqModal.ToggleTwice | components/ui/faq-modal.tsx:120-128 | toggling the same id twice restores the set |
| FaqModal.FaqModalState.constructor | components/ui/faq-modal.tsx:101-103 | empty term, category "All", nothing expanded |
| FaqModal.FaqModalState.ToggleExpanded | components/ui/faq-modal.tsx:120-128 | the expanded set becomes the toggled set; term and category are unchanged |
| FaqModal.FaqModalState.OnOpenChange | components/ui/faq-modal.tsx:169-175 | on opening: empty term, category "All", nothing expanded, the whole table listed; otherwise nothing changes |

## Left out

- bcrypt hashing and comparison, AES-256-GCM, scrypt key derivation and the module-load initialisation (lib/security/encryption.ts:5-59, 134) are library cryptography with no visible algorithm.
- HMAC-SHA-1 is a function parameter. The base64 decoding of the TOTP secret into its key is folded into that parameter.
- The SHA-256 device fingerprint, the base64 session id and the base64 TOTP secret (lib/security/encryption.ts:81-84, 92-99) are library hashing or encoding of the clock and random bytes.
- `crypto.randomBytes` and `crypto.randomUUID` are inputs.
  - Their upper-size `RangeError` is not modelled.
  - Fractional or NaN counts, lengths and windows are not modelled; counts, lengths and windows are integers.
- Encryption.DynamicTruncation: JavaScript's bitwise `|` of the four shifted bytes is modelled as `+`. The fields do not overlap, but no bit-vector lemma states this: the bit-vector proof is beyond the solver budget.
- Console logging and the body of `alertSecurityTeam` (lib/security/audit.ts:39-51) are output. The model keeps the sequence of entries the team is alerted with.
- Audit.AuditLogger: the logs are one object's field here rather than a static shared by the whole module. The entry id and the clock are parameters.
  - Both clock reads of `log` are the same instant.
  - The ISO rendering of timestamps is left abstract; entries sort by their instant.
- Detail values cover strings, numbers, booleans, null and instants, not arbitrary JavaScript objects.
- UI rendering, toasts, timers, feedback buttons, contact actions and translations (components/ui/faq-modal.tsx:130-166, 177-352; lib/translations.ts) have no behaviour beyond presentation.
- The store's `persist`/localStorage wiring (store/app-store.ts:20, 33-35) and Next.js `config.matcher` (middleware.ts:42-46) are framework wiring.
- File upload fields (lib/validation/security-schemas.ts:48; lib/validation/schemas.ts:40-41) check `instanceof File` on browser objects.
- zod's email check is the parameter `isEmail`, because its regex is internal to the library.
- Inputs are typed records, so zod's type-mismatch issues do not arise.
- Text:
  - lengths count characters, not UTF-16 code units;
  - case folding and character classes are ASCII only;
  - numbers in text are plain digit runs, not every spelling `Number()` accepts.
- Other JavaScript engines and other zod versions are not modelled. Some engines read "2026-02-30" as an Invalid Date instead of rolling it over. Other zod major versions word the enum message differently.
- SecuritySchemas.ExpiryDateIssues: only the `YYYY-MM-DD` form of the Date string parser is modelled. Any other string counts as an Invalid Date. This does not change acceptance, because such a string already fails the format check.
- SecuritySchemas.DateOfBirthIssues: the age compares calendar years only, as the code does. The local time zone of `new Date(year, month - 1, day)` does not matter for the year.
