# FinMate account, currency and summary core in Dafny

FinMate is a personal-finance web application: an Express/Mongoose backend and a React
frontend. This project models the parts of it that decide things:

- the account handlers of `userController.js`:
  - registration, login, profile, currency and password updates;
  - e-mail verification by one-time password (OTP) with a resend cooldown;
  - two-factor login (TOTP with a ±2 step window, plus single-use backup codes);
- the user schema: required fields, defaults, the currency enum;
- the backend and frontend currency tables, the lookups over them, and symbol prefixing;
- the monthly summary: aggregation over a user's month, and the mailing run with its counters;
- the theme slice of the client store;
- the figures the dashboard derives from the income and expense queries.

Modules follow the source files:

| module | file | source |
|---|---|---|
| `Common` | common.dfy | the `Option` type and JavaScript truthiness of an optional string |
| `TwoFactor` | two_factor.dfy | backend/utils/twoFactor.js |
| `Currency` | currency.dfy | backend/utils/currency.js |
| `CurrencyFormat` | currency_format.dfy | backend/utils/currencyFormatter.js |
| `FrontendCurrency` | frontend_currency.dfy | frontend/src/utils/currencyFormatter.js |
| `UserModel` | user_model.dfy | backend/models/userModel.js |
| `Accounts` | accounts.dfy | backend/controllers/userController.js |
| `AccountProperties` | account_properties.dfy | properties of the handlers across calls |
| `MonthlySummary` | monthly_summary.dfy | backend/controllers/emailController.js |
| `Theme` | theme.dfy | frontend/src/features/theme/themeSlice.js |
| `Dashboard` | dashboard.dfy | frontend/src/pages/ProtectedPages/MainDashboard.jsx |

### How the handlers are modelled

Each handler appears twice:

- as a function from a `Store` and a request to an `Outcome`: the new store and the HTTP reply (status, body, session cookie, mails);
- as a method of the `AccountService` class, which updates its `users`, `otps` and `lastResend` fields in place and is proved to produce that same outcome.

The store has three parts:

- A user's id is its position in `users`, in insertion order. MongoDB does not promise an order for an unsorted `findOne`; the model takes it to meet documents in insertion order.
- `otps` maps a user to their OTP documents.
- `lastResend` is the per-user cooldown map.

Collaborators the core only calls are the functions of an `Env`: `bcrypt.compare`, the TOTP code of a secret at a time step, and the validators. The new hash, OTP record, secret, QR rendering, random bytes and current time are parameters.

### JavaScript behaviour that is modelled

- Lookups in object literals can return three kinds of result:
  - an own entry;
  - a name inherited from `Object.prototype` (`"constructor"`, `"toString"`, …), which is truthy but has no `.symbol`;
  - nothing.
- An empty string is falsy.
- An error thrown inside a handler reaches Express' default handler as status 500. This covers the currency enum failing on save, a missing secret at the TOTP check, and a failed QR rendering.
- `sort({ expiresAt: -1 })`: a record without an expiry sorts last.
- The monthly run treats January specially: it summarises December of the previous year.

## Model

| member | source | states |
|---|---|---|
| TwoFactor.StripSpaces | backend/utils/twoFactor.js:56 | removing whitespace keeps exactly the non-space characters and never lengthens the text (order is kept by the two rows below) |
| TwoFactor.StripSpacesSingle | backend/utils/twoFactor.js:56 | one character is removed exactly when it is whitespace |
| TwoFactor.StripSpacesConcat | backend/utils/twoFactor.js:56 | stripping distributes over concatenation, so the kept characters stay in order and keep their multiplicity |
| TwoFactor.Normalize | backend/utils/twoFactor.js:56-58 | the normal form never lengthens the text and holds no whitespace |
| TwoFactor.Hex | backend/utils/twoFactor.js:45 | the hex rendering of n bytes has 2n characters |
| TwoFactor.FormatCode | backend/utils/twoFactor.js:43-48 | one backup code built from four random bytes: upper-case hexadecimal pairs joined by hyphens (its shape, round trip and injectivity are the three rows below) |
| TwoFactor.FormatCodeWellFormed | backend/utils/twoFactor.js:43-48 | every generated code is four upper-case hex pairs joined by hyphens |
| TwoFactor.FormatCodeRoundTrip | backend/utils/twoFactor.js:43-48 | a generated code parses back to the four random bytes it was made from |
| TwoFactor.FormatCodeInjective | backend/utils/twoFactor.js:43-48 | different random draws give different codes |
| TwoFactor.BackupCodesOf | backend/utils/twoFactor.js:40-52 | one code per draw |
| TwoFactor.GenerateBackupCodes | backend/utils/twoFactor.js:40-52 | the loop yields exactly 8 codes, each well-formed and decoding to its own draw, in draw order |
| TwoFactor.FirstMatchFrom | backend/utils/twoFactor.js:57-59 | the search from k finds the first code whose normalised form equals the wanted one, or reports that none does |
| TwoFactor.VerifyBackupCode | backend/utils/twoFactor.js:55-62 | the index returned is the first code equal to the provided one after upper-casing and removing whitespace on both sides; "not found" exactly when no code matches |
| TwoFactor.StripSpacesIdempotent | backend/utils/twoFactor.js:56 | removing whitespace twice is removing it once |
| TwoFactor.StripSpacesOfUpper | backend/utils/twoFactor.js:56-58 | upper-casing and removing whitespace commute |
| TwoFactor.NormalizeIgnoresCaseAndSpaces | backend/utils/twoFactor.js:56 | normalisation ignores letter case and whitespace in its input |
| TwoFactor.LookupIgnoresCaseAndSpaces | backend/utils/twoFactor.js:55-62 | a provided code is matched the same way however it is cased or spaced |
| TwoFactor.FormatCodeIsNormal | backend/utils/twoFactor.js:43-58 | a generated code is already in normal form, so it matches itself |
| TwoFactor.NoSpaceNoStrip | backend/utils/twoFactor.js:56 | text without whitespace is unchanged by whitespace removal |
| TwoFactor.UnhyphenatedNeverMatches | backend/utils/twoFactor.js:47-62 | a code typed without its hyphens never matches a generated code |
| TwoFactor.RemoveAt | backend/controllers/userController.js:625-626 | `splice(i, 1)` drops element i and keeps the others in order |
| TwoFactor.RemovedCodeNoLongerMatches | backend/controllers/userController.js:622-626 | with distinct codes, after removing the matched code the same input matches nothing |
| TwoFactor.MatchesBetweenMeans | backend/utils/twoFactor.js:30-37 | the window check accepts exactly when the token is the code of some step in the range |
| TwoFactor.VerifyToken | backend/utils/twoFactor.js:30-37 | a token is accepted exactly when it is the code of a step at most two steps before or after the current one |
| TwoFactor.StepDistance | backend/utils/twoFactor.js:35 | times up to 60 s apart are at most 2 steps apart; 90 s or more apart, at least 3 |
| TwoFactor.AcceptsWithinSixtySeconds | backend/utils/twoFactor.js:30-37 | a code generated up to 60 s before or after verification is accepted |
| TwoFactor.RejectsFromNinetySecondsAway | backend/utils/twoFactor.js:30-37 | when codes of different steps differ, a code 90 s or more away is rejected |
| Currency.ParseCode | backend/utils/currency.js:2-24 | recognises exactly the 21 configured currency codes |
| Currency.Config | backend/utils/currency.js:2-24 | every configured currency has a non-empty symbol and a non-empty name |
| Currency.LookupConfig | backend/utils/currency.js:2-24 | `currencyConfig[code]` is an own entry exactly for a configured code, and then it is that code's record |
| Currency.SymbolLookup | backend/utils/currency.js:27-29 | the symbol of a configured code, otherwise "$" (inherited names included) |
| Currency.GetCurrencySymbol | backend/utils/currency.js:27-29 | the symbol is never empty, and any symbol other than "$" comes from a configured code |
| Currency.AllSymbolsNonEmpty | backend/utils/currency.js:2-24 | every configured symbol is non-empty, so the "$" fallback only applies to unknown codes |
| Currency.GetCurrencyInfo | backend/utils/currency.js:32-34 | the record of a configured code; the USD record for any other name except an inherited one, which comes back as that inherited member |
| Currency.GetAllCurrencies | backend/utils/currency.js:55-60 | one entry per configured currency |
| Currency.ConfigOrderComplete | backend/utils/currency.js:2-24 | the table holds 21 distinct currencies and every modelled code is in it |
| Currency.Position | backend/utils/currency.js:2-24 | each currency's position in the table |
| Currency.AllCurrenciesListed | backend/utils/currency.js:55-60 | every currency appears in the list at its table position, with its code and its own symbol, name, country and flag |
| Currency.NameParses | backend/utils/currency.js:2-24 | each code's name is recognised as that code |
| Currency.ParseCountry | backend/utils/currency.js:64-90 | recognises exactly the 25 listed country codes |
| Currency.CountryLookup | backend/utils/currency.js:63-93 | a listed country gives its currency; any other non-inherited name gives "USD" |
| Currency.CurrencyFromCountry | backend/utils/currency.js:63-93 | an own result is always a configured currency code; the result is an inherited member exactly for an unlisted inherited member name |
| Currency.CountryCurrencyIsConfigured | backend/utils/currency.js:63-93 | every currency a country maps to is a configured currency |
| Currency.CountryCurrencyParses | backend/utils/currency.js:64-90 | each country's currency is a configured code |
| Currency.HomeCountryRecorded | backend/utils/currency.js:2-90 | each currency's `country` field is a listed country that maps back to it |
| Currency.CountryNameParses | backend/utils/currency.js:64-90 | each listed country's name is recognised as that country |
| Currency.CountryRoundTrip | backend/utils/currency.js:2-93 | looking up the country recorded for a currency gives that currency back |
| CurrencyFormat.FormatCurrency | backend/utils/currencyFormatter.js:20-28 | the result is the symbol (or "undefined") followed by the amount text |
| CurrencyFormat.GetCurrencySymbol | backend/utils/currencyFormatter.js:9-12 | the symbol is undefined exactly for an inherited member name, and is otherwise non-empty |
| CurrencyFormat.SymbolLookup | backend/utils/currencyFormatter.js:9-12 | a configured code gives its symbol, an unknown one "$", an inherited name `undefined` |
| CurrencyFormat.InheritedNamesAreNotCodes | backend/utils/currencyFormatter.js:9-12 | no inherited member name is a currency code |
| CurrencyFormat.OmittedCodeIsDollar | backend/utils/currencyFormatter.js:9-21 | an omitted code defaults to USD, so "0" renders as "$0" |
| CurrencyFormat.AgreesWithCurrencyModule | backend/utils/currencyFormatter.js:9-12 | the two backend symbol lookups agree on every name except the inherited ones, where this one gives `undefined` and the other "$" |
| FrontendCurrency.Currencies | frontend/src/utils/currencyFormatter.js:1-114 | one record per listed currency |
| FrontendCurrency.FromBackend | frontend/src/utils/currencyFormatter.js:1-114 | a backend currency maps to the frontend listing of the same code, if there is one |
| FrontendCurrency.Position | frontend/src/utils/currencyFormatter.js:1-114 | each listed currency's position in the array |
| FrontendCurrency.EntryMatchesBackend | frontend/src/utils/currencyFormatter.js:1-114 | each frontend record has the backend's code, name, symbol and flag |
| FrontendCurrency.FindFrom | frontend/src/utils/currencyFormatter.js:121-134 | `find` returns the first record with the code, or nothing |
| FrontendCurrency.Find | frontend/src/utils/currencyFormatter.js:122 | a found entry is in the list and has the code; nothing is found exactly when no entry has the code |
| FrontendCurrency.FindListed | frontend/src/utils/currencyFormatter.js:121-134 | a name that is not a currency code finds nothing; a code finds its listing exactly when it is listed |
| FrontendCurrency.ListedIsFound | frontend/src/utils/currencyFormatter.js:121-134 | every listed code is found |
| FrontendCurrency.CodesDistinct | frontend/src/utils/currencyFormatter.js:1-114 | no code is listed twice |
| FrontendCurrency.OrderDistinct | frontend/src/utils/currencyFormatter.js:1-114 | no currency occupies two positions |
| FrontendCurrency.PositionOfIndex | frontend/src/utils/currencyFormatter.js:1-114 | the record at position i is found at position i |
| FrontendCurrency.UnlistedCodes | frontend/src/utils/currencyFormatter.js:1-114 | the frontend lacks exactly NZD, SEK, NOK, DKK and PLN of the backend's currencies |
| FrontendCurrency.SymbolLookup | frontend/src/utils/currencyFormatter.js:121-124 | an omitted code gives "$"; a listed code its symbol; anything else "$" |
| FrontendCurrency.GetCurrencySymbol | frontend/src/utils/currencyFormatter.js:121-124 | the symbol of the entry found for the code (an omitted code is "USD"), "$" when none is found |
| FrontendCurrency.InfoLookup | frontend/src/utils/currencyFormatter.js:131-134 | an omitted or unlisted code gives the USD record, a listed code its own |
| FrontendCurrency.GetCurrencyInfo | frontend/src/utils/currencyFormatter.js:131-134 | always an entry of the list, and one with the requested code unless that code is not listed |
| FrontendCurrency.AgreesWithBackend | frontend/src/utils/currencyFormatter.js:121-124 | frontend and backend symbols agree except for the five unlisted currencies, where the frontend shows "$" |
| FrontendCurrency.UnlistedSymbolsAreNotDollar | frontend/src/utils/currencyFormatter.js:121-124 | the five unlisted currencies really differ in symbol: none of them is "$" |
| FrontendCurrency.FormatCurrency | frontend/src/utils/currencyFormatter.js:143-155 | the amount text, prefixed by the symbol unless `showSymbol` is `false` |
| FrontendCurrency.DisplayCode | frontend/src/utils/currencyFormatter.js:164 | the user's currency when set and non-empty, otherwise "USD" |
| FrontendCurrency.DisplayUsesUserCurrency | frontend/src/utils/currencyFormatter.js:163-166 | without a user currency the amount is shown with "$", otherwise with that currency's symbol |
| FrontendCurrency.FormatAmountForDisplay | frontend/src/utils/currencyFormatter.js:163-166 | the amount text, unchanged, after the symbol of the user's currency code |
| UserModel.EnumIsConfigKeys | backend/models/userModel.js:35-61 | the schema's currency enum is exactly the set of configured currency codes |
| UserModel.EnumEntry | backend/models/userModel.js:35-61 | the enum lists the currencies in the same order as the configuration |
| UserModel.NewAccountDefaults | backend/models/userModel.js:5-65 | a new account is unverified, without 2FA or backup codes, in USD with country "US"; it saves exactly when the three required fields are non-empty |
| UserModel.NewAccount | backend/models/userModel.js:5-65 | a new account keeps the given username, email and password hash and starts unverified, with two-factor off, no secret and no backup codes |
| UserModel.UsernameNotUnique | backend/models/userModel.js:5-13 | two accounts may share a username while their emails are unique |
| Accounts.FindEmailFrom | backend/controllers/userController.js:34 | the search finds the first account with the email at or after k, or none |
| Accounts.FindByEmail | backend/controllers/userController.js:34 | `findOne({ email })` returns the first account with that email, or none when no account has it |
| Accounts.FindUsernameFrom | backend/controllers/userController.js:41 | the search finds the first account with the username at or after k, or none |
| Accounts.FindByUsername | backend/controllers/userController.js:41 | `findOne({ username })` returns the first account with that username, or none |
| Accounts.FindOwnEmail | backend/models/userModel.js:9-13 | with unique emails, a stored account's email finds that account |
| Accounts.LatestAmong | backend/controllers/userController.js:413 | the record checked has no later-expiring record, and is strictly later than every earlier one (ties go to the first) |
| Accounts.RegisterSpec | backend/controllers/userController.js:31-71 | a refused registration changes nothing; a successful one appends exactly one account, keeps the others and opens a session for the new one; OTP tables are untouched |
| Accounts.LoginSpec | backend/controllers/userController.js:74-134 | login never changes the store; a session is opened only with a 200 reply, for the verified account with that email and two-factor off |
| Accounts.UpdatedFields | backend/controllers/userController.js:219-221 | "Username" is listed exactly when a given username differs from the record, "Email Address" exactly when a given email does |
| Accounts.ProfileSpec | backend/controllers/userController.js:171-247 | a refused update changes nothing; otherwise only the session's account changes; no session is issued |
| Accounts.CountryFallback | backend/controllers/userController.js:275-278 | the currency taken from the country is a configured code, or empty (which the enum then rejects) |
| Accounts.CurrencySpec | backend/controllers/userController.js:250-325 | a refused update changes nothing; a successful one replaces only the session account's currency by the requested one and its country by the given one, leaving every other field and account as it was; the stored currency is in the enum |
| Accounts.ResetPasswordSpec | backend/controllers/userController.js:328-372 | a refused reset changes nothing; a successful one replaces only the password hash of the session's account |
| Accounts.InCooldown | backend/controllers/userController.js:385-388 | a request is in cooldown only when the user's last resend is recorded and less than a minute old |
| Accounts.SendOtpSpec | backend/controllers/userController.js:375-397 | accounts never change; a refused request changes nothing; a served one replaces that user's OTPs by the issued record and restarts the cooldown |
| Accounts.VerifyOtpSpec | backend/controllers/userController.js:400-446 | no account is added or removed, the cooldown table is untouched, OTP records are only ever removed, and a failed attempt leaves the accounts unchanged |
| Accounts.Setup2FASpec | backend/controllers/userController.js:449-482 | a refused setup changes nothing; a successful one needs two-factor off and a rendered QR code and changes only that account |
| Accounts.Enable2FASpec | backend/controllers/userController.js:485-551 | a refused request changes nothing; a successful one sets only the flag and the eight codes built from the draws on that account, everything else unchanged, and sends the enable mail |
| Accounts.Disable2FASpec | backend/controllers/userController.js:554-597 | 200 exactly when token and password are given, the account exists with two-factor on, the password matches, a secret is stored and the token is accepted; then only that account's flag, secret and backup codes are cleared; a refused request changes nothing |
| Accounts.Verify2FASpec | backend/controllers/userController.js:600-656 | with email and token given, the TOTP path answers 200 exactly when the account found by email has two-factor on, a secret, and the token is accepted, and the backup path exactly when a stored code matches; a refused request changes nothing and opens no session; a 200 opens a session for that account and changes at most it |
| Accounts.TwoFactorStatusSpec | backend/controllers/userController.js:659-672 | the status query never changes the store and answers 200 exactly for an existing account |
| Accounts.ReplaceKeepsConsistent | backend/models/userModel.js:5-65 | replacing an account by a valid one with an unused email keeps emails unique and every account valid |
| Accounts.RegisterKeepsConsistent | backend/controllers/userController.js:31-71 | registration keeps the store consistent |
| Accounts.ProfileKeepsConsistent | backend/controllers/userController.js:171-247 | a profile update keeps the store consistent |
| Accounts.CurrencyKeepsConsistent | backend/controllers/userController.js:250-325 | a currency update keeps the store consistent |
| Accounts.ResetPasswordKeepsConsistent | backend/controllers/userController.js:328-372 | a password reset keeps the store consistent |
| Accounts.SendOtpKeepsConsistent | backend/controllers/userController.js:375-397 | sending an OTP keeps the store consistent |
| Accounts.VerifyOtpKeepsConsistent | backend/controllers/userController.js:400-446 | verifying an OTP keeps the store consistent |
| Accounts.Setup2FAKeepsConsistent | backend/controllers/userController.js:449-482 | 2FA setup keeps the store consistent |
| Accounts.Enable2FAKeepsConsistent | backend/controllers/userController.js:485-551 | enabling 2FA keeps the store consistent, including "enabled implies a secret" |
| Accounts.Disable2FAKeepsConsistent | backend/controllers/userController.js:554-597 | disabling 2FA keeps the store consistent |
| Accounts.Verify2FAKeepsConsistent | backend/controllers/userController.js:600-656 | 2FA verification keeps the store consistent |
| Accounts.RunKeepsConsistent | backend/controllers/userController.js:31-672 | any run of requests to the modelled handlers keeps the store consistent |
| Accounts.AccountService.constructor | backend/models/userModel.js:5-65 | an empty database is consistent |
| Accounts.AccountService.Register | backend/controllers/userController.js:31-71 | the database and the reply are those of the registration rule, and consistency is kept |
| Accounts.AccountService.Login | backend/controllers/userController.js:74-134 | the reply is that of the login rule and nothing changes |
| Accounts.AccountService.UpdateProfile | backend/controllers/userController.js:171-247 | the profile-update rule, with consistency kept |
| Accounts.AccountService.UpdateCurrency | backend/controllers/userController.js:250-325 | state and reply equal CurrencySpec of the old state, with consistency kept |
| Accounts.AccountService.ResetPassword | backend/controllers/userController.js:328-372 | the password-reset rule, with consistency kept |
| Accounts.AccountService.SendOtp | backend/controllers/userController.js:375-397 | the OTP-sending rule, with consistency kept |
| Accounts.AccountService.VerifyOtp | backend/controllers/userController.js:400-446 | the OTP-verification rule, with consistency kept |
| Accounts.AccountService.Setup2FA | backend/controllers/userController.js:449-482 | the 2FA-setup rule, with consistency kept |
| Accounts.AccountService.Enable2FA | backend/controllers/userController.js:485-551 | state and reply equal Enable2FASpec of the old state, backup codes generated by the loop, with consistency kept |
| Accounts.AccountService.Disable2FA | backend/controllers/userController.js:554-597 | state and reply equal Disable2FASpec of the old state, with consistency kept |
| Accounts.AccountService.Verify2FA | backend/controllers/userController.js:600-656 | state and reply equal Verify2FASpec of the old state, with the matched backup code spliced out in place |
| Accounts.AccountService.GetTwoFactorStatus | backend/controllers/userController.js:659-672 | 404 for a missing account, otherwise the enabled flag; nothing changes |
| AccountProperties.FindByEmailIgnoresOtherFields | backend/controllers/userController.js:34 | the email lookup depends on the emails only |
| AccountProperties.FindAfterReplace | backend/controllers/userController.js:205-215 | rewriting an account without changing its email keeps every email lookup |
| AccountProperties.RegisterChecksEmailFirst | backend/controllers/userController.js:34-44 | a taken email is reported before the username is looked at |
| AccountProperties.RegisterOutcome | backend/controllers/userController.js:31-71 | 200 exactly for a fresh email and username with the required fields present; then the account is appended, a session is issued for it and a welcome mail is sent |
| AccountProperties.RegisteredAccountMustVerify | backend/controllers/userController.js:48-90 | the account just registered, though given a session, is refused login until verified |
| AccountProperties.LoginDecisionOrder | backend/controllers/userController.js:74-134 | login changes nothing and decides in order: unknown email 404; unverified 401; wrong password 401; 2FA on gives the second step without a session; otherwise 200 with a session |
| AccountProperties.UnverifiedIgnoresPassword | backend/controllers/userController.js:84-98 | an unverified account gets the same 401, and no session, whatever the password |
| AccountProperties.ProfileNeverMails | backend/controllers/userController.js:205-230 | the list of changed fields is built after the record is overwritten, so no profile mail is ever sent |
| AccountProperties.ProfileOutcome | backend/controllers/userController.js:171-247 | a successful update writes the given username and email and nothing else |
| AccountProperties.ProfileRefusesTakenEmail | backend/controllers/userController.js:189-196 | an email another account uses is refused with 400 |
| AccountProperties.ProfileAllowsDuplicateUsername | backend/controllers/userController.js:171-247 | an account may take another's username; the store stays consistent |
| AccountProperties.InheritedNamesOutsideEnum | backend/models/userModel.js:35-61 | no inherited member name is an enum value |
| AccountProperties.CurrencyFallbackUnreachable | backend/controllers/userController.js:262-290 | the country fallback never decides the stored currency; a requested inherited name passes the config check and then fails on save with 500 |
| AccountProperties.CurrencyMail | backend/controllers/userController.js:292-310 | a currency mail is sent exactly when the currency changes, and carries the new symbol |
| AccountProperties.SamePasswordRefusedBeforeCompare | backend/controllers/userController.js:346-352 | a new password equal to the old one is refused before the old password is compared |
| AccountProperties.ResetPasswordOutcome | backend/controllers/userController.js:328-372 | success only with the right old password and a valid different new one; then the new hash is stored and a mail sent |
| AccountProperties.SendOtpOutcome | backend/controllers/userController.js:375-397 | unknown email 404; inside the cooldown 429 and nothing changes; otherwise the account's OTPs are replaced by the new one and the send time recorded |
| AccountProperties.ResendCooldown | backend/controllers/userController.js:384-394 | a second request under a minute after a served one is refused; one a minute or more later is served |
| AccountProperties.VerifyOtpOutcome | backend/controllers/userController.js:400-446 | an expired latest OTP deletes all the account's OTPs; a matching one verifies the account and deletes them; a wrong one changes nothing |
| AccountProperties.LatestOtpIsLatest | backend/controllers/userController.js:413 | the record checked is one of the account's and has the latest expiry |
| AccountProperties.OtpWithoutExpiryNeverExpires | backend/controllers/userController.js:420 | a latest record without expiry gives the same outcome at every instant |
| AccountProperties.VerifyOtpIsSingleUse | backend/controllers/userController.js:407-433 | after a successful verification any later attempt is told the email is already verified |
| AccountProperties.SetupOnlyOverwritesSecret | backend/controllers/userController.js:449-482 | setup is refused while 2FA is on, otherwise only the secret changes |
| AccountProperties.EnableOutcome | backend/controllers/userController.js:485-551 | a token is required first; 200 exactly when the account has a secret and the token is accepted; success sets only the flag and the 8 generated codes, which it returns, and sends the enable mail |
| AccountProperties.DisableChecksPasswordFirst | backend/controllers/userController.js:576-584 | a wrong password is reported whatever token is sent |
| AccountProperties.DisableOutcome | backend/controllers/userController.js:554-597 | 200 exactly when both fields are given, two-factor is on, the password matches, a secret is stored and the token is accepted; success clears the flag, the secret and the backup codes together |
| AccountProperties.Verify2FASession | backend/controllers/userController.js:600-656 | a session is issued exactly on success, for the account the email names |
| AccountProperties.TotpPathChangesNothing | backend/controllers/userController.js:632-635 | the TOTP path never changes the store |
| AccountProperties.BackupPathRemovesMatch | backend/controllers/userController.js:620-631 | the backup path removes exactly the first matching code and nothing else; a match at index 0 counts |
| AccountProperties.BackupCodeIsSingleUse | backend/controllers/userController.js:620-631 | with distinct codes, a used code is refused afterwards |
| AccountProperties.DuplicatedCodeWorksTwice | backend/controllers/userController.js:620-631 | when a second stored code has the same normal form, the same token is accepted again after the first is removed |
| AccountProperties.EqualDrawsGiveEqualCodes | backend/utils/twoFactor.js:40-52 | two equal random draws give two equal backup codes, so generation does not guarantee distinct codes |
| AccountProperties.SetupEnableThenLoginNeeds2FA | backend/controllers/userController.js:449-551 | after setup and enabling, a correct-password login stops at the 2FA step without a session |
| AccountProperties.VerifiedIsNeverCleared | backend/controllers/userController.js:31-672 | after any run of requests to the modelled handlers, no account is removed and a verified account stays verified |
| MonthlySummary.SummaryPeriod | backend/controllers/emailController.js:97-100 | the month is in 1..12 and is the month before the current one, rolling over to December of the previous year |
| MonthlySummary.PeriodRollsOver | backend/controllers/emailController.js:97-100 | January gives (12, year − 1), any other month the month before it in the same year, and its name |
| MonthlySummary.Total | backend/controllers/emailController.js:30-35 | a sum of non-negative amounts is non-negative |
| MonthlySummary.TotalAppend | backend/controllers/emailController.js:30-35 | the sum of a concatenation is the sum of the sums |
| MonthlySummary.Highest | backend/controllers/emailController.js:38-39 | 0 without expenses, otherwise an amount present that no amount exceeds |
| MonthlySummary.HighestWithinTotal | backend/controllers/emailController.js:33-39 | with non-negative amounts the highest expense lies between 0 and the total |
| MonthlySummary.FirstAppearances | backend/controllers/emailController.js:42-47 | the object's keys are the distinct categories, each once |
| MonthlySummary.OccursIffPositive | backend/controllers/emailController.js:42-46 | a category is counted at least once exactly when it occurs |
| MonthlySummary.CountCategories | backend/controllers/emailController.js:42-46 | the loop builds one key per category in first-appearance order, counting its expenses |
| MonthlySummary.TopIndex | backend/controllers/emailController.js:47-52 | the reduce ends at a key with the largest count, and no later key has that count |
| MonthlySummary.TopCategory | backend/controllers/emailController.js:47-52 | "None" without keys, otherwise a key whose count no other key exceeds |
| MonthlySummary.TopCategoryTieRule | backend/controllers/emailController.js:47-52 | among tied keys, the earlier one is never chosen |
| MonthlySummary.SummaryOf | backend/controllers/emailController.js:9-90 | balance is income minus expenses; a month without expenses has highest expense 0 and top category "None"; with non-negative amounts the highest expense lies between 0 and the expense total |
| MonthlySummary.CalculateMonthlySummary | backend/controllers/emailController.js:9-90 | no summary exactly when the user is missing, otherwise the summary of the month's records |
| MonthlySummary.SummaryFields | backend/controllers/emailController.js:30-82 | balance = income − expenses; transactionCount = incomes + expenses; month name; highest expense and top category are taken from the expenses, or 0 and "None" without any |
| MonthlySummary.TopCategoryIsMostFrequent | backend/controllers/emailController.js:42-52 | no category occurs more often than the top one |
| MonthlySummary.CountersAddUp | backend/controllers/emailController.js:106-144 | each mailed user adds one to exactly one counter, so the counters add up to the mails sent, at most one per user |
| MonthlySummary.MailsCarrySummaries | backend/controllers/emailController.js:106-121 | every verified user with transactions is sent the summary of their own month, and every mail is a summary of the period with at least one transaction |
| MonthlySummary.SendMonthlySummaries | backend/controllers/emailController.js:93-152 | the previous month is summarised; the mails are exactly those of the run, each carrying the user's summary, in user order; delivered and failed mails are counted |
| Theme.SystemTheme | frontend/src/features/theme/themeSlice.js:4-6 | "dark" exactly when the system prefers dark, otherwise "light" |
| Theme.Honoured | frontend/src/features/theme/themeSlice.js:11 | a saved value is honoured only when it is a non-empty "light" or "dark" |
| Theme.InitialTheme | frontend/src/features/theme/themeSlice.js:9-16 | a saved "light" or "dark" wins; anything else gives the system theme |
| Theme.InitialThemeMode | frontend/src/features/theme/themeSlice.js:19-26 | always "light" or "dark" |
| Theme.InitialModeIsInitialTheme | frontend/src/features/theme/themeSlice.js:9-31 | the two initialisers agree, so the initial mode equals the initial theme |
| Theme.ReloadRestoresSavedMode | frontend/src/features/theme/themeSlice.js:10-42 | a saved mode comes back on reload exactly when it is "light" or "dark"; otherwise the system theme does |
| Theme.SavedSystemThemeIsSticky | frontend/src/features/theme/themeSlice.js:10-49 | a theme saved from the system preference survives a later change of preference |
| Theme.ThemeStore.constructor | frontend/src/features/theme/themeSlice.js:28-31 | the initial state from the saved value and the system preference, with mode = theme |
| Theme.ThemeStore.SetThemeMode | frontend/src/features/theme/themeSlice.js:37-42 | the payload becomes mode, theme and the saved value |
| Theme.ThemeStore.UpdateSystemTheme | frontend/src/features/theme/themeSlice.js:43-49 | the system theme becomes theme, mode and the saved value |
| Theme.SetThenReload | frontend/src/features/theme/themeSlice.js:9-42 | setting a mode and reloading gives it back exactly when it is "light" or "dark" |
| Dashboard.TotalOrZero | frontend/src/pages/ProtectedPages/MainDashboard.jsx:40 | a missing query or total counts as 0 |
| Dashboard.Balance | frontend/src/pages/ProtectedPages/MainDashboard.jsx:39-41 | the balance is the income total minus the expense total, a missing total counting as 0 |
| Dashboard.History | frontend/src/pages/ProtectedPages/MainDashboard.jsx:43-52 | the merged history has one entry per loaded income and expense |
| Dashboard.Tag | frontend/src/pages/ProtectedPages/MainDashboard.jsx:44-51 | every transaction is copied with the given tag |
| Dashboard.HistoryTagsEveryTransaction | frontend/src/pages/ProtectedPages/MainDashboard.jsx:43-52 | the merged list holds every income tagged income, then every expense tagged expense |
| Dashboard.SwapWithPrevious | frontend/src/pages/ProtectedPages/MainDashboard.jsx:53 | one exchange of neighbours keeps the same entries |
| Dashboard.InsertNewest | frontend/src/pages/ProtectedPages/MainDashboard.jsx:53 | one insertion step extends the newest-first prefix by one entry and keeps the same entries |
| Dashboard.SortNewestFirst | frontend/src/pages/ProtectedPages/MainDashboard.jsx:53 | the in-place sort leaves the entries newest first and is a permutation |
| Dashboard.PrefixIsNewest | frontend/src/pages/ProtectedPages/MainDashboard.jsx:53-54 | the first k entries of a newest-first list are at least as new as every other entry |
| Dashboard.RecentTransactions | frontend/src/pages/ProtectedPages/MainDashboard.jsx:53-54 | at most 3 entries, newest first, taken from the history, none older than an entry left out |
| Dashboard.DashboardPage.constructor | frontend/src/pages/ProtectedPages/MainDashboard.jsx:20-23 | zero totals and an empty history |
| Dashboard.DashboardPage.FetchData | frontend/src/pages/ProtectedPages/MainDashboard.jsx:29-61 | the totals of loaded queries are copied, the balance counts missing totals as 0, and the recent history is the three newest entries |
| Dashboard.ChartRows | frontend/src/pages/ProtectedPages/MainDashboard.jsx:63-88 | one placeholder row (0, 0) when either list is empty; otherwise one row per income, with the expense at the same index or 0 |
| Dashboard.TotalOfZeros | frontend/src/pages/ProtectedPages/MainDashboard.jsx:86 | rows padded with 0 add nothing to a chart total |
| Dashboard.ChartTotals | frontend/src/pages/ProtectedPages/MainDashboard.jsx:72-88 | the chart shows all income, and of the expenses exactly those that have an income at their index |

## Left out

- **Delegated work.** The following are not part of this model; each is a parameter or a function of `Env`:
  - TOTP code generation, secret generation, the otpauth URL and QR rendering (speakeasy, qrcode);
  - `bcrypt` hashing and comparison;
  - `crypto.randomBytes`;
  - `generateCookie`;
  - `sendOTPemail`, `OTPCooldown` and validations.js.
- **TOTP time steps.** The verifier window counts 30-second steps from the current time. The TOTP function of secret and step is abstract.
- **Mail delivery.** The nodemailer transport and its templates are left out. Handlers list the mails they send. Delivery failures are swallowed by every handler. The monthly run takes the transport's answer as input.
- **Formatting.** Intl number formatting, `toFixed`, `toLocaleString` and moment date formatting are left out. Amounts are exact reals; dates are integer timestamps. Chart labels keep the timestamp.
- **Scheduling.** The cron schedule and `setTimeout` delays of the monthly run are left out.
- **Concurrency.** Each request is one atomic step. Races on the resend cooldown and double use of a backup code under parallel requests are not modelled.
- **Handlers outside the modelled set.** `logoutUser` and `getCurrentUserProfile` do not decide anything the model states.
- **Failed database queries.** They only reach `catch` blocks. `calculateMonthlySummary` returning `null` on such an error is modelled only as a missing user.
- Accounts.AccountService.SendOtp: the reply to a served request is taken as 200 with an "OTP sent" body. The body is written by `sendOTPemail`, which is not part of this model.
- **`null` arguments.** Only omitted (`undefined`) values are modelled, as `None`.
- Currency.GetCurrencySymbol: takes strings only. A non-string key is not modelled.
- Accounts.FindByEmail: MongoDB does not specify which document an unsorted `findOne` returns; the model takes the first in insertion order, which matters only when emails repeat (usernames may repeat, so the same holds for Accounts.FindByUsername).
- Accounts.LatestAmong: the order among equal expiries is unspecified by the database; the model picks the first stored record.
- AccountProperties.BackupCodeIsSingleUse: holds only for distinct codes. Generation does not de-duplicate the eight random draws, and with a repeated code the same token is accepted twice (`AccountProperties.DuplicatedCodeWorksTwice`).
- TwoFactor.StripSpacesOfUpper: upper-casing is modelled for ASCII letters only. Unicode case mapping is not.
- Dashboard.SortNewestFirst: does not state that entries with equal dates keep their order, although `Array.prototype.sort` is stable. Invalid dates (a NaN comparison) are not modelled.
- Dashboard.DashboardPage.FetchData: the refetch calls and the error toast are left out.
- **Monthly summary keys.** Category names are taken to be neither integer-like nor inherited member names. For such names, JavaScript's key order and `|| 0` differ from plain counting.
- **Date-range queries.** The monthly records are given as input; the date-range filter is not modelled.
- **Backend symbol lookups.** The two backend `getCurrencySymbol` functions disagree on names inherited from `Object.prototype`: the one in backend/utils/currencyFormatter.js returns `undefined` there, although its JSDoc at lines 4-8 promises a string (`CurrencyFormat.AgreesWithCurrencyModule`).
