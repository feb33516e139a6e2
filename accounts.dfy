/**
 * backend/controllers/userController.js: the account handlers as a state machine over
 * the user collection, the OTP collection and the per-user OTP resend times.
 *
 * Each handler is given twice: as a function from a `Store` and the request to an
 * `Outcome` (the new store and the HTTP reply), which the lemmas reason about, and as a
 * method of `AccountService`, which changes its fields the way the handler changes the
 * database and is proved to agree with the function.
 *
 * A user's id is its position in `users` (insertion order, which is also the order in
 * which `findOne` meets documents). Hashing, TOTP code generation and the request
 * validators are the functions of an `Env`; the new hash, the new OTP record, the new
 * two-factor secret, the QR rendering, the random bytes and the current time are
 * parameters. Notification mails appear in the reply; their delivery failures are
 * swallowed by every handler and so are not modelled.
 */
module Accounts {
  import opened Common
  import Currency
  import TwoFactor
  import opened UserModel

  type UserId = nat

  /** `cooldownDuration` of `sendOTP`, in milliseconds. */
  const CooldownMillis: int := 60 * 1000

  /** One document of the OTP collection: the hashed code and its optional expiry. */
  datatype OtpRecord = OtpRecord(otp: string, expiresAt: Option<int>)

  /** The collections the handlers read and write. A user without an entry in `otps`
      has no OTP documents; one without an entry in `lastResend` has never been sent one. */
  datatype Store = Store(users: seq<Account>, otps: map<UserId, seq<OtpRecord>>, lastResend: map<UserId, int>)

  /** The collaborators: `bcrypt.compare(plain, hash)`, the TOTP code of a secret at a
      time step, and the validators of validations.js (an error message, or nothing). */
  datatype Env = Env(
    compare: (string, string) -> bool,
    totp: (string, int) -> string,
    usernameError: string -> Option<string>,
    emailError: string -> Option<string>,
    passwordError: string -> Option<string>)

  /** The `user` object a reply carries; absent fields are not part of that reply. */
  datatype View = View(
    id: UserId, username: string, email: string, verified: bool,
    currency: Option<string>, country: Option<string>, twoFactorEnabled: Option<bool>)

  /** The `error` a failing reply carries. `Rejected` passes on a validator's message;
      `ServerError` is the 500 reply Express sends when a handler throws. */
  datatype Reason =
    | EmailRegistered | UsernameTaken | EmailNotRegistered | EmailNotVerified | InvalidCredentials
    | UserNotFound | FieldRequired | NoChanges | EmailInUse | Rejected(message: string)
    | CurrencyRequired | InvalidCurrency | PasswordsRequired | SamePassword | InvalidOldPassword
    | CooldownActive | AlreadyVerified | NoValidOtp | OtpExpired | InvalidOtp
    | TwoFactorAlreadyOn | TokenRequired | SetupNotStarted | InvalidToken
    | TokenAndPasswordRequired | TwoFactorOff | InvalidPassword | EmailAndTokenRequired
    | InvalidBackupCode | ServerError

  datatype Body =
    | Failure(reason: Reason)
    | Unverified(user: View)
    | Requires2FA(email: string, user: View)
    | UserInfo(user: View)
    | Done
    | OtpSent
    | SetupStarted(qrCode: string, secret: string)
    | TwoFactorOn(backupCodes: seq<string>)
    | TwoFactorStatus(enabled: bool, hasBackupCodes: bool, remaining: nat)

  datatype MailKind =
    | Welcome
    | ProfileUpdate(fields: seq<string>)
    | CurrencyUpdate(oldCurrency: string, newCurrency: string, symbol: string)
    | PasswordReset
    | TwoFactorEnabled

  datatype Mail = Mail(to: string, kind: MailKind)

  /** The HTTP reply: status, JSON body, the user a session cookie is issued for (if
      any), and the notification mails sent. */
  datatype Reply = Reply(status: int, body: Body, session: Option<UserId>, mail: seq<Mail>)

  datatype Outcome = Outcome(store: Store, reply: Reply)

  function Fail(s: Store, status: int, reason: Reason): Outcome
  {
    Outcome(s, Reply(status, Failure(reason), None, []))
  }

  function Brief(id: UserId, a: Account): View
  {
    View(id, a.username, a.email, a.verified, None, None, None)
  }

  function WithLocale(id: UserId, a: Account): View
  {
    View(id, a.username, a.email, a.verified, Some(a.currency), Some(a.country), None)
  }

  function WithTwoFactor(id: UserId, a: Account): View
  {
    View(id, a.username, a.email, a.verified, None, None, Some(a.twoFactorEnabled))
  }

  function Full(id: UserId, a: Account): View
  {
    View(id, a.username, a.email, a.verified, Some(a.currency), Some(a.country), Some(a.twoFactorEnabled))
  }

  // ---------------------------------------------------------------------------
  // Queries
  // ---------------------------------------------------------------------------

  function FindEmailFrom(users: seq<Account>, email: string, k: nat): (r: Option<UserId>)
    requires k <= |users|
    ensures r.Some? ==> k <= r.value < |users| && users[r.value].email == email
                        && forall j :: k <= j < r.value ==> users[j].email != email
    ensures r.None? ==> forall j :: k <= j < |users| ==> users[j].email != email
    decreases |users| - k
  {
    if k == |users| then None
    else if users[k].email == email then Some(k)
    else FindEmailFrom(users, email, k + 1)
  }

  /** `User.findOne({ email })`: the first stored account with that email. */
  function FindByEmail(users: seq<Account>, email: string): (r: Option<UserId>)
    ensures r.Some? ==> r.value < |users| && users[r.value].email == email
                        && forall j :: 0 <= j < r.value ==> users[j].email != email
    ensures r.None? ==> forall j :: 0 <= j < |users| ==> users[j].email != email
  {
    FindEmailFrom(users, email, 0)
  }

  function FindUsernameFrom(users: seq<Account>, username: string, k: nat): (r: Option<UserId>)
    requires k <= |users|
    ensures r.Some? ==> k <= r.value < |users| && users[r.value].username == username
                        && forall j :: k <= j < r.value ==> users[j].username != username
    ensures r.None? ==> forall j :: k <= j < |users| ==> users[j].username != username
    decreases |users| - k
  {
    if k == |users| then None
    else if users[k].username == username then Some(k)
    else FindUsernameFrom(users, username, k + 1)
  }

  /** `User.findOne({ username })`. */
  function FindByUsername(users: seq<Account>, username: string): (r: Option<UserId>)
    ensures r.Some? ==> r.value < |users| && users[r.value].username == username
                        && forall j :: 0 <= j < r.value ==> users[j].username != username
    ensures r.None? ==> forall j :: 0 <= j < |users| ==> users[j].username != username
  {
    FindUsernameFrom(users, username, 0)
  }

  /** With unique emails, looking up a stored account's email finds that account. */
  lemma FindOwnEmail(users: seq<Account>, id: UserId)
    requires EmailsUnique(users)
    requires id < |users|
    ensures FindByEmail(users, users[id].email) == Some(id)
  {
  }

  /** The OTP documents of a user. */
  function OtpsOf(s: Store, id: UserId): seq<OtpRecord>
  {
    if id in s.otps then s.otps[id] else []
  }

  /** `a` sorts strictly before `b` under `sort({ expiresAt: -1 })`: a later expiry
      first, a missing expiry after every present one. */
  predicate Later(a: OtpRecord, b: OtpRecord)
  {
    a.expiresAt.Some? && (b.expiresAt.None? || a.expiresAt.value > b.expiresAt.value)
  }

  /** The index `findOne(...).sort({ expiresAt: -1 })` returns among the first `n`
      records: no record sorts before it, and it is the first of those that tie. */
  function LatestAmong(records: seq<OtpRecord>, n: nat): (r: nat)
    requires 1 <= n <= |records|
    ensures r < n
    ensures forall j :: 0 <= j < n ==> !Later(records[j], records[r])
    ensures forall j :: 0 <= j < r ==> Later(records[r], records[j])
  {
    if n == 1 then 0
    else
      var best := LatestAmong(records, n - 1);
      if Later(records[n - 1], records[best]) then n - 1 else best
  }

  // ---------------------------------------------------------------------------
  // Handlers as functions of the store
  // ---------------------------------------------------------------------------

  /** The store `s'` differs from `s` at most in the account `id`: no account is added
      or removed and the OTP and resend tables are untouched. */
  predicate OnlyAccountChanged(s: Store, s': Store, id: UserId)
  {
    |s'.users| == |s.users| && s'.otps == s.otps && s'.lastResend == s.lastResend
    && forall j :: 0 <= j < |s.users| && j != id ==> s'.users[j] == s.users[j]
  }

  /** No account of `s` has lost its `verified` flag in `s'`, and none was removed. */
  predicate KeepsVerified(s: Store, s': Store)
  {
    |s.users| <= |s'.users|
    && forall j :: 0 <= j < |s.users| && s.users[j].verified ==> s'.users[j].verified
  }

  /** `registerUser`, called with the hash of the password. */
  function RegisterSpec(s: Store, username: string, email: string, digest: string): (o: Outcome)
    ensures o.reply.status != 200 ==> o.store == s
    ensures o.reply.status == 200 ==>
              |o.store.users| == |s.users| + 1 && o.store.users[..|s.users|] == s.users
              && o.reply.session == Some(|s.users|)
    ensures o.store.otps == s.otps && o.store.lastResend == s.lastResend
    ensures KeepsVerified(s, o.store)
  {
    if FindByEmail(s.users, email).Some? then Fail(s, 400, EmailRegistered)
    else if FindByUsername(s.users, username).Some? then Fail(s, 400, UsernameTaken)
    else
      var account := NewAccount(username, email, digest);
      if !Savable(account) then Fail(s, 500, ServerError)
      else
        var id := |s.users|;
        Outcome(s.(users := s.users + [account]),
                Reply(200, UserInfo(Brief(id, account)), Some(id), [Mail(email, Welcome)]))
  }

  /** `loginUser`. */
  function LoginSpec(env: Env, s: Store, email: string, password: string): (o: Outcome)
    ensures o.store == s
    ensures o.reply.session.Some? ==>
              o.reply.status == 200 && o.reply.session.value < |s.users|
              && s.users[o.reply.session.value].email == email
              && s.users[o.reply.session.value].verified
              && !s.users[o.reply.session.value].twoFactorEnabled
    ensures KeepsVerified(s, o.store)
  {
    match FindByEmail(s.users, email)
    case None => Fail(s, 404, EmailNotRegistered)
    case Some(id) =>
      var a := s.users[id];
      if !a.verified then Outcome(s, Reply(401, Unverified(Brief(id, a)), None, []))
      else if !env.compare(password, a.password) then Fail(s, 401, InvalidCredentials)
      else if a.twoFactorEnabled then Outcome(s, Reply(200, Requires2FA(a.email, Full(id, a)), None, []))
      else Outcome(s, Reply(200, UserInfo(Full(id, a)), Some(id), []))
  }

  /** The `updatedFields` list, computed from the request and the record as it stands
      when the list is built. */
  function UpdatedFields(username: Option<string>, email: Option<string>, current: Account): (fields: seq<string>)
    ensures "Username" in fields <==> Given(username) && username.value != current.username
    ensures "Email Address" in fields <==> Given(email) && email.value != current.email
    ensures |fields| <= 2
  {
    (if Given(username) && username.value != current.username then ["Username"] else [])
    + (if Given(email) && email.value != current.email then ["Email Address"] else [])
  }

  /** `updateCurrentUserProfile` for the session's user `id`. */
  function ProfileSpec(env: Env, s: Store, id: UserId, username: Option<string>, email: Option<string>): (o: Outcome)
    ensures o.reply.status != 200 ==> o.store == s
    ensures OnlyAccountChanged(s, o.store, id)
    ensures o.reply.session.None?
    ensures KeepsVerified(s, o.store)
  {
    if id >= |s.users| then Fail(s, 404, UserNotFound)
    else
      var a := s.users[id];
      if !Given(username) && !Given(email) then Fail(s, 400, FieldRequired)
      else if username == Some(a.username) && email == Some(a.email) then Fail(s, 400, NoChanges)
      else if Given(email) && email.value != a.email && FindByEmail(s.users, email.value).Some? then
        Fail(s, 400, EmailInUse)
      else if Given(username) && Given(env.usernameError(username.value)) then
        Fail(s, 400, Rejected(env.usernameError(username.value).value))
      else if Given(email) && Given(env.emailError(email.value)) then
        Fail(s, 400, Rejected(env.emailError(email.value).value))
      else
        var renamed := if Given(username) then a.(username := username.value) else a;
        var updated := if Given(email) then renamed.(email := email.value) else renamed;
        var fields := UpdatedFields(username, email, updated);
        var mail := if |fields| > 0 then [Mail(updated.email, ProfileUpdate(fields))] else [];
        Outcome(s.(users := s.users[id := updated]), Reply(200, UserInfo(Brief(id, updated)), None, mail))
  }

  /** `getCurrencyFromCountry(country)` as a stored value; a non-string member would make
      the save fail, as the empty string (outside the enum) does. */
  function CountryFallback(country: Option<string>): (code: string)
    ensures code == "" || Currency.ParseCode(code).Some?
  {
    if country.None? then ""
    else
      match Currency.CurrencyFromCountry(country.value)
      case Own(code) => code
      case _ => ""
  }

  /** `updateUserCurrency` for the session's user `id`. */
  function CurrencySpec(s: Store, id: UserId, currency: Option<string>, country: Option<string>): (o: Outcome)
    ensures o.reply.status != 200 ==> o.store == s
    ensures OnlyAccountChanged(s, o.store, id)
    ensures o.reply.status == 200 ==> id < |s.users| && o.store.users[id].currency in CurrencyEnum
    ensures o.reply.status == 200 ==>
              Given(currency) && id < |s.users|
              && o.store.users == s.users[id := s.users[id].(currency := currency.value,
                                                           country := if Given(country) then country.value else s.users[id].country)]
    ensures o.reply.session.None?
    ensures KeepsVerified(s, o.store)
  {
    if id >= |s.users| then Fail(s, 404, UserNotFound)
    else if !Given(currency) then Fail(s, 400, CurrencyRequired)
    else if Currency.LookupConfig(currency.value).Absent? then Fail(s, 400, InvalidCurrency)
    else
      var final := if Given(country) && !Given(currency) then CountryFallback(country) else currency.value;
      var a := s.users[id];
      var oldCurrency := if a.currency != "" then a.currency else "USD";
      var updated := a.(currency := final, country := if Given(country) then country.value else a.country);
      if updated.currency !in CurrencyEnum then Fail(s, 500, ServerError)
      else
        var mail := if oldCurrency != final
                    then [Mail(a.email, CurrencyUpdate(oldCurrency, final, Currency.GetCurrencySymbol(final)))]
                    else [];
        Outcome(s.(users := s.users[id := updated]), Reply(200, UserInfo(WithLocale(id, updated)), None, mail))
  }

  /** `resetPassword` for the session's user `id`; `digest` is the new password's hash. */
  function ResetPasswordSpec(env: Env, s: Store, id: UserId, oldPassword: Option<string>,
                             newPassword: Option<string>, digest: string): (o: Outcome)
    ensures o.reply.status != 200 ==> o.store == s
    ensures OnlyAccountChanged(s, o.store, id)
    ensures o.reply.status == 200 ==> id < |s.users| && o.store.users[id] == s.users[id].(password := digest)
    ensures KeepsVerified(s, o.store)
  {
    if id >= |s.users| then Fail(s, 404, UserNotFound)
    else if !Given(oldPassword) || !Given(newPassword) then Fail(s, 400, PasswordsRequired)
    else if Given(env.passwordError(newPassword.value)) then
      Fail(s, 400, Rejected(env.passwordError(newPassword.value).value))
    else if oldPassword.value == newPassword.value then Fail(s, 400, SamePassword)
    else
      var a := s.users[id];
      if !env.compare(oldPassword.value, a.password) then Fail(s, 401, InvalidOldPassword)
      else
        Outcome(s.(users := s.users[id := a.(password := digest)]),
                Reply(200, Done, None, [Mail(a.email, PasswordReset)]))
  }

  /** The resend time is truthy and less than a minute old. */
  predicate InCooldown(s: Store, id: UserId, now: int)
    ensures InCooldown(s, id, now) ==> id in s.lastResend && now < s.lastResend[id] + CooldownMillis
  {
    id in s.lastResend && s.lastResend[id] != 0 && now - s.lastResend[id] < CooldownMillis
  }

  /** `sendOTP`: `issued` is the one record `sendOTPemail` stores. */
  function SendOtpSpec(s: Store, email: string, issued: OtpRecord, now: int): (o: Outcome)
    ensures o.store.users == s.users
    ensures o.reply.status != 200 ==> o.store == s
    ensures o.reply.status == 200 ==>
              FindByEmail(s.users, email).Some? && !InCooldown(s, FindByEmail(s.users, email).value, now)
              && o.store.otps == s.otps[FindByEmail(s.users, email).value := [issued]]
              && o.store.lastResend == s.lastResend[FindByEmail(s.users, email).value := now]
    ensures KeepsVerified(s, o.store)
  {
    match FindByEmail(s.users, email)
    case None => Fail(s, 404, EmailNotRegistered)
    case Some(id) =>
      if InCooldown(s, id, now) then Fail(s, 429, CooldownActive)
      else Outcome(s.(otps := s.otps[id := [issued]], lastResend := s.lastResend[id := now]),
                   Reply(200, OtpSent, None, []))
  }

  /** `verifyOTP`. */
  function VerifyOtpSpec(env: Env, s: Store, email: string, otp: string, now: int): (o: Outcome)
    ensures |o.store.users| == |s.users| && o.store.lastResend == s.lastResend
    ensures o.store.otps.Keys <= s.otps.Keys
    ensures o.reply.status != 200 ==> o.store.users == s.users
    ensures o.reply.session.None?
    ensures KeepsVerified(s, o.store)
  {
    match FindByEmail(s.users, email)
    case None => Fail(s, 404, UserNotFound)
    case Some(id) =>
      var a := s.users[id];
      if a.verified then Fail(s, 400, AlreadyVerified)
      else
        var records := OtpsOf(s, id);
        if |records| == 0 then Fail(s, 400, NoValidOtp)
        else
          var latest := records[LatestAmong(records, |records|)];
          if latest.expiresAt.Some? && latest.expiresAt.value < now then
            Fail(s.(otps := s.otps - {id}), 400, OtpExpired)
          else if !env.compare(otp, latest.otp) then Fail(s, 400, InvalidOtp)
          else
            var updated := a.(verified := true);
            Outcome(s.(users := s.users[id := updated], otps := s.otps - {id}),
                    Reply(200, UserInfo(Brief(id, updated)), None, []))
  }

  /** `setup2FA` for the session's user `id`: `secret` is the generated secret and
      `qrCode` the rendered QR code, `None` when rendering throws. */
  function Setup2FASpec(s: Store, id: UserId, secret: string, qrCode: Option<string>): (o: Outcome)
    ensures o.reply.status != 200 ==> o.store == s
    ensures OnlyAccountChanged(s, o.store, id)
    ensures o.reply.status == 200 ==> id < |s.users| && !s.users[id].twoFactorEnabled && qrCode.Some?
    ensures KeepsVerified(s, o.store)
  {
    if id >= |s.users| then Fail(s, 404, UserNotFound)
    else
      var a := s.users[id];
      if a.twoFactorEnabled then Fail(s, 400, TwoFactorAlreadyOn)
      else if qrCode.None? then Fail(s, 500, ServerError)
      else Outcome(s.(users := s.users[id := a.(twoFactorSecret := Some(secret))]),
                   Reply(200, SetupStarted(qrCode.value, secret), None, []))
  }

  /** `enable2FA` for the session's user `id`; `draws` are the random bytes of the
      backup codes. */
  function Enable2FASpec(env: Env, s: Store, id: UserId, token: Option<string>,
                         draws: seq<TwoFactor.Draw>, now: int): (o: Outcome)
    requires |draws| == TwoFactor.BackupCodeCount
    ensures o.reply.status != 200 ==> o.store == s
    ensures OnlyAccountChanged(s, o.store, id)
    ensures o.reply.status == 200 ==>
              id < |s.users| && o.store.users[id].twoFactorEnabled && |o.store.users[id].backupCodes| == TwoFactor.BackupCodeCount
    ensures o.reply.status == 200 ==>
              id < |s.users|
              && o.store.users == s.users[id := s.users[id].(twoFactorEnabled := true, backupCodes := TwoFactor.BackupCodesOf(draws))]
              && o.reply.mail == [Mail(s.users[id].email, TwoFactorEnabled)]
    ensures KeepsVerified(s, o.store)
  {
    if !Given(token) then Fail(s, 400, TokenRequired)
    else if id >= |s.users| then Fail(s, 404, UserNotFound)
    else
      var a := s.users[id];
      if !Given(a.twoFactorSecret) then Fail(s, 400, SetupNotStarted)
      else if !TwoFactor.VerifyToken(env.totp, a.twoFactorSecret.value, token.value, now) then
        Fail(s, 400, InvalidToken)
      else
        var codes := TwoFactor.BackupCodesOf(draws);
        Outcome(s.(users := s.users[id := a.(twoFactorEnabled := true, backupCodes := codes)]),
                Reply(200, TwoFactorOn(codes), None, [Mail(a.email, TwoFactorEnabled)]))
  }

  /** `disable2FA` for the session's user `id`. A missing secret makes the TOTP check
      throw. */
  function Disable2FASpec(env: Env, s: Store, id: UserId, token: Option<string>,
                          password: Option<string>, now: int): (o: Outcome)
    ensures o.reply.status != 200 ==> o.store == s
    ensures OnlyAccountChanged(s, o.store, id)
    ensures o.reply.status == 200 ==>
              id < |s.users| && s.users[id].twoFactorEnabled && !o.store.users[id].twoFactorEnabled
              && o.store.users[id].twoFactorSecret.None? && o.store.users[id].backupCodes == []
    ensures o.reply.status == 200 ==>
              id < |s.users|
              && o.store.users == s.users[id := s.users[id].(twoFactorEnabled := false, twoFactorSecret := None, backupCodes := [])]
    ensures o.reply.status == 200 <==>
              Given(token) && Given(password) && id < |s.users| && s.users[id].twoFactorEnabled
              && env.compare(password.value, s.users[id].password) && s.users[id].twoFactorSecret.Some?
              && TwoFactor.VerifyToken(env.totp, s.users[id].twoFactorSecret.value, token.value, now)
    ensures KeepsVerified(s, o.store)
  {
    if !Given(token) || !Given(password) then Fail(s, 400, TokenAndPasswordRequired)
    else if id >= |s.users| then Fail(s, 404, UserNotFound)
    else
      var a := s.users[id];
      if !a.twoFactorEnabled then Fail(s, 400, TwoFactorOff)
      else if !env.compare(password.value, a.password) then Fail(s, 400, InvalidPassword)
      else if a.twoFactorSecret.None? then Fail(s, 500, ServerError)
      else if !TwoFactor.VerifyToken(env.totp, a.twoFactorSecret.value, token.value, now) then
        Fail(s, 400, InvalidToken)
      else
        Outcome(s.(users := s.users[id := a.(twoFactorEnabled := false, twoFactorSecret := None, backupCodes := [])]),
                Reply(200, Done, None, []))
  }

  /** `verify2FA`: reached without a session, the account is found by email. */
  function Verify2FASpec(env: Env, s: Store, email: Option<string>, token: Option<string>,
                         isBackupCode: bool, now: int): (o: Outcome)
    ensures o.reply.status != 200 ==> o.store == s && o.reply.session.None?
    ensures o.reply.status == 200 ==>
              email.Some? && o.reply.session.Some? && o.reply.session.value < |s.users|
              && s.users[o.reply.session.value].email == email.value
              && s.users[o.reply.session.value].twoFactorEnabled
              && OnlyAccountChanged(s, o.store, o.reply.session.value)
    ensures Given(email) && Given(token) && !isBackupCode ==>
              (o.reply.status == 200 <==>
                 FindByEmail(s.users, email.value).Some?
                 && s.users[FindByEmail(s.users, email.value).value].twoFactorEnabled
                 && s.users[FindByEmail(s.users, email.value).value].twoFactorSecret.Some?
                 && TwoFactor.VerifyToken(env.totp, s.users[FindByEmail(s.users, email.value).value].twoFactorSecret.value,
                                          token.value, now))
    ensures Given(email) && Given(token) && isBackupCode ==>
              (o.reply.status == 200 <==>
                 FindByEmail(s.users, email.value).Some?
                 && s.users[FindByEmail(s.users, email.value).value].twoFactorEnabled
                 && TwoFactor.VerifyBackupCode(s.users[FindByEmail(s.users, email.value).value].backupCodes,
                                               token.value).Found?)
    ensures KeepsVerified(s, o.store)
  {
    if !Given(email) || !Given(token) then Fail(s, 400, EmailAndTokenRequired)
    else
      match FindByEmail(s.users, email.value)
      case None => Fail(s, 404, UserNotFound)
      case Some(id) =>
        var a := s.users[id];
        if !a.twoFactorEnabled then Fail(s, 400, TwoFactorOff)
        else if isBackupCode then
          match TwoFactor.VerifyBackupCode(a.backupCodes, token.value)
          case NotFound => Fail(s, 400, InvalidBackupCode)
          case Found(i) =>
            Outcome(s.(users := s.users[id := a.(backupCodes := TwoFactor.RemoveAt(a.backupCodes, i))]),
                    Reply(200, UserInfo(WithTwoFactor(id, a)), Some(id), []))
        else if a.twoFactorSecret.None? then Fail(s, 500, ServerError)
        else if !TwoFactor.VerifyToken(env.totp, a.twoFactorSecret.value, token.value, now) then
          Fail(s, 400, InvalidToken)
        else Outcome(s, Reply(200, UserInfo(WithTwoFactor(id, a)), Some(id), []))
  }

  /** `get2FAStatus` for the session's user `id`. */
  function TwoFactorStatusSpec(s: Store, id: UserId): (o: Outcome)
    ensures o.store == s
    ensures o.reply.status == 200 <==> id < |s.users|
    ensures KeepsVerified(s, o.store)
  {
    if id >= |s.users| then Fail(s, 404, UserNotFound)
    else
      var codes := s.users[id].backupCodes;
      Outcome(s, Reply(200, TwoFactorStatus(s.users[id].twoFactorEnabled, |codes| > 0, |codes|), None, []))
  }

  // ---------------------------------------------------------------------------
  // The store invariant and its preservation
  // ---------------------------------------------------------------------------

  /** What every stored account satisfies: the schema's required paths and currency
      enum, and two-factor login switched on only with a secret to check tokens against. */
  predicate AccountOk(a: Account)
  {
    a.username != "" && a.email != "" && a.currency in CurrencyEnum
    && (a.twoFactorEnabled ==> Given(a.twoFactorSecret))
  }

  predicate Consistent(s: Store)
  {
    EmailsUnique(s.users) && forall i :: 0 <= i < |s.users| ==> AccountOk(s.users[i])
  }

  /** Replacing one account by an acceptable one with the same or an unused email keeps
      the store consistent. */
  lemma ReplaceKeepsConsistent(s: Store, id: UserId, a: Account, s': Store)
    requires Consistent(s) && id < |s.users| && AccountOk(a)
    requires a.email == s.users[id].email || FindByEmail(s.users, a.email).None?
    requires s'.users == s.users[id := a]
    ensures Consistent(s')
  {
    forall i, j | 0 <= i < j < |s'.users| ensures s'.users[i].email != s'.users[j].email {
      if i != id && j != id {
        assert s'.users[i] == s.users[i] && s'.users[j] == s.users[j];
      }
    }
  }

  lemma RegisterKeepsConsistent(s: Store, username: string, email: string, digest: string)
    requires Consistent(s)
    ensures Consistent(RegisterSpec(s, username, email, digest).store)
  {
    var o := RegisterSpec(s, username, email, digest);
    if o.reply.status == 200 {
      NewAccountDefaults(username, email, digest);
      assert "USD" == CurrencyEnum[0];
      forall i, j | 0 <= i < j < |o.store.users| ensures o.store.users[i].email != o.store.users[j].email {
        if j == |s.users| {
          assert o.store.users[i] == s.users[i];
        } else {
          assert o.store.users[i] == s.users[i] && o.store.users[j] == s.users[j];
        }
      }
      assert forall i :: 0 <= i < |s.users| ==> o.store.users[i] == s.users[i];
    }
  }

  lemma ProfileKeepsConsistent(env: Env, s: Store, id: UserId, username: Option<string>, email: Option<string>)
    requires Consistent(s)
    ensures Consistent(ProfileSpec(env, s, id, username, email).store)
  {
    var o := ProfileSpec(env, s, id, username, email);
    if o.reply.status == 200 {
      ReplaceKeepsConsistent(s, id, o.store.users[id], o.store);
    }
  }

  lemma CurrencyKeepsConsistent(s: Store, id: UserId, currency: Option<string>, country: Option<string>)
    requires Consistent(s)
    ensures Consistent(CurrencySpec(s, id, currency, country).store)
  {
    var o := CurrencySpec(s, id, currency, country);
    if o.reply.status == 200 {
      ReplaceKeepsConsistent(s, id, o.store.users[id], o.store);
    }
  }

  lemma ResetPasswordKeepsConsistent(env: Env, s: Store, id: UserId, oldPassword: Option<string>,
                                     newPassword: Option<string>, digest: string)
    requires Consistent(s)
    ensures Consistent(ResetPasswordSpec(env, s, id, oldPassword, newPassword, digest).store)
  {
    var o := ResetPasswordSpec(env, s, id, oldPassword, newPassword, digest);
    if o.reply.status == 200 {
      ReplaceKeepsConsistent(s, id, o.store.users[id], o.store);
    }
  }

  lemma SendOtpKeepsConsistent(s: Store, email: string, issued: OtpRecord, now: int)
    requires Consistent(s)
    ensures Consistent(SendOtpSpec(s, email, issued, now).store)
  {
  }

  lemma VerifyOtpKeepsConsistent(env: Env, s: Store, email: string, otp: string, now: int)
    requires Consistent(s)
    ensures Consistent(VerifyOtpSpec(env, s, email, otp, now).store)
  {
    var o := VerifyOtpSpec(env, s, email, otp, now);
    if o.reply.status == 200 {
      var id := FindByEmail(s.users, email).value;
      ReplaceKeepsConsistent(s, id, o.store.users[id], o.store);
    }
  }

  lemma Setup2FAKeepsConsistent(s: Store, id: UserId, secret: string, qrCode: Option<string>)
    requires Consistent(s)
    ensures Consistent(Setup2FASpec(s, id, secret, qrCode).store)
  {
    var o := Setup2FASpec(s, id, secret, qrCode);
    if o.reply.status == 200 {
      ReplaceKeepsConsistent(s, id, o.store.users[id], o.store);
    }
  }

  lemma Enable2FAKeepsConsistent(env: Env, s: Store, id: UserId, token: Option<string>,
                                 draws: seq<TwoFactor.Draw>, now: int)
    requires Consistent(s) && |draws| == TwoFactor.BackupCodeCount
    ensures Consistent(Enable2FASpec(env, s, id, token, draws, now).store)
  {
    var o := Enable2FASpec(env, s, id, token, draws, now);
    if o.reply.status == 200 {
      ReplaceKeepsConsistent(s, id, o.store.users[id], o.store);
    }
  }

  lemma Disable2FAKeepsConsistent(env: Env, s: Store, id: UserId, token: Option<string>,
                                  password: Option<string>, now: int)
    requires Consistent(s)
    ensures Consistent(Disable2FASpec(env, s, id, token, password, now).store)
  {
    var o := Disable2FASpec(env, s, id, token, password, now);
    if o.reply.status == 200 {
      ReplaceKeepsConsistent(s, id, o.store.users[id], o.store);
    }
  }

  lemma Verify2FAKeepsConsistent(env: Env, s: Store, email: Option<string>, token: Option<string>,
                                 isBackupCode: bool, now: int)
    requires Consistent(s)
    ensures Consistent(Verify2FASpec(env, s, email, token, isBackupCode, now).store)
  {
    var o := Verify2FASpec(env, s, email, token, isBackupCode, now);
    if o.reply.status == 200 && o.store != s {
      var id := FindByEmail(s.users, email.value).value;
      ReplaceKeepsConsistent(s, id, o.store.users[id], o.store);
    }
  }

  // ---------------------------------------------------------------------------
  // Runs of requests
  // ---------------------------------------------------------------------------

  /** One request to a modelled route, with what the handler is given. */
  datatype Request =
    | RegisterReq(username: string, email: string, digest: string)
    | LoginReq(email: string, password: string)
    | ProfileReq(id: UserId, newUsername: Option<string>, newEmail: Option<string>)
    | CurrencyReq(id: UserId, currency: Option<string>, country: Option<string>)
    | ResetPasswordReq(id: UserId, oldPassword: Option<string>, newPassword: Option<string>, digest: string)
    | SendOtpReq(email: string, issued: OtpRecord, now: int)
    | VerifyOtpReq(email: string, otp: string, now: int)
    | Setup2FAReq(id: UserId, secret: string, qrCode: Option<string>)
    | Enable2FAReq(id: UserId, token: Option<string>, draws: seq<TwoFactor.Draw>, now: int)
    | Disable2FAReq(id: UserId, token: Option<string>, confirmPassword: Option<string>, now: int)
    | Verify2FAReq(loginEmail: Option<string>, token: Option<string>, isBackupCode: bool, now: int)
    | TwoFactorStatusReq(id: UserId)

  /** `enable2FA` always draws eight random values. */
  predicate WellFormedRequest(r: Request)
  {
    r.Enable2FAReq? ==> |r.draws| == TwoFactor.BackupCodeCount
  }

  /** The route a request reaches, as a function of the store. */
  function Handle(env: Env, s: Store, r: Request): Outcome
    requires WellFormedRequest(r)
  {
    match r
    case RegisterReq(username, email, digest) => RegisterSpec(s, username, email, digest)
    case LoginReq(email, password) => LoginSpec(env, s, email, password)
    case ProfileReq(id, newUsername, newEmail) => ProfileSpec(env, s, id, newUsername, newEmail)
    case CurrencyReq(id, currency, country) => CurrencySpec(s, id, currency, country)
    case ResetPasswordReq(id, oldPassword, newPassword, digest) =>
      ResetPasswordSpec(env, s, id, oldPassword, newPassword, digest)
    case SendOtpReq(email, issued, now) => SendOtpSpec(s, email, issued, now)
    case VerifyOtpReq(email, otp, now) => VerifyOtpSpec(env, s, email, otp, now)
    case Setup2FAReq(id, secret, qrCode) => Setup2FASpec(s, id, secret, qrCode)
    case Enable2FAReq(id, token, draws, now) => Enable2FASpec(env, s, id, token, draws, now)
    case Disable2FAReq(id, token, confirmPassword, now) => Disable2FASpec(env, s, id, token, confirmPassword, now)
    case Verify2FAReq(loginEmail, token, isBackupCode, now) => Verify2FASpec(env, s, loginEmail, token, isBackupCode, now)
    case TwoFactorStatusReq(id) => TwoFactorStatusSpec(s, id)
  }

  /** The store after serving `reqs` one after the other. */
  function Run(env: Env, s: Store, reqs: seq<Request>): Store
    requires forall i :: 0 <= i < |reqs| ==> WellFormedRequest(reqs[i])
    decreases |reqs|
  {
    if |reqs| == 0 then s
    else Run(env, Handle(env, s, reqs[0]).store, reqs[1..])
  }

  lemma HandleKeepsConsistent(env: Env, s: Store, r: Request)
    requires WellFormedRequest(r) && Consistent(s)
    ensures Consistent(Handle(env, s, r).store)
  {
    match r
    case RegisterReq(username, email, digest) => RegisterKeepsConsistent(s, username, email, digest);
    case LoginReq(_, _) =>
    case ProfileReq(id, newUsername, newEmail) => ProfileKeepsConsistent(env, s, id, newUsername, newEmail);
    case CurrencyReq(id, currency, country) => CurrencyKeepsConsistent(s, id, currency, country);
    case ResetPasswordReq(id, oldPassword, newPassword, digest) =>
      ResetPasswordKeepsConsistent(env, s, id, oldPassword, newPassword, digest);
    case SendOtpReq(email, issued, now) => SendOtpKeepsConsistent(s, email, issued, now);
    case VerifyOtpReq(email, otp, now) => VerifyOtpKeepsConsistent(env, s, email, otp, now);
    case Setup2FAReq(id, secret, qrCode) => Setup2FAKeepsConsistent(s, id, secret, qrCode);
    case Enable2FAReq(id, token, draws, now) => Enable2FAKeepsConsistent(env, s, id, token, draws, now);
    case Disable2FAReq(id, token, confirmPassword, now) => Disable2FAKeepsConsistent(env, s, id, token, confirmPassword, now);
    case Verify2FAReq(loginEmail, token, isBackupCode, now) =>
      Verify2FAKeepsConsistent(env, s, loginEmail, token, isBackupCode, now);
    case TwoFactorStatusReq(_) =>
  }

  /** The store invariant holds after any run of requests that starts from a store where
      it holds. */
  lemma {:induction false} RunKeepsConsistent(env: Env, s: Store, reqs: seq<Request>)
    requires forall i :: 0 <= i < |reqs| ==> WellFormedRequest(reqs[i])
    requires Consistent(s)
    ensures Consistent(Run(env, s, reqs))
    decreases |reqs|
  {
    if |reqs| > 0 {
      HandleKeepsConsistent(env, s, reqs[0]);
      RunKeepsConsistent(env, Handle(env, s, reqs[0]).store, reqs[1..]);
    }
  }

  // ---------------------------------------------------------------------------
  // The service object
  // ---------------------------------------------------------------------------

  /** The server's view of the database: the handlers update these fields in place. */
  class AccountService {
    var users: seq<Account>
    var otps: map<UserId, seq<OtpRecord>>
    var lastResend: map<UserId, int>
    const env: Env

    /** An empty database. */
    constructor(env: Env)
      ensures State() == Store([], map[], map[]) && this.env == env
      ensures Valid()
    {
      users := [];
      otps := map[];
      lastResend := map[];
      this.env := env;
    }

    function State(): Store
      reads this
    {
      Store(users, otps, lastResend)
    }

    predicate Valid()
      reads this
    {
      Consistent(State())
    }

    method Register(username: string, email: string, digest: string) returns (reply: Reply)
      requires Valid()
      modifies this
      ensures Valid()
      ensures Outcome(State(), reply) == RegisterSpec(old(State()), username, email, digest)
    {
      RegisterKeepsConsistent(State(), username, email, digest);
      if FindByEmail(users, email).Some? {
        return Reply(400, Failure(EmailRegistered), None, []);
      }
      if FindByUsername(users, username).Some? {
        return Reply(400, Failure(UsernameTaken), None, []);
      }
      var account := NewAccount(username, email, digest);
      if !Savable(account) {
        return Reply(500, Failure(ServerError), None, []);
      }
      var id := |users|;
      users := users + [account];
      reply := Reply(200, UserInfo(Brief(id, account)), Some(id), [Mail(email, Welcome)]);
    }

    method Login(email: string, password: string) returns (reply: Reply)
      ensures Outcome(State(), reply) == LoginSpec(env, State(), email, password)
    {
      var found := FindByEmail(users, email);
      if found.None? {
        return Reply(404, Failure(EmailNotRegistered), None, []);
      }
      var id := found.value;
      var a := users[id];
      if !a.verified {
        return Reply(401, Unverified(Brief(id, a)), None, []);
      }
      if !env.compare(password, a.password) {
        return Reply(401, Failure(InvalidCredentials), None, []);
      }
      if a.twoFactorEnabled {
        return Reply(200, Requires2FA(a.email, Full(id, a)), None, []);
      }
      reply := Reply(200, UserInfo(Full(id, a)), Some(id), []);
    }

    method UpdateProfile(id: UserId, username: Option<string>, email: Option<string>) returns (reply: Reply)
      requires Valid()
      modifies this
      ensures Valid()
      ensures Outcome(State(), reply) == ProfileSpec(env, old(State()), id, username, email)
    {
      ProfileKeepsConsistent(env, State(), id, username, email);
      if id >= |users| {
        return Reply(404, Failure(UserNotFound), None, []);
      }
      var user := users[id];
      if !Given(username) && !Given(email) {
        return Reply(400, Failure(FieldRequired), None, []);
      }
      if username == Some(user.username) && email == Some(user.email) {
        return Reply(400, Failure(NoChanges), None, []);
      }
      if Given(email) && email.value != user.email {
        if FindByEmail(users, email.value).Some? {
          return Reply(400, Failure(EmailInUse), None, []);
        }
      }
      if Given(username) {
        var error := env.usernameError(username.value);
        if Given(error) {
          return Reply(400, Failure(Rejected(error.value)), None, []);
        }
        user := user.(username := username.value);
      }
      if Given(email) {
        var error := env.emailError(email.value);
        if Given(error) {
          return Reply(400, Failure(Rejected(error.value)), None, []);
        }
        user := user.(email := email.value);
      }
      users := users[id := user];
      var updatedFields: seq<string> := [];
      if Given(username) && username.value != user.username {
        updatedFields := updatedFields + ["Username"];
      }
      if Given(email) && email.value != user.email {
        updatedFields := updatedFields + ["Email Address"];
      }
      var mail: seq<Mail> := [];
      if |updatedFields| > 0 {
        mail := [Mail(user.email, ProfileUpdate(updatedFields))];
      }
      reply := Reply(200, UserInfo(Brief(id, user)), None, mail);
    }

    method UpdateCurrency(id: UserId, currency: Option<string>, country: Option<string>) returns (reply: Reply)
      requires Valid()
      modifies this
      ensures Valid()
      ensures Outcome(State(), reply) == CurrencySpec(old(State()), id, currency, country)
    {
      CurrencyKeepsConsistent(State(), id, currency, country);
      if id >= |users| {
        return Reply(404, Failure(UserNotFound), None, []);
      }
      if !Given(currency) {
        return Reply(400, Failure(CurrencyRequired), None, []);
      }
      if Currency.LookupConfig(currency.value).Absent? {
        return Reply(400, Failure(InvalidCurrency), None, []);
      }
      var finalCurrency := currency.value;
      if Given(country) && !Given(currency) {
        finalCurrency := CountryFallback(country);
      }
      var user := users[id];
      var oldCurrency := if user.currency != "" then user.currency else "USD";
      user := user.(currency := finalCurrency);
      if Given(country) {
        user := user.(country := country.value);
      }
      if user.currency !in CurrencyEnum {
        return Reply(500, Failure(ServerError), None, []);
      }
      users := users[id := user];
      var mail: seq<Mail> := [];
      if oldCurrency != finalCurrency {
        mail := [Mail(user.email, CurrencyUpdate(oldCurrency, finalCurrency, Currency.GetCurrencySymbol(finalCurrency)))];
      }
      reply := Reply(200, UserInfo(WithLocale(id, user)), None, mail);
    }

    method ResetPassword(id: UserId, oldPassword: Option<string>, newPassword: Option<string>, digest: string)
      returns (reply: Reply)
      requires Valid()
      modifies this
      ensures Valid()
      ensures Outcome(State(), reply) == ResetPasswordSpec(env, old(State()), id, oldPassword, newPassword, digest)
    {
      ResetPasswordKeepsConsistent(env, State(), id, oldPassword, newPassword, digest);
      if id >= |users| {
        return Reply(404, Failure(UserNotFound), None, []);
      }
      if !Given(oldPassword) || !Given(newPassword) {
        return Reply(400, Failure(PasswordsRequired), None, []);
      }
      var error := env.passwordError(newPassword.value);
      if Given(error) {
        return Reply(400, Failure(Rejected(error.value)), None, []);
      }
      if oldPassword.value == newPassword.value {
        return Reply(400, Failure(SamePassword), None, []);
      }
      var user := users[id];
      if !env.compare(oldPassword.value, user.password) {
        return Reply(401, Failure(InvalidOldPassword), None, []);
      }
      users := users[id := user.(password := digest)];
      reply := Reply(200, Done, None, [Mail(user.email, PasswordReset)]);
    }

    method SendOtp(email: string, issued: OtpRecord, now: int) returns (reply: Reply)
      requires Valid()
      modifies this
      ensures Valid()
      ensures Outcome(State(), reply) == SendOtpSpec(old(State()), email, issued, now)
    {
      var found := FindByEmail(users, email);
      if found.None? {
        return Reply(404, Failure(EmailNotRegistered), None, []);
      }
      var id := found.value;
      if id in lastResend && lastResend[id] != 0 && now - lastResend[id] < CooldownMillis {
        return Reply(429, Failure(CooldownActive), None, []);
      }
      otps := otps - {id};
      otps := otps[id := [issued]];
      lastResend := lastResend[id := now];
      reply := Reply(200, OtpSent, None, []);
      assert otps == old(otps)[id := [issued]];
    }

    method VerifyOtp(email: string, otp: string, now: int) returns (reply: Reply)
      requires Valid()
      modifies this
      ensures Valid()
      ensures Outcome(State(), reply) == VerifyOtpSpec(env, old(State()), email, otp, now)
    {
      VerifyOtpKeepsConsistent(env, State(), email, otp, now);
      var found := FindByEmail(users, email);
      if found.None? {
        return Reply(404, Failure(UserNotFound), None, []);
      }
      var id := found.value;
      if users[id].verified {
        return Reply(400, Failure(AlreadyVerified), None, []);
      }
      var records := if id in otps then otps[id] else [];
      if |records| == 0 {
        return Reply(400, Failure(NoValidOtp), None, []);
      }
      var latest := records[LatestAmong(records, |records|)];
      if latest.expiresAt.Some? && latest.expiresAt.value < now {
        otps := otps - {id};
        return Reply(400, Failure(OtpExpired), None, []);
      }
      if !env.compare(otp, latest.otp) {
        return Reply(400, Failure(InvalidOtp), None, []);
      }
      users := users[id := users[id].(verified := true)];
      otps := otps - {id};
      reply := Reply(200, UserInfo(Brief(id, users[id])), None, []);
    }

    method Setup2FA(id: UserId, secret: string, qrCode: Option<string>) returns (reply: Reply)
      requires Valid()
      modifies this
      ensures Valid()
      ensures Outcome(State(), reply) == Setup2FASpec(old(State()), id, secret, qrCode)
    {
      Setup2FAKeepsConsistent(State(), id, secret, qrCode);
      if id >= |users| {
        return Reply(404, Failure(UserNotFound), None, []);
      }
      if users[id].twoFactorEnabled {
        return Reply(400, Failure(TwoFactorAlreadyOn), None, []);
      }
      if qrCode.None? {
        return Reply(500, Failure(ServerError), None, []);
      }
      users := users[id := users[id].(twoFactorSecret := Some(secret))];
      reply := Reply(200, SetupStarted(qrCode.value, secret), None, []);
    }

    method Enable2FA(id: UserId, token: Option<string>, draws: seq<TwoFactor.Draw>, now: int) returns (reply: Reply)
      requires Valid() && |draws| == TwoFactor.BackupCodeCount
      modifies this
      ensures Valid()
      ensures Outcome(State(), reply) == Enable2FASpec(env, old(State()), id, token, draws, now)
    {
      Enable2FAKeepsConsistent(env, State(), id, token, draws, now);
      if !Given(token) {
        return Reply(400, Failure(TokenRequired), None, []);
      }
      if id >= |users| {
        return Reply(404, Failure(UserNotFound), None, []);
      }
      var user := users[id];
      if !Given(user.twoFactorSecret) {
        return Reply(400, Failure(SetupNotStarted), None, []);
      }
      if !TwoFactor.VerifyToken(env.totp, user.twoFactorSecret.value, token.value, now) {
        return Reply(400, Failure(InvalidToken), None, []);
      }
      var backupCodes := TwoFactor.GenerateBackupCodes(draws);
      users := users[id := user.(twoFactorEnabled := true, backupCodes := backupCodes)];
      reply := Reply(200, TwoFactorOn(backupCodes), None, [Mail(user.email, TwoFactorEnabled)]);
    }

    method Disable2FA(id: UserId, token: Option<string>, password: Option<string>, now: int) returns (reply: Reply)
      requires Valid()
      modifies this
      ensures Valid()
      ensures Outcome(State(), reply) == Disable2FASpec(env, old(State()), id, token, password, now)
    {
      Disable2FAKeepsConsistent(env, State(), id, token, password, now);
      if !Given(token) || !Given(password) {
        return Reply(400, Failure(TokenAndPasswordRequired), None, []);
      }
      if id >= |users| {
        return Reply(404, Failure(UserNotFound), None, []);
      }
      var user := users[id];
      if !user.twoFactorEnabled {
        return Reply(400, Failure(TwoFactorOff), None, []);
      }
      if !env.compare(password.value, user.password) {
        return Reply(400, Failure(InvalidPassword), None, []);
      }
      if user.twoFactorSecret.None? {
        return Reply(500, Failure(ServerError), None, []);
      }
      if !TwoFactor.VerifyToken(env.totp, user.twoFactorSecret.value, token.value, now) {
        return Reply(400, Failure(InvalidToken), None, []);
      }
      users := users[id := user.(twoFactorEnabled := false, twoFactorSecret := None, backupCodes := [])];
      reply := Reply(200, Done, None, []);
    }

    method Verify2FA(email: Option<string>, token: Option<string>, isBackupCode: bool, now: int) returns (reply: Reply)
      requires Valid()
      modifies this
      ensures Valid()
      ensures Outcome(State(), reply) == Verify2FASpec(env, old(State()), email, token, isBackupCode, now)
    {
      Verify2FAKeepsConsistent(env, State(), email, token, isBackupCode, now);
      if !Given(email) || !Given(token) {
        return Reply(400, Failure(EmailAndTokenRequired), None, []);
      }
      var found := FindByEmail(users, email.value);
      if found.None? {
        return Reply(404, Failure(UserNotFound), None, []);
      }
      var id := found.value;
      var user := users[id];
      if !user.twoFactorEnabled {
        return Reply(400, Failure(TwoFactorOff), None, []);
      }
      var isValid := false;
      if isBackupCode {
        var backupCodeIndex := TwoFactor.VerifyBackupCode(user.backupCodes, token.value);
        if backupCodeIndex.Found? {
          var updatedBackupCodes := user.backupCodes;
          updatedBackupCodes := TwoFactor.RemoveAt(updatedBackupCodes, backupCodeIndex.index);
          users := users[id := user.(backupCodes := updatedBackupCodes)];
          isValid := true;
        }
      } else {
        if user.twoFactorSecret.None? {
          return Reply(500, Failure(ServerError), None, []);
        }
        isValid := TwoFactor.VerifyToken(env.totp, user.twoFactorSecret.value, token.value, now);
      }
      if !isValid {
        return Reply(400, Failure(if isBackupCode then InvalidBackupCode else InvalidToken), None, []);
      }
      reply := Reply(200, UserInfo(WithTwoFactor(id, user)), Some(id), []);
    }

    method GetTwoFactorStatus(id: UserId) returns (reply: Reply)
      ensures Outcome(State(), reply) == TwoFactorStatusSpec(State(), id)
    {
      if id >= |users| {
        return Reply(404, Failure(UserNotFound), None, []);
      }
      var codes := users[id].backupCodes;
      reply := Reply(200, TwoFactorStatus(users[id].twoFactorEnabled, |codes| > 0, |codes|), None, []);
    }
  }
}
