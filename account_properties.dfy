/**
 * What the handlers of backend/controllers/userController.js promise, one lemma per
 * property, stated over the handler functions of module Accounts.
 */
module AccountProperties {
  import opened Common
  import Currency
  import TwoFactor
  import opened UserModel
  import opened Accounts

  // ---------------------------------------------------------------------------
  // Lookups
  // ---------------------------------------------------------------------------

  /** Changing anything but emails does not change what `findOne({ email })` finds. */
  lemma FindByEmailIgnoresOtherFields(u1: seq<Account>, u2: seq<Account>, email: string)
    requires |u1| == |u2|
    requires forall i :: 0 <= i < |u1| ==> u1[i].email == u2[i].email
    ensures FindByEmail(u1, email) == FindByEmail(u2, email)
  {
  }

  /** Replacing one account by one with the same email keeps every email lookup. */
  lemma FindAfterReplace(users: seq<Account>, id: UserId, a: Account, email: string)
    requires id < |users| && a.email == users[id].email
    ensures FindByEmail(users[id := a], email) == FindByEmail(users, email)
  {
    FindByEmailIgnoresOtherFields(users, users[id := a], email);
  }

  // ---------------------------------------------------------------------------
  // registerUser
  // ---------------------------------------------------------------------------

  /** A taken email is reported before a taken username is looked at. */
  lemma RegisterChecksEmailFirst(s: Store, username: string, email: string, digest: string)
    requires FindByEmail(s.users, email).Some?
    requires FindByUsername(s.users, username).Some?
    ensures RegisterSpec(s, username, email, digest) == Fail(s, 400, EmailRegistered)
  {
  }

  /** Registration succeeds exactly for a fresh email and username with every required
      field filled; it then appends one unverified default account, mails a welcome and
      issues a session for the new account. */
  lemma RegisterOutcome(s: Store, username: string, email: string, digest: string)
    ensures var o := RegisterSpec(s, username, email, digest);
            o.reply.status == 200 <==>
              (forall j :: 0 <= j < |s.users| ==> s.users[j].email != email && s.users[j].username != username)
              && username != "" && email != "" && digest != ""
    ensures var o := RegisterSpec(s, username, email, digest);
            o.reply.status == 200 ==>
              o.store.users == s.users + [NewAccount(username, email, digest)]
              && o.store.otps == s.otps && o.store.lastResend == s.lastResend
              && o.reply.session == Some(|s.users|)
              && o.reply.mail == [Mail(email, Welcome)]
              && !o.store.users[|s.users|].verified
    ensures var o := RegisterSpec(s, username, email, digest);
            o.reply.status != 200 ==> o.store == s && o.reply.session.None?
  {
    var o := RegisterSpec(s, username, email, digest);
    if FindByEmail(s.users, email).None? && FindByUsername(s.users, username).None? {
      NewAccountDefaults(username, email, digest);
      assert "USD" == CurrencyEnum[0];
    }
  }

  /** The session issued at registration belongs to an account that cannot log in until
      its email is verified. */
  lemma RegisteredAccountMustVerify(env: Env, s: Store, username: string, email: string,
                                    digest: string, password: string)
    requires RegisterSpec(s, username, email, digest).reply.status == 200
    ensures var s' := RegisterSpec(s, username, email, digest).store;
            LoginSpec(env, s', email, password).reply.status == 401
            && LoginSpec(env, s', email, password).reply.session.None?
  {
    RegisterOutcome(s, username, email, digest);
    var s' := RegisterSpec(s, username, email, digest).store;
    var r := FindByEmail(s'.users, email);
    assert s'.users[|s.users|].email == email;
    assert forall j :: 0 <= j < |s.users| ==> s'.users[j] == s.users[j];
    NewAccountDefaults(username, email, digest);
  }

  // ---------------------------------------------------------------------------
  // loginUser
  // ---------------------------------------------------------------------------

  /** Login changes nothing and decides in a fixed order: unknown email, then an
      unverified account, then the password, then two-factor login. A session is issued
      only on the last branch. */
  lemma LoginDecisionOrder(env: Env, s: Store, email: string, password: string)
    ensures LoginSpec(env, s, email, password).store == s
    ensures FindByEmail(s.users, email).None? ==> LoginSpec(env, s, email, password).reply.status == 404
    ensures FindByEmail(s.users, email).Some? ==>
              var id := FindByEmail(s.users, email).value;
              var a := s.users[id];
              var r := LoginSpec(env, s, email, password).reply;
              (!a.verified ==> r.status == 401 && r.body == Unverified(Brief(id, a)))
              && (a.verified && !env.compare(password, a.password) ==> r.status == 401 && r.body == Failure(InvalidCredentials))
              && (a.verified && env.compare(password, a.password) && a.twoFactorEnabled ==>
                    r.status == 200 && r.body.Requires2FA? && r.body.email == a.email)
    ensures var r := LoginSpec(env, s, email, password).reply;
            r.session.Some? <==>
              FindByEmail(s.users, email).Some?
              && s.users[FindByEmail(s.users, email).value].verified
              && env.compare(password, s.users[FindByEmail(s.users, email).value].password)
              && !s.users[FindByEmail(s.users, email).value].twoFactorEnabled
    ensures var r := LoginSpec(env, s, email, password).reply;
            r.session.Some? ==> r.session == FindByEmail(s.users, email)
  {
  }

  /** An unverified account gets the same 401 reply, and no session, whatever password
      is sent. */
  lemma UnverifiedIgnoresPassword(env: Env, s: Store, email: string, p1: string, p2: string)
    requires FindByEmail(s.users, email).Some?
    requires !s.users[FindByEmail(s.users, email).value].verified
    ensures LoginSpec(env, s, email, p1) == LoginSpec(env, s, email, p2)
    ensures LoginSpec(env, s, email, p1).reply.status == 401
    ensures LoginSpec(env, s, email, p1).reply.session.None?
  {
  }

  // ---------------------------------------------------------------------------
  // updateCurrentUserProfile
  // ---------------------------------------------------------------------------

  /** `updatedFields` is built after the record was overwritten, so it is always empty
      and no profile-update mail is ever sent. */
  lemma ProfileNeverMails(env: Env, s: Store, id: UserId, username: Option<string>, email: Option<string>)
    ensures ProfileSpec(env, s, id, username, email).reply.mail == []
  {
    if id < |s.users| {
      var a := s.users[id];
      var renamed := if Given(username) then a.(username := username.value) else a;
      var updated := if Given(email) then renamed.(email := email.value) else renamed;
      assert UpdatedFields(username, email, updated) == [];
    }
  }

  /** A successful update writes the given username and email to the session's account
      and nothing else. */
  lemma ProfileOutcome(env: Env, s: Store, id: UserId, username: Option<string>, email: Option<string>)
    ensures var o := ProfileSpec(env, s, id, username, email);
            o.reply.status == 200 ==>
              id < |s.users| && |o.store.users| == |s.users|
              && o.store.otps == s.otps && o.store.lastResend == s.lastResend
              && (forall j :: 0 <= j < |s.users| && j != id ==> o.store.users[j] == s.users[j])
              && o.store.users[id].username == (if Given(username) then username.value else s.users[id].username)
              && o.store.users[id].email == (if Given(email) then email.value else s.users[id].email)
              && o.store.users[id].(username := s.users[id].username, email := s.users[id].email) == s.users[id]
              && o.reply.session.None?
    ensures var o := ProfileSpec(env, s, id, username, email);
            o.reply.status != 200 ==> o.store == s
  {
  }

  /** A new email that another account already uses is refused. */
  lemma ProfileRefusesTakenEmail(env: Env, s: Store, id: UserId, other: UserId, username: Option<string>, e: string)
    requires id < |s.users| && other < |s.users|
    requires s.users[other].email == e && s.users[id].email != e
    requires Given(Some(e))
    ensures ProfileSpec(env, s, id, username, Some(e)) == Fail(s, 400, EmailInUse)
  {
  }

  /** Nothing checks usernames on update: an account may take another account's
      username, and the store stays consistent. */
  lemma ProfileAllowsDuplicateUsername(env: Env, s: Store, id: UserId, other: UserId)
    requires Consistent(s)
    requires id < |s.users| && other < |s.users| && id != other
    requires s.users[id].username != s.users[other].username
    requires !Given(env.usernameError(s.users[other].username))
    ensures var o := ProfileSpec(env, s, id, Some(s.users[other].username), None);
            o.reply.status == 200
            && o.store.users[id].username == o.store.users[other].username
            && Consistent(o.store)
  {
    ProfileKeepsConsistent(env, s, id, Some(s.users[other].username), None);
  }

  // ---------------------------------------------------------------------------
  // updateUserCurrency
  // ---------------------------------------------------------------------------

  lemma InheritedNamesOutsideEnum(s: string)
    requires Currency.InheritedName(s)
    ensures s !in CurrencyEnum
  {
    EnumIsConfigKeys(s);
  }

  /** The country fallback is never taken: a stored currency is always the requested
      one, which is a key of `currencyConfig`. A request naming an inherited member
      passes the `currencyConfig[currency]` check and then fails on save. */
  lemma CurrencyFallbackUnreachable(s: Store, id: UserId, currency: Option<string>, country: Option<string>)
    ensures var o := CurrencySpec(s, id, currency, country);
            o.reply.status == 200 ==>
              Given(currency) && id < |s.users|
              && o.store.users[id].currency == currency.value
              && Currency.ParseCode(currency.value).Some?
              && o.store.users[id].country == (if Given(country) then country.value else s.users[id].country)
    ensures var o := CurrencySpec(s, id, currency, country);
            id < |s.users| && Given(currency) && Currency.InheritedName(currency.value) ==>
              o.reply.status == 500 && o.store == s
    ensures var o := CurrencySpec(s, id, currency, country);
            o.reply.status != 200 ==> o.store == s
  {
    var o := CurrencySpec(s, id, currency, country);
    if id < |s.users| && Given(currency) {
      if o.reply.status == 200 {
        EnumIsConfigKeys(currency.value);
      }
      if Currency.InheritedName(currency.value) {
        InheritedNamesOutsideEnum(currency.value);
      }
    }
  }

  /** A currency mail is sent exactly when the stored currency (or "USD" when empty)
      differs from the new one, and it carries the new currency's symbol. */
  lemma CurrencyMail(s: Store, id: UserId, currency: Option<string>, country: Option<string>)
    ensures var o := CurrencySpec(s, id, currency, country);
            o.reply.status == 200 ==>
              var before := if s.users[id].currency != "" then s.users[id].currency else "USD";
              (|o.reply.mail| == 1 <==> before != currency.value)
              && (|o.reply.mail| == 1 ==>
                    o.reply.mail[0] == Mail(s.users[id].email,
                      CurrencyUpdate(before, currency.value, Currency.GetCurrencySymbol(currency.value))))
  {
  }

  // ---------------------------------------------------------------------------
  // resetPassword
  // ---------------------------------------------------------------------------

  /** A new password equal to the old one is refused before the old password is
      compared, whatever the comparison would say. */
  lemma SamePasswordRefusedBeforeCompare(env: Env, s: Store, id: UserId, p: string, digest: string)
    requires id < |s.users| && p != ""
    requires !Given(env.passwordError(p))
    ensures ResetPasswordSpec(env, s, id, Some(p), Some(p), digest) == Fail(s, 400, SamePassword)
  {
  }

  /** A reset succeeds only with the right old password and a different, valid new one,
      and then stores the new hash and mails the account. */
  lemma ResetPasswordOutcome(env: Env, s: Store, id: UserId, oldPassword: Option<string>,
                             newPassword: Option<string>, digest: string)
    ensures var o := ResetPasswordSpec(env, s, id, oldPassword, newPassword, digest);
            o.reply.status == 200 <==>
              id < |s.users| && Given(oldPassword) && Given(newPassword)
              && !Given(env.passwordError(newPassword.value))
              && oldPassword.value != newPassword.value
              && env.compare(oldPassword.value, s.users[id].password)
    ensures var o := ResetPasswordSpec(env, s, id, oldPassword, newPassword, digest);
            o.reply.status == 200 ==>
              o.store.users == s.users[id := s.users[id].(password := digest)]
              && o.reply.mail == [Mail(s.users[id].email, PasswordReset)]
    ensures var o := ResetPasswordSpec(env, s, id, oldPassword, newPassword, digest);
            o.reply.status != 200 ==> o.store == s
  {
  }

  // ---------------------------------------------------------------------------
  // sendOTP
  // ---------------------------------------------------------------------------

  /** A known account inside the cooldown gets 429 and nothing changes; otherwise its
      OTP documents are replaced by the one just issued and the send time is recorded. */
  lemma SendOtpOutcome(s: Store, email: string, issued: OtpRecord, now: int)
    ensures FindByEmail(s.users, email).None? ==> SendOtpSpec(s, email, issued, now) == Fail(s, 404, EmailNotRegistered)
    ensures FindByEmail(s.users, email).Some? ==>
              var id := FindByEmail(s.users, email).value;
              var o := SendOtpSpec(s, email, issued, now);
              (o.reply.status == 429 <==> InCooldown(s, id, now))
              && (o.reply.status == 429 ==> o.store == s)
              && (o.reply.status != 429 ==>
                    o.reply.status == 200 && o.store.users == s.users
                    && OtpsOf(o.store, id) == [issued]
                    && o.store.lastResend == s.lastResend[id := now]
                    && (forall other :: other != id ==> OtpsOf(o.store, other) == OtpsOf(s, other)))
  {
  }

  /** A second request less than a minute after a successful one is refused and
      changes nothing; a request a minute or more later is served. */
  lemma ResendCooldown(s: Store, email: string, first: OtpRecord, second: OtpRecord, t1: int, t2: int)
    requires FindByEmail(s.users, email).Some?
    requires SendOtpSpec(s, email, first, t1).reply.status == 200
    requires t1 != 0
    ensures var s1 := SendOtpSpec(s, email, first, t1).store;
            t1 <= t2 < t1 + CooldownMillis ==>
              SendOtpSpec(s1, email, second, t2) == Fail(s1, 429, CooldownActive)
    ensures var s1 := SendOtpSpec(s, email, first, t1).store;
            t2 >= t1 + CooldownMillis ==>
              SendOtpSpec(s1, email, second, t2).reply.status == 200
  {
  }

  // ---------------------------------------------------------------------------
  // verifyOTP
  // ---------------------------------------------------------------------------

  /** The record `verifyOTP` checks: the first one with the latest expiry. */
  function LatestOtp(s: Store, id: UserId): OtpRecord
    requires |OtpsOf(s, id)| > 0
  {
    OtpsOf(s, id)[LatestAmong(OtpsOf(s, id), |OtpsOf(s, id)|)]
  }

  /** Of the latest record: an expired one deletes all the account's OTPs and fails, a
      hash mismatch fails and changes nothing, a match verifies the account and deletes
      all its OTPs. */
  lemma VerifyOtpOutcome(env: Env, s: Store, email: string, otp: string, now: int)
    ensures var o := VerifyOtpSpec(env, s, email, otp, now);
            match FindByEmail(s.users, email)
            case None => o == Fail(s, 404, UserNotFound)
            case Some(id) =>
              (s.users[id].verified ==> o == Fail(s, 400, AlreadyVerified))
              && (!s.users[id].verified && |OtpsOf(s, id)| == 0 ==> o == Fail(s, 400, NoValidOtp))
              && (!s.users[id].verified && |OtpsOf(s, id)| > 0 ==>
                    var latest := LatestOtp(s, id);
                    (latest.expiresAt.Some? && latest.expiresAt.value < now ==>
                       o.reply.body == Failure(OtpExpired) && o.store.users == s.users
                       && OtpsOf(o.store, id) == [])
                    && (!(latest.expiresAt.Some? && latest.expiresAt.value < now) && !env.compare(otp, latest.otp) ==>
                          o == Fail(s, 400, InvalidOtp))
                    && (!(latest.expiresAt.Some? && latest.expiresAt.value < now) && env.compare(otp, latest.otp) ==>
                          o.reply.status == 200 && o.store.users == s.users[id := s.users[id].(verified := true)]
                          && OtpsOf(o.store, id) == [] && o.reply.session.None?))
  {
  }

  /** The record checked has the latest expiry of all the account's records. */
  lemma LatestOtpIsLatest(s: Store, id: UserId)
    requires |OtpsOf(s, id)| > 0
    ensures LatestOtp(s, id) in OtpsOf(s, id)
    ensures forall r :: r in OtpsOf(s, id) && r.expiresAt.Some? ==>
              LatestOtp(s, id).expiresAt.Some? && r.expiresAt.value <= LatestOtp(s, id).expiresAt.value
  {
    var records := OtpsOf(s, id);
    forall r | r in records && r.expiresAt.Some?
      ensures LatestOtp(s, id).expiresAt.Some? && r.expiresAt.value <= LatestOtp(s, id).expiresAt.value
    {
      var j :| 0 <= j < |records| && records[j] == r;
      assert !Later(records[j], LatestOtp(s, id));
    }
  }

  /** A latest record without `expiresAt` never expires: the outcome is the same at every
      instant. */
  lemma OtpWithoutExpiryNeverExpires(env: Env, s: Store, email: string, otp: string, t1: int, t2: int)
    requires FindByEmail(s.users, email).Some?
    requires |OtpsOf(s, FindByEmail(s.users, email).value)| > 0
    requires LatestOtp(s, FindByEmail(s.users, email).value).expiresAt.None?
    ensures VerifyOtpSpec(env, s, email, otp, t1) == VerifyOtpSpec(env, s, email, otp, t2)
    ensures VerifyOtpSpec(env, s, email, otp, t1).reply.body != Failure(OtpExpired)
  {
  }

  /** An OTP verifies an account once: any later attempt is told the account is already
      verified. */
  lemma VerifyOtpIsSingleUse(env: Env, s: Store, email: string, otp: string, now: int, otp2: string, now2: int)
    requires VerifyOtpSpec(env, s, email, otp, now).reply.status == 200
    ensures var s1 := VerifyOtpSpec(env, s, email, otp, now).store;
            VerifyOtpSpec(env, s1, email, otp2, now2) == Fail(s1, 400, AlreadyVerified)
  {
    var id := FindByEmail(s.users, email).value;
    var s1 := VerifyOtpSpec(env, s, email, otp, now).store;
    FindAfterReplace(s.users, id, s.users[id].(verified := true), email);
  }

  // ---------------------------------------------------------------------------
  // setup2FA, enable2FA, disable2FA
  // ---------------------------------------------------------------------------

  /** Setup is refused while two-factor login is on; otherwise it only overwrites the
      secret of the session's account. */
  lemma SetupOnlyOverwritesSecret(s: Store, id: UserId, secret: string, qrCode: Option<string>)
    ensures id < |s.users| && s.users[id].twoFactorEnabled ==>
              Setup2FASpec(s, id, secret, qrCode) == Fail(s, 400, TwoFactorAlreadyOn)
    ensures var o := Setup2FASpec(s, id, secret, qrCode);
            o.reply.status == 200 ==>
              qrCode.Some? && o.reply.body == SetupStarted(qrCode.value, secret)
              && o.store.otps == s.otps && o.store.lastResend == s.lastResend
              && |o.store.users| == |s.users|
              && (forall j :: 0 <= j < |s.users| && j != id ==> o.store.users[j] == s.users[j])
              && o.store.users[id].twoFactorSecret == Some(secret)
              && !o.store.users[id].twoFactorEnabled
              && o.store.users[id].(twoFactorSecret := s.users[id].twoFactorSecret) == s.users[id]
    ensures var o := Setup2FASpec(s, id, secret, qrCode);
            o.reply.status != 200 ==> o.store == s
  {
  }

  /** Enabling needs a token (checked before the account is even looked up), a stored
      secret and a token in the TOTP window; it then switches two-factor login on and
      replaces the backup codes with eight fresh, well-formed ones, which the reply
      returns. */
  lemma EnableOutcome(env: Env, s: Store, id: UserId, token: Option<string>,
                      draws: seq<TwoFactor.Draw>, now: int)
    requires |draws| == TwoFactor.BackupCodeCount
    ensures !Given(token) ==> Enable2FASpec(env, s, id, token, draws, now) == Fail(s, 400, TokenRequired)
    ensures var o := Enable2FASpec(env, s, id, token, draws, now);
            o.reply.status == 200 <==>
              Given(token) && id < |s.users| && Given(s.users[id].twoFactorSecret)
              && TwoFactor.VerifyToken(env.totp, s.users[id].twoFactorSecret.value, token.value, now)
    ensures var o := Enable2FASpec(env, s, id, token, draws, now);
            o.reply.status == 200 ==>
              o.store.users[id].twoFactorEnabled
              && o.store.users[id].twoFactorSecret == s.users[id].twoFactorSecret
              && o.reply.body == TwoFactorOn(o.store.users[id].backupCodes)
              && |o.store.users[id].backupCodes| == TwoFactor.BackupCodeCount
              && (forall i :: 0 <= i < TwoFactor.BackupCodeCount ==>
                    TwoFactor.WellFormedCode(o.store.users[id].backupCodes[i])
                    && TwoFactor.ParseCode(o.store.users[id].backupCodes[i]) == draws[i])
    ensures var o := Enable2FASpec(env, s, id, token, draws, now);
            o.reply.status == 200 ==>
              o.store.users == s.users[id := s.users[id].(twoFactorEnabled := true, backupCodes := TwoFactor.BackupCodesOf(draws))]
              && o.store.otps == s.otps && o.store.lastResend == s.lastResend
              && o.reply.mail == [Mail(s.users[id].email, TwoFactorEnabled)] && o.reply.session.None?
    ensures var o := Enable2FASpec(env, s, id, token, draws, now);
            o.reply.status != 200 ==> o.store == s
  {
    var o := Enable2FASpec(env, s, id, token, draws, now);
    if o.reply.status == 200 {
      forall i | 0 <= i < TwoFactor.BackupCodeCount
        ensures TwoFactor.WellFormedCode(o.store.users[id].backupCodes[i])
                && TwoFactor.ParseCode(o.store.users[id].backupCodes[i]) == draws[i]
      {
        TwoFactor.FormatCodeRoundTrip(draws[i]);
      }
    }
  }

  /** The password is checked before the token: a wrong password is reported whatever
      token comes with it. */
  lemma DisableChecksPasswordFirst(env: Env, s: Store, id: UserId, t1: string, t2: string,
                                   password: string, now: int)
    requires id < |s.users| && s.users[id].twoFactorEnabled
    requires t1 != "" && t2 != "" && password != ""
    requires !env.compare(password, s.users[id].password)
    ensures Disable2FASpec(env, s, id, Some(t1), Some(password), now) == Fail(s, 400, InvalidPassword)
    ensures Disable2FASpec(env, s, id, Some(t2), Some(password), now) == Fail(s, 400, InvalidPassword)
  {
  }

  /** Disabling clears the flag, the secret and the backup codes together. */
  lemma DisableOutcome(env: Env, s: Store, id: UserId, token: Option<string>, password: Option<string>, now: int)
    ensures var o := Disable2FASpec(env, s, id, token, password, now);
            o.reply.status == 200 ==>
              id < |s.users| && s.users[id].twoFactorEnabled
              && env.compare(password.value, s.users[id].password)
              && !o.store.users[id].twoFactorEnabled
              && o.store.users[id].twoFactorSecret == None
              && o.store.users[id].backupCodes == []
              && o.store.users[id].(twoFactorEnabled := true, twoFactorSecret := s.users[id].twoFactorSecret,
                                    backupCodes := s.users[id].backupCodes) == s.users[id]
    ensures var o := Disable2FASpec(env, s, id, token, password, now);
            o.reply.status == 200 <==>
              Given(token) && Given(password) && id < |s.users| && s.users[id].twoFactorEnabled
              && env.compare(password.value, s.users[id].password) && s.users[id].twoFactorSecret.Some?
              && TwoFactor.VerifyToken(env.totp, s.users[id].twoFactorSecret.value, token.value, now)
    ensures var o := Disable2FASpec(env, s, id, token, password, now);
            o.reply.status != 200 ==> o.store == s
  {
  }

  // ---------------------------------------------------------------------------
  // verify2FA
  // ---------------------------------------------------------------------------

  /** A session is issued exactly on success, and for the account the email names. */
  lemma Verify2FASession(env: Env, s: Store, email: Option<string>, token: Option<string>, isBackupCode: bool, now: int)
    ensures var r := Verify2FASpec(env, s, email, token, isBackupCode, now).reply;
            (r.session.Some? <==> r.status == 200)
            && (r.session.Some? ==> Given(email) && r.session == FindByEmail(s.users, email.value))
    ensures var r := Verify2FASpec(env, s, email, token, isBackupCode, now).reply;
            r.status == 200 ==> s.users[FindByEmail(s.users, email.value).value].twoFactorEnabled
  {
  }

  /** The TOTP path changes nothing. */
  lemma TotpPathChangesNothing(env: Env, s: Store, email: Option<string>, token: Option<string>, now: int)
    ensures Verify2FASpec(env, s, email, token, false, now).store == s
  {
  }

  /** The backup path removes exactly the first matching code, keeping the others in
      order, and touches nothing else. A match at position 0 is a success. */
  lemma BackupPathRemovesMatch(env: Env, s: Store, email: string, token: string, now: int)
    requires Given(Some(email)) && Given(Some(token))
    requires FindByEmail(s.users, email).Some?
    requires s.users[FindByEmail(s.users, email).value].twoFactorEnabled
    ensures var id := FindByEmail(s.users, email).value;
            var codes := s.users[id].backupCodes;
            var o := Verify2FASpec(env, s, Some(email), Some(token), true, now);
            match TwoFactor.VerifyBackupCode(codes, token)
            case NotFound => o == Fail(s, 400, InvalidBackupCode)
            case Found(i) =>
              o.reply.status == 200
              && o.store.users == s.users[id := s.users[id].(backupCodes := TwoFactor.RemoveAt(codes, i))]
              && o.store.otps == s.otps && o.store.lastResend == s.lastResend
  {
  }

  /** With distinct stored codes, a backup code works once: after it is used, the same
      code is refused. */
  lemma BackupCodeIsSingleUse(env: Env, s: Store, email: string, token: string, now: int, now2: int)
    requires Given(Some(email)) && Given(Some(token))
    requires FindByEmail(s.users, email).Some?
    requires TwoFactor.DistinctCodes(s.users[FindByEmail(s.users, email).value].backupCodes)
    requires Verify2FASpec(env, s, Some(email), Some(token), true, now).reply.status == 200
    ensures var s1 := Verify2FASpec(env, s, Some(email), Some(token), true, now).store;
            Verify2FASpec(env, s1, Some(email), Some(token), true, now2) == Fail(s1, 400, InvalidBackupCode)
  {
    var id := FindByEmail(s.users, email).value;
    var codes := s.users[id].backupCodes;
    var i := TwoFactor.VerifyBackupCode(codes, token).index;
    FindAfterReplace(s.users, id, s.users[id].(backupCodes := TwoFactor.RemoveAt(codes, i)), email);
    TwoFactor.RemovedCodeNoLongerMatches(codes, token);
  }

  /** Nothing makes the stored codes distinct: when a second stored code matches the
      token, only the first match is removed and the same token is accepted again. */
  lemma DuplicatedCodeWorksTwice(env: Env, s: Store, email: string, token: string, now: int, now2: int, j: nat)
    requires Given(Some(email)) && Given(Some(token))
    requires FindByEmail(s.users, email).Some?
    requires s.users[FindByEmail(s.users, email).value].twoFactorEnabled
    requires var codes := s.users[FindByEmail(s.users, email).value].backupCodes;
             j < |codes| && TwoFactor.Normalize(codes[j]) == TwoFactor.Normalize(token)
             && TwoFactor.VerifyBackupCode(codes, token) != TwoFactor.Found(j)
    ensures var s1 := Verify2FASpec(env, s, Some(email), Some(token), true, now).store;
            Verify2FASpec(env, s1, Some(email), Some(token), true, now2).reply.status == 200
  {
    var id := FindByEmail(s.users, email).value;
    var codes := s.users[id].backupCodes;
    var i := TwoFactor.VerifyBackupCode(codes, token).index;
    var rest := TwoFactor.RemoveAt(codes, i);
    FindAfterReplace(s.users, id, s.users[id].(backupCodes := rest), email);
    var k := if j < i then j else j - 1;
    assert rest[k] == codes[j];
    assert TwoFactor.VerifyBackupCode(rest, token).Found?;
  }

  /** Generation can store a code twice: two equal random draws give two equal codes. */
  lemma EqualDrawsGiveEqualCodes(draws: seq<TwoFactor.Draw>, i: nat, j: nat)
    requires i < j < |draws| && draws[i] == draws[j]
    ensures !TwoFactor.DistinctCodes(TwoFactor.BackupCodesOf(draws))
  {
    var codes := TwoFactor.BackupCodesOf(draws);
    TwoFactor.FormatCodeIsNormal(draws[i]);
    assert codes[i] == codes[j];
  }

  // ---------------------------------------------------------------------------
  // The two-factor lifecycle
  // ---------------------------------------------------------------------------

  /** Setup followed by enabling with the current code makes the next correct-password
      login stop at the two-factor step, without a session. */
  lemma SetupEnableThenLoginNeeds2FA(env: Env, s: Store, id: UserId, secret: string, qrCode: string,
                                     draws: seq<TwoFactor.Draw>, now: int, password: string)
    requires Consistent(s) && id < |s.users|
    requires s.users[id].verified && !s.users[id].twoFactorEnabled
    requires secret != "" && env.totp(secret, TwoFactor.StepAt(now)) != ""
    requires |draws| == TwoFactor.BackupCodeCount
    requires env.compare(password, s.users[id].password)
    ensures var s1 := Setup2FASpec(s, id, secret, Some(qrCode)).store;
            var s2 := Enable2FASpec(env, s1, id, Some(env.totp(secret, TwoFactor.StepAt(now))), draws, now).store;
            var r := LoginSpec(env, s2, s.users[id].email, password).reply;
            r.status == 200 && r.body.Requires2FA? && r.session.None?
  {
    var token := env.totp(secret, TwoFactor.StepAt(now));
    var s1 := Setup2FASpec(s, id, secret, Some(qrCode)).store;
    TwoFactor.AcceptsWithinSixtySeconds(env.totp, secret, now, now);
    var s2 := Enable2FASpec(env, s1, id, Some(token), draws, now).store;
    FindOwnEmail(s.users, id);
    FindAfterReplace(s.users, id, s1.users[id], s.users[id].email);
    FindAfterReplace(s1.users, id, s2.users[id], s.users[id].email);
  }

  /** No handler ever clears `verified`: after any run of requests, an account that was
      verified still is. */
  lemma {:induction false} VerifiedIsNeverCleared(env: Env, s: Store, reqs: seq<Request>)
    requires forall i :: 0 <= i < |reqs| ==> WellFormedRequest(reqs[i])
    ensures KeepsVerified(s, Run(env, s, reqs))
    decreases |reqs|
  {
    if |reqs| > 0 {
      var s1 := Handle(env, s, reqs[0]).store;
      assert KeepsVerified(s, s1);
      VerifiedIsNeverCleared(env, s1, reqs[1..]);
    }
  }
}
