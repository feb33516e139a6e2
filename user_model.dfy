/**
 * backend/models/userModel.js: the stored account record, its defaults and the checks
 * Mongoose applies when a record is saved.
 */
module UserModel {
  import opened Common
  import Currency

  /** One stored user document (timestamps are not modelled). `password` holds the
      password hash; `twoFactorSecret` is `null` when absent. */
  datatype Account = Account(
    username: string,
    email: string,
    password: string,
    verified: bool,
    twoFactorSecret: Option<string>,
    twoFactorEnabled: bool,
    backupCodes: seq<string>,
    currency: string,
    country: string)

  /** The `enum` of the `currency` path. */
  const CurrencyEnum: seq<string> :=
    ["USD", "EUR", "GBP", "INR", "JPY", "CAD", "AUD", "CHF", "CNY", "KRW", "BRL",
     "MXN", "RUB", "ZAR", "SGD", "HKD", "NZD", "SEK", "NOK", "DKK", "PLN"]

  /** `new User({ username, email, password })`: every other path takes its default. */
  function NewAccount(username: string, email: string, password: string): (a: Account)
    ensures a.username == username && a.email == email && a.password == password
    ensures !a.verified && !a.twoFactorEnabled && a.twoFactorSecret.None? && a.backupCodes == []
  {
    Account(username, email, password, false, None, false, [], "USD", "US")
  }

  /** A `required` string path rejects a missing or empty value. */
  predicate RequiredPresent(s: string)
  {
    s != ""
  }

  /** What `save()` validates: the three required paths and the currency enum. */
  predicate Savable(a: Account)
  {
    RequiredPresent(a.username) && RequiredPresent(a.email) && RequiredPresent(a.password)
    && a.currency in CurrencyEnum
  }

  /** `email` carries a unique index: no two stored accounts share one. `username` has
      no such index, so nothing in the schema stops two accounts sharing a username. */
  predicate EmailsUnique(users: seq<Account>)
  {
    forall i, j :: 0 <= i < j < |users| ==> users[i].email != users[j].email
  }

  /** The enum is exactly the key set of `currencyConfig`. */
  lemma EnumIsConfigKeys(s: string)
    ensures s in CurrencyEnum <==> Currency.ParseCode(s).Some?
  {
    if s in CurrencyEnum {
      var i :| 0 <= i < |CurrencyEnum| && CurrencyEnum[i] == s;
      EnumEntry(i);
      Currency.NameParses(Currency.ConfigOrder[i]);
    }
    if Currency.ParseCode(s).Some? {
      var c := Currency.ParseCode(s).value;
      EnumEntry(Currency.Position(c));
    }
  }

  /** The enum lists the keys of `currencyConfig` in the same order. */
  lemma EnumEntry(i: nat)
    requires i < |CurrencyEnum|
    ensures |Currency.ConfigOrder| == |CurrencyEnum|
    ensures CurrencyEnum[i] == Currency.CodeName(Currency.ConfigOrder[i])
  {
    match i
    case 0 => case 1 => case 2 => case 3 => case 4 => case 5 => case 6 => case 7 =>
    case 8 => case 9 => case 10 => case 11 => case 12 => case 13 => case 14 =>
    case 15 => case 16 => case 17 => case 18 => case 19 => case 20 =>
  }

  /** A new account is unverified, carries no two-factor material, uses USD in the US,
      and passes validation exactly when its required paths are filled. */
  lemma NewAccountDefaults(username: string, email: string, password: string)
    ensures var a := NewAccount(username, email, password);
            !a.verified && a.twoFactorSecret == None && !a.twoFactorEnabled && a.backupCodes == []
            && a.country == "US"
    ensures Savable(NewAccount(username, email, password)) <==>
              username != "" && email != "" && password != ""
    ensures Currency.ParseCode(NewAccount(username, email, password).currency) == Some(Currency.USD)
  {
    Currency.NameParses(Currency.USD);
    assert "USD" == CurrencyEnum[0];
  }

  /** Two accounts may share a username and still satisfy every schema constraint. */
  lemma UsernameNotUnique()
    ensures var users := [NewAccount("sam", "a@x.io", "h1"), NewAccount("sam", "b@x.io", "h2")];
            EmailsUnique(users) && Savable(users[0]) && Savable(users[1])
            && users[0].username == users[1].username
  {
    assert "USD" == CurrencyEnum[0];
  }
}
