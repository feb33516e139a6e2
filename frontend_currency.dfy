/**
 * frontend/src/utils/currencyFormatter.js: the `currencies` array the user interface
 * offers, `find`-based lookups over it, and the prefixing half of `formatCurrency`.
 *
 * The array lists 16 currencies, the first 16 keys of the backend `currencyConfig` in
 * the same order. `find` compares codes with `===`, so, unlike the backend object
 * lookups, no inherited member name can match.
 */
module FrontendCurrency {
  import opened Common
  import Currency

  /** The codes of `currencies`, in array order. */
  datatype Listed = USD | EUR | GBP | INR | JPY | CAD | AUD | CHF | CNY | KRW | BRL
                  | MXN | RUB | ZAR | SGD | HKD

  /** One element of `currencies`. */
  datatype Listing = Listing(code: string, name: string, symbol: string, flag: string, country: string)

  const Order: seq<Listed> :=
    [USD, EUR, GBP, INR, JPY, CAD, AUD, CHF, CNY, KRW, BRL, MXN, RUB, ZAR, SGD, HKD]

  function Entry(l: Listed): Listing
  {
    match l
    case USD => Listing("USD", "US Dollar", "$", "🇺🇸", "United States")
    case EUR => Listing("EUR", "Euro", "€", "🇪🇺", "European Union")
    case GBP => Listing("GBP", "British Pound", "£", "🇬🇧", "United Kingdom")
    case INR => Listing("INR", "Indian Rupee", "₹", "🇮🇳", "India")
    case JPY => Listing("JPY", "Japanese Yen", "¥", "🇯🇵", "Japan")
    case CAD => Listing("CAD", "Canadian Dollar", "C$", "🇨🇦", "Canada")
    case AUD => Listing("AUD", "Australian Dollar", "A$", "🇦🇺", "Australia")
    case CHF => Listing("CHF", "Swiss Franc", "CHF", "🇨🇭", "Switzerland")
    case CNY => Listing("CNY", "Chinese Yuan", "¥", "🇨🇳", "China")
    case KRW => Listing("KRW", "Korean Won", "₩", "🇰🇷", "South Korea")
    case BRL => Listing("BRL", "Brazilian Real", "R$", "🇧🇷", "Brazil")
    case MXN => Listing("MXN", "Mexican Peso", "$", "🇲🇽", "Mexico")
    case RUB => Listing("RUB", "Russian Ruble", "₽", "🇷🇺", "Russia")
    case ZAR => Listing("ZAR", "South African Rand", "R", "🇿🇦", "South Africa")
    case SGD => Listing("SGD", "Singapore Dollar", "S$", "🇸🇬", "Singapore")
    case HKD => Listing("HKD", "Hong Kong Dollar", "HK$", "🇭🇰", "Hong Kong")
  }

  /** `currencies`. */
  function Currencies(): (r: seq<Listing>)
    ensures |r| == |Order|
  {
    seq(|Order|, i requires 0 <= i < |Order| => Entry(Order[i]))
  }

  /** The backend key with the same code. */
  function Backend(l: Listed): Currency.Code
  {
    match l
    case USD => Currency.USD case EUR => Currency.EUR case GBP => Currency.GBP
    case INR => Currency.INR case JPY => Currency.JPY case CAD => Currency.CAD
    case AUD => Currency.AUD case CHF => Currency.CHF case CNY => Currency.CNY
    case KRW => Currency.KRW case BRL => Currency.BRL case MXN => Currency.MXN
    case RUB => Currency.RUB case ZAR => Currency.ZAR case SGD => Currency.SGD
    case HKD => Currency.HKD
  }

  /** The listed currency for a backend key, if the array has one. */
  function FromBackend(c: Currency.Code): (r: Option<Listed>)
    ensures r.Some? ==> Backend(r.value) == c
  {
    match c
    case USD => Some(USD) case EUR => Some(EUR) case GBP => Some(GBP)
    case INR => Some(INR) case JPY => Some(JPY) case CAD => Some(CAD)
    case AUD => Some(AUD) case CHF => Some(CHF) case CNY => Some(CNY)
    case KRW => Some(KRW) case BRL => Some(BRL) case MXN => Some(MXN)
    case RUB => Some(RUB) case ZAR => Some(ZAR) case SGD => Some(SGD)
    case HKD => Some(HKD)
    case _ => None
  }

  /** The position of a listed currency in `currencies`. */
  function Position(l: Listed): (i: nat)
    ensures i < |Order| && Order[i] == l
  {
    match l
    case USD => 0 case EUR => 1 case GBP => 2 case INR => 3 case JPY => 4
    case CAD => 5 case AUD => 6 case CHF => 7 case CNY => 8 case KRW => 9
    case BRL => 10 case MXN => 11 case RUB => 12 case ZAR => 13 case SGD => 14
    case HKD => 15
  }

  /** Each array entry carries the backend key's name and the backend record's name,
      symbol and flag. */
  lemma EntryMatchesBackend(l: Listed)
    ensures Entry(l).code == Currency.CodeName(Backend(l))
    ensures Entry(l).name == Currency.Config(Backend(l)).name
    ensures Entry(l).symbol == Currency.Config(Backend(l)).symbol
    ensures Entry(l).flag == Currency.Config(Backend(l)).flag
    ensures FromBackend(Backend(l)) == Some(l)
  {
  }

  /** The first index at or after `k` whose code is `code` (`Array.prototype.find`). */
  function FindFrom(code: string, k: nat): (r: Option<nat>)
    requires k <= |Currencies()|
    ensures r.Some? ==> k <= r.value < |Currencies()| && Currencies()[r.value].code == code
    ensures r.Some? ==> forall j :: k <= j < r.value ==> Currencies()[j].code != code
    ensures r.None? ==> forall j :: k <= j < |Currencies()| ==> Currencies()[j].code != code
    decreases |Currencies()| - k
  {
    if k == |Currencies()| then None
    else if Currencies()[k].code == code then Some(k)
    else FindFrom(code, k + 1)
  }

  /** `currencies.find((c) => c.code === currencyCode)`. */
  function Find(code: string): (r: Option<Listing>)
    ensures r.Some? ==> r.value in Currencies() && r.value.code == code
    ensures r.None? <==> forall j :: 0 <= j < |Currencies()| ==> Currencies()[j].code != code
  {
    match FindFrom(code, 0)
    case Some(i) => Some(Currencies()[i])
    case None => None
  }

  /** `find` hits exactly the backend codes the array lists, and yields their entry. */
  lemma FindListed(code: string)
    ensures Currency.ParseCode(code).None? ==> Find(code).None?
    ensures Currency.ParseCode(code).Some? ==>
              match FromBackend(Currency.ParseCode(code).value)
              case Some(l) => Find(code) == Some(Entry(l))
              case None => Find(code).None?
  {
    match FindFrom(code, 0)
    case Some(i) =>
      EntryMatchesBackend(Order[i]);
      Currency.NameParses(Backend(Order[i]));
    case None =>
      match Currency.ParseCode(code)
      case None =>
      case Some(c) =>
        match FromBackend(c)
        case None =>
        case Some(l) =>
          EntryMatchesBackend(l);
          ListedIsFound(l);
          assert false;
  }

  /** `find` reaches every listed code. */
  lemma ListedIsFound(l: Listed)
    ensures FindFrom(Entry(l).code, 0).Some?
  {
    assert Currencies()[Position(l)].code == Entry(l).code;
  }

  /** The array's codes are pairwise distinct, so `find` picks the only entry. */
  lemma CodesDistinct()
    ensures forall i, j :: 0 <= i < j < |Currencies()| ==> Currencies()[i].code != Currencies()[j].code
  {
    forall i, j | 0 <= i < j < |Currencies()| ensures Currencies()[i].code != Currencies()[j].code {
      EntryMatchesBackend(Order[i]);
      EntryMatchesBackend(Order[j]);
      Currency.NameParses(Backend(Order[i]));
      Currency.NameParses(Backend(Order[j]));
      assert Order[i] != Order[j] by { OrderDistinct(i, j); }
    }
  }

  lemma OrderDistinct(i: nat, j: nat)
    requires i < j < |Order|
    ensures Order[i] != Order[j]
  {
    assert Position(Order[i]) == i by { PositionOfIndex(i); }
    assert Position(Order[j]) == j by { PositionOfIndex(j); }
  }

  lemma PositionOfIndex(i: nat)
    requires i < |Order|
    ensures Position(Order[i]) == i
  {
    match i
    case 0 => case 1 => case 2 => case 3 => case 4 => case 5 => case 6 => case 7 =>
    case 8 => case 9 => case 10 => case 11 => case 12 => case 13 => case 14 => case 15 =>
  }

  /** The backend codes missing from the array. */
  lemma UnlistedCodes(c: Currency.Code)
    ensures FromBackend(c).None? <==>
              c == Currency.NZD || c == Currency.SEK || c == Currency.NOK || c == Currency.DKK || c == Currency.PLN
  {
  }

  /** The code a call uses: an omitted one means "USD". */
  function CodeOrUsd(code: Option<string>): string
  {
    if code.None? then "USD" else code.value
  }

  /** `getCurrencySymbol(currencyCode = "USD")`. */
  function GetCurrencySymbol(code: Option<string>): (r: string)
    ensures Find(CodeOrUsd(code)).Some? ==> r == Find(CodeOrUsd(code)).value.symbol
    ensures Find(CodeOrUsd(code)).None? ==> r == "$"
  {
    match Find(CodeOrUsd(code))
    case Some(entry) => entry.symbol
    case None => "$"
  }

  /** `getCurrencyInfo(currencyCode = "USD")`: the entry, else `currencies[0]`. */
  function GetCurrencyInfo(code: Option<string>): (r: Listing)
    ensures r in Currencies()
    ensures r.code == CodeOrUsd(code) || Find(CodeOrUsd(code)).None?
  {
    match Find(CodeOrUsd(code))
    case Some(entry) => entry
    case None => Currencies()[0]
  }

  /** The listed symbol for a listed code, "$" otherwise; an omitted code is "USD". */
  lemma SymbolLookup(code: Option<string>)
    ensures code.None? ==> GetCurrencySymbol(code) == "$"
    ensures code.Some? ==>
              match Currency.ParseCode(code.value)
              case Some(c) =>
                GetCurrencySymbol(code) == (if FromBackend(c).Some? then Entry(FromBackend(c).value).symbol else "$")
              case None => GetCurrencySymbol(code) == "$"
  {
    FindListed(CodeOrUsd(code));
    Currency.NameParses(Currency.USD);
  }

  /** The listed entry for a listed code, otherwise the first entry, which is USD. */
  lemma InfoLookup(code: Option<string>)
    ensures Currencies()[0] == Entry(USD)
    ensures code.None? ==> GetCurrencyInfo(code) == Entry(USD)
    ensures code.Some? ==>
              match Currency.ParseCode(code.value)
              case Some(c) =>
                GetCurrencyInfo(code) == (if FromBackend(c).Some? then Entry(FromBackend(c).value) else Entry(USD))
              case None => GetCurrencyInfo(code) == Entry(USD)
  {
    FindListed(CodeOrUsd(code));
    Currency.NameParses(Currency.USD);
  }

  /** Cross-table agreement: every string shows the backend's symbol, except the five
      backend codes the array leaves out, which show "$" instead of their own symbol. */
  lemma AgreesWithBackend(code: string)
    ensures Currency.ParseCode(code).None? ==> GetCurrencySymbol(Some(code)) == Currency.GetCurrencySymbol(code) == "$"
    ensures Currency.ParseCode(code).Some? && FromBackend(Currency.ParseCode(code).value).Some? ==>
              GetCurrencySymbol(Some(code)) == Currency.GetCurrencySymbol(code)
    ensures Currency.ParseCode(code).Some? && FromBackend(Currency.ParseCode(code).value).None? ==>
              GetCurrencySymbol(Some(code)) == "$" != Currency.GetCurrencySymbol(code)
  {
    SymbolLookup(Some(code));
    Currency.SymbolLookup(code);
    match Currency.ParseCode(code)
    case None =>
    case Some(c) =>
      match FromBackend(c)
      case Some(l) => EntryMatchesBackend(l);
      case None => UnlistedSymbolsAreNotDollar(c);
  }

  lemma UnlistedSymbolsAreNotDollar(c: Currency.Code)
    requires FromBackend(c).None?
    ensures Currency.Config(c).symbol != "$"
  {
  }

  /** `formatCurrency(amount, currencyCode = "USD", showSymbol = true)`, given the
      already formatted amount. */
  function FormatCurrency(amountText: string, code: Option<string>, showSymbol: Option<bool>): (r: string)
    ensures |r| >= |amountText| && r[|r| - |amountText|..] == amountText
    ensures showSymbol != Some(false) ==> r[..|r| - |amountText|] == GetCurrencySymbol(code)
    ensures showSymbol == Some(false) ==> r == amountText
  {
    var show := if showSymbol.None? then true else showSymbol.value;
    if show then GetCurrencySymbol(code) + amountText else amountText
  }

  /** The part of the user object `formatAmountForDisplay` reads. */
  datatype DisplayUser = DisplayUser(currency: Option<string>)

  /** `user?.currency || "USD"`. */
  function DisplayCode(user: Option<DisplayUser>): (code: string)
    ensures user.Some? && Given(user.value.currency) ==> code == user.value.currency.value
    ensures !(user.Some? && Given(user.value.currency)) ==> code == "USD"
  {
    if user.Some? && Given(user.value.currency) then user.value.currency.value else "USD"
  }

  /** `formatAmountForDisplay(amount, user)`. */
  function FormatAmountForDisplay(amountText: string, user: Option<DisplayUser>): (r: string)
    ensures |r| >= |amountText| && r[|r| - |amountText|..] == amountText
    ensures r[..|r| - |amountText|] == GetCurrencySymbol(Some(DisplayCode(user)))
  {
    FormatCurrency(amountText, Some(DisplayCode(user)), None)
  }

  /** Without a usable currency the amount is shown in dollars; otherwise with the
      symbol of the user's currency. */
  lemma DisplayUsesUserCurrency(amountText: string, user: Option<DisplayUser>)
    ensures !(user.Some? && Given(user.value.currency)) ==> FormatAmountForDisplay(amountText, user) == "$" + amountText
    ensures user.Some? && Given(user.value.currency) ==>
              FormatAmountForDisplay(amountText, user) == GetCurrencySymbol(user.value.currency) + amountText
  {
    SymbolLookup(Some("USD"));
    Currency.NameParses(Currency.USD);
  }
}
