/**
 * The backend currency tables of backend/utils/currency.js: `currencyConfig`, the
 * country-to-currency table and the lookups over them.
 *
 * The tables are JavaScript object literals. Looking a string up in one finds either an
 * own entry, a member every object inherits from `Object.prototype` (`toString`,
 * `__proto__`, ...; truthy, but not a table entry), or nothing. The model keeps that
 * distinction because the callers' `||` and `?.` fallbacks depend on it.
 */
module Currency {
  import opened Common

  /** The 21 keys of `currencyConfig`, in declaration order. */
  datatype Code = USD | EUR | GBP | INR | JPY | CAD | AUD | CHF | CNY | KRW | BRL
                | MXN | RUB | ZAR | SGD | HKD | NZD | SEK | NOK | DKK | PLN

  /** One value of `currencyConfig`. */
  datatype CurrencyInfo = CurrencyInfo(symbol: string, name: string, country: string, flag: string)

  /** One element of `getAllCurrencies()`: the key spread together with its value. */
  datatype CurrencyEntry = CurrencyEntry(code: string, symbol: string, name: string, country: string, flag: string)

  /** What a property lookup in an object literal yields. */
  datatype Member<T> = Own(value: T) | Inherited(name: string) | Absent

  /** `Object.keys(currencyConfig)`. */
  const ConfigOrder: seq<Code> :=
    [USD, EUR, GBP, INR, JPY, CAD, AUD, CHF, CNY, KRW, BRL, MXN, RUB, ZAR, SGD, HKD, NZD, SEK, NOK, DKK, PLN]

  function CodeName(c: Code): string
  {
    match c
    case USD => "USD" case EUR => "EUR" case GBP => "GBP" case INR => "INR" case JPY => "JPY"
    case CAD => "CAD" case AUD => "AUD" case CHF => "CHF" case CNY => "CNY" case KRW => "KRW"
    case BRL => "BRL" case MXN => "MXN" case RUB => "RUB" case ZAR => "ZAR" case SGD => "SGD"
    case HKD => "HKD" case NZD => "NZD" case SEK => "SEK" case NOK => "NOK" case DKK => "DKK"
    case PLN => "PLN"
  }

  /** `currencyConfig[c]`. */
  function Config(c: Code): (info: CurrencyInfo)
    ensures info.symbol != "" && info.name != ""
  {
    match c
    case USD => CurrencyInfo("$", "US Dollar", "US", "🇺🇸")
    case EUR => CurrencyInfo("€", "Euro", "EU", "🇪🇺")
    case GBP => CurrencyInfo("£", "British Pound", "GB", "🇬🇧")
    case INR => CurrencyInfo("₹", "Indian Rupee", "IN", "🇮🇳")
    case JPY => CurrencyInfo("¥", "Japanese Yen", "JP", "🇯🇵")
    case CAD => CurrencyInfo("C$", "Canadian Dollar", "CA", "🇨🇦")
    case AUD => CurrencyInfo("A$", "Australian Dollar", "AU", "🇦🇺")
    case CHF => CurrencyInfo("CHF", "Swiss Franc", "CH", "🇨🇭")
    case CNY => CurrencyInfo("¥", "Chinese Yuan", "CN", "🇨🇳")
    case KRW => CurrencyInfo("₩", "Korean Won", "KR", "🇰🇷")
    case BRL => CurrencyInfo("R$", "Brazilian Real", "BR", "🇧🇷")
    case MXN => CurrencyInfo("$", "Mexican Peso", "MX", "🇲🇽")
    case RUB => CurrencyInfo("₽", "Russian Ruble", "RU", "🇷🇺")
    case ZAR => CurrencyInfo("R", "South African Rand", "ZA", "🇿🇦")
    case SGD => CurrencyInfo("S$", "Singapore Dollar", "SG", "🇸🇬")
    case HKD => CurrencyInfo("HK$", "Hong Kong Dollar", "HK", "🇭🇰")
    case NZD => CurrencyInfo("NZ$", "New Zealand Dollar", "NZ", "🇳🇿")
    case SEK => CurrencyInfo("kr", "Swedish Krona", "SE", "🇸🇪")
    case NOK => CurrencyInfo("kr", "Norwegian Krone", "NO", "🇳🇴")
    case DKK => CurrencyInfo("kr", "Danish Krone", "DK", "🇩🇰")
    case PLN => CurrencyInfo("zł", "Polish Zloty", "PL", "🇵🇱")
  }

  /** The only key that can spell a three-letter string, chosen by its letters. */
  function CodeCandidate(s: string): Option<Code>
    requires |s| == 3
  {
    match s[0]
    case 'U' => Some(USD)
    case 'E' => Some(EUR)
    case 'G' => Some(GBP)
    case 'I' => Some(INR)
    case 'J' => Some(JPY)
    case 'C' => if s[1] == 'A' then Some(CAD) else if s[1] == 'H' then Some(CHF) else Some(CNY)
    case 'A' => Some(AUD)
    case 'K' => Some(KRW)
    case 'B' => Some(BRL)
    case 'M' => Some(MXN)
    case 'R' => Some(RUB)
    case 'Z' => Some(ZAR)
    case 'S' => if s[1] == 'G' then Some(SGD) else Some(SEK)
    case 'H' => Some(HKD)
    case 'N' => if s[1] == 'Z' then Some(NZD) else Some(NOK)
    case 'D' => Some(DKK)
    case 'P' => Some(PLN)
    case _ => None
  }

  /** The own key of `currencyConfig` spelled by `s`, if any. */
  function ParseCode(s: string): (r: Option<Code>)
    ensures r.Some? ==> CodeName(r.value) == s
    ensures r.None? ==> forall c :: CodeName(c) != s
  {
    if |s| != 3 then None
    else
      var k := CodeCandidate(s);
      if k.Some? && CodeName(k.value) == s then k else None
  }

  /** Names every object literal inherits from `Object.prototype`. */
  predicate InheritedName(s: string)
  {
    s in ["constructor", "hasOwnProperty", "isPrototypeOf", "propertyIsEnumerable",
          "toLocaleString", "toString", "valueOf", "__proto__", "__defineGetter__",
          "__defineSetter__", "__lookupGetter__", "__lookupSetter__"]
  }

  /** `currencyConfig[s]`. */
  function LookupConfig(s: string): (m: Member<CurrencyInfo>)
    ensures m.Own? <==> ParseCode(s).Some?
    ensures m.Own? ==> m.value == Config(ParseCode(s).value)
    ensures m.Inherited? <==> InheritedName(s)
  {
    match ParseCode(s)
    case Some(c) => Own(Config(c))
    case None => if InheritedName(s) then Inherited(s) else Absent
  }

  /** `getCurrencySymbol` of currency.js: `currencyConfig[code]?.symbol || "$"`. */
  function GetCurrencySymbol(code: string): (r: string)
    ensures r != ""
    ensures r != "$" ==> ParseCode(code).Some?
  {
    match LookupConfig(code)
    case Own(info) => if info.symbol != "" then info.symbol else "$"
    case _ => "$"
  }

  /** The configured symbol for a configured code, "$" for any other string. */
  lemma SymbolLookup(code: string)
    ensures ParseCode(code).Some? ==> GetCurrencySymbol(code) == Config(ParseCode(code).value).symbol
    ensures ParseCode(code).None? ==> GetCurrencySymbol(code) == "$"
  {
    if ParseCode(code).Some? {
      AllSymbolsNonEmpty(ParseCode(code).value);
    }
  }

  lemma AllSymbolsNonEmpty(c: Code)
    ensures Config(c).symbol != ""
  {
  }

  /** `getCurrencyInfo`: `currencyConfig[code] || currencyConfig["USD"]`. An inherited
      member is truthy, so it is returned as it is. */
  function GetCurrencyInfo(code: string): (m: Member<CurrencyInfo>)
    ensures ParseCode(code).Some? ==> m == Own(Config(ParseCode(code).value))
    ensures ParseCode(code).None? && !InheritedName(code) ==> m == Own(Config(USD))
    ensures InheritedName(code) ==> m == Inherited(code)
    ensures m.Inherited? <==> InheritedName(code)
  {
    match LookupConfig(code)
    case Absent => Own(Config(USD))
    case other => other
  }

  /** `getAllCurrencies`: `Object.entries(currencyConfig)` mapped to `{ code, ...info }`. */
  function GetAllCurrencies(): (r: seq<CurrencyEntry>)
    ensures |r| == |ConfigOrder|
  {
    seq(|ConfigOrder|, i requires 0 <= i < |ConfigOrder| =>
      var info := Config(ConfigOrder[i]);
      CurrencyEntry(CodeName(ConfigOrder[i]), info.symbol, info.name, info.country, info.flag))
  }

  /** The key order lists every configured code exactly once. */
  lemma ConfigOrderComplete()
    ensures |ConfigOrder| == 21
    ensures forall c :: c in ConfigOrder
    ensures forall i, j :: 0 <= i < j < |ConfigOrder| ==> ConfigOrder[i] != ConfigOrder[j]
  {
    forall c ensures c in ConfigOrder {
      match c
      case USD => assert ConfigOrder[0] == c;
      case EUR => assert ConfigOrder[1] == c;
      case GBP => assert ConfigOrder[2] == c;
      case INR => assert ConfigOrder[3] == c;
      case JPY => assert ConfigOrder[4] == c;
      case CAD => assert ConfigOrder[5] == c;
      case AUD => assert ConfigOrder[6] == c;
      case CHF => assert ConfigOrder[7] == c;
      case CNY => assert ConfigOrder[8] == c;
      case KRW => assert ConfigOrder[9] == c;
      case BRL => assert ConfigOrder[10] == c;
      case MXN => assert ConfigOrder[11] == c;
      case RUB => assert ConfigOrder[12] == c;
      case ZAR => assert ConfigOrder[13] == c;
      case SGD => assert ConfigOrder[14] == c;
      case HKD => assert ConfigOrder[15] == c;
      case NZD => assert ConfigOrder[16] == c;
      case SEK => assert ConfigOrder[17] == c;
      case NOK => assert ConfigOrder[18] == c;
      case DKK => assert ConfigOrder[19] == c;
      case PLN => assert ConfigOrder[20] == c;
    }
  }

  /** The position of a key in `Object.keys(currencyConfig)`. */
  function Position(c: Code): (i: nat)
    ensures i < |ConfigOrder| && ConfigOrder[i] == c
  {
    match c
    case USD => 0 case EUR => 1 case GBP => 2 case INR => 3 case JPY => 4
    case CAD => 5 case AUD => 6 case CHF => 7 case CNY => 8 case KRW => 9
    case BRL => 10 case MXN => 11 case RUB => 12 case ZAR => 13 case SGD => 14
    case HKD => 15 case NZD => 16 case SEK => 17 case NOK => 18 case DKK => 19
    case PLN => 20
  }

  /** `getAllCurrencies` yields one entry per configured code, in key order, with `code`
      the key and the other fields copied from its value. */
  lemma AllCurrenciesListed()
    ensures forall c :: GetAllCurrencies()[Position(c)].code == CodeName(c)
    ensures forall i :: 0 <= i < |GetAllCurrencies()| ==>
              ParseCode(GetAllCurrencies()[i].code) == Some(ConfigOrder[i])
              && GetAllCurrencies()[i].symbol == Config(ConfigOrder[i]).symbol
              && GetAllCurrencies()[i].name == Config(ConfigOrder[i]).name
              && GetAllCurrencies()[i].country == Config(ConfigOrder[i]).country
              && GetAllCurrencies()[i].flag == Config(ConfigOrder[i]).flag
  {
    var all := GetAllCurrencies();
    forall i | 0 <= i < |all| ensures ParseCode(all[i].code) == Some(ConfigOrder[i]) {
      NameParses(ConfigOrder[i]);
    }
  }

  /** Every key's name reads back as that key. */
  lemma NameParses(c: Code)
    ensures ParseCode(CodeName(c)) == Some(c)
  {
  }

  // ---------------------------------------------------------------------------
  // getCurrencyFromCountry
  // ---------------------------------------------------------------------------

  /** The 25 keys of `countryToCurrency`, in declaration order. */
  datatype Country = US | IN | GB | EU | DE | FR | IT | ES | JP | CA | AU | CH | CN
                   | KR | BR | MX | RU | ZA | SG | HK | NZ | SE | NO | DK | PL

  function CountryName(k: Country): string
  {
    match k
    case US => "US" case IN => "IN" case GB => "GB" case EU => "EU" case DE => "DE"
    case FR => "FR" case IT => "IT" case ES => "ES" case JP => "JP" case CA => "CA"
    case AU => "AU" case CH => "CH" case CN => "CN" case KR => "KR" case BR => "BR"
    case MX => "MX" case RU => "RU" case ZA => "ZA" case SG => "SG" case HK => "HK"
    case NZ => "NZ" case SE => "SE" case NO => "NO" case DK => "DK" case PL => "PL"
  }

  /** `countryToCurrency[k]`. */
  function CountryCurrency(k: Country): string
  {
    match k
    case US => "USD" case IN => "INR" case GB => "GBP" case EU => "EUR" case DE => "EUR"
    case FR => "EUR" case IT => "EUR" case ES => "EUR" case JP => "JPY" case CA => "CAD"
    case AU => "AUD" case CH => "CHF" case CN => "CNY" case KR => "KRW" case BR => "BRL"
    case MX => "MXN" case RU => "RUB" case ZA => "ZAR" case SG => "SGD" case HK => "HKD"
    case NZ => "NZD" case SE => "SEK" case NO => "NOK" case DK => "DKK" case PL => "PLN"
  }

  /** The only key that can spell a two-letter string, chosen by its letters. */
  function CountryCandidate(s: string): Option<Country>
    requires |s| == 2
  {
    match s[0]
    case 'U' => Some(US)
    case 'I' => if s[1] == 'N' then Some(IN) else Some(IT)
    case 'G' => Some(GB)
    case 'E' => if s[1] == 'U' then Some(EU) else Some(ES)
    case 'D' => if s[1] == 'E' then Some(DE) else Some(DK)
    case 'F' => Some(FR)
    case 'J' => Some(JP)
    case 'C' => if s[1] == 'A' then Some(CA) else if s[1] == 'H' then Some(CH) else Some(CN)
    case 'A' => Some(AU)
    case 'K' => Some(KR)
    case 'B' => Some(BR)
    case 'M' => Some(MX)
    case 'R' => Some(RU)
    case 'Z' => Some(ZA)
    case 'S' => if s[1] == 'G' then Some(SG) else Some(SE)
    case 'H' => Some(HK)
    case 'N' => if s[1] == 'Z' then Some(NZ) else Some(NO)
    case 'P' => Some(PL)
    case _ => None
  }

  /** The own key of `countryToCurrency` spelled by `s`, if any. */
  function ParseCountry(s: string): (r: Option<Country>)
    ensures r.Some? ==> CountryName(r.value) == s
    ensures r.None? ==> forall k :: CountryName(k) != s
  {
    if |s| != 2 then None
    else
      var k := CountryCandidate(s);
      if k.Some? && CountryName(k.value) == s then k else None
  }

  /** `getCurrencyFromCountry`: `countryToCurrency[countryCode] || "USD"`. */
  function CurrencyFromCountry(countryCode: string): (m: Member<string>)
    ensures m.Inherited? <==> ParseCountry(countryCode).None? && InheritedName(countryCode)
    ensures m.Own? ==> ParseCode(m.value).Some?
  {
    match ParseCountry(countryCode)
    case Some(k) =>
      CountryCurrencyParses(k);
      Own(if CountryCurrency(k) != "" then CountryCurrency(k) else "USD")
    case None => if InheritedName(countryCode) then Inherited(countryCode) else Own("USD")
  }

  /** The 25 listed countries map to their currency; any other country that is not an
      inherited member name maps to "USD". */
  lemma CountryLookup(countryCode: string)
    ensures forall k :: CountryName(k) == countryCode ==> CurrencyFromCountry(countryCode) == Own(CountryCurrency(k))
    ensures ParseCountry(countryCode).None? && !InheritedName(countryCode) ==> CurrencyFromCountry(countryCode) == Own("USD")
  {
  }

  /** Closure: every currency the country table can produce is a key of `currencyConfig`. */
  lemma CountryCurrencyIsConfigured(countryCode: string)
    ensures CurrencyFromCountry(countryCode).Own? ==> ParseCode(CurrencyFromCountry(countryCode).value).Some?
  {
    match ParseCountry(countryCode)
    case Some(k) => CountryCurrencyParses(k);
    case None =>
  }

  lemma CountryCurrencyParses(k: Country)
    ensures ParseCode(CountryCurrency(k)).Some?
  {
  }

  /** The listed country each configured code records. */
  function HomeCountry(c: Code): Country
  {
    match c
    case USD => US case EUR => EU case GBP => GB case INR => IN case JPY => JP
    case CAD => CA case AUD => AU case CHF => CH case CNY => CN case KRW => KR
    case BRL => BR case MXN => MX case RUB => RU case ZAR => ZA case SGD => SG
    case HKD => HK case NZD => NZ case SEK => SE case NOK => NO case DKK => DK
    case PLN => PL
  }

  lemma HomeCountryRecorded(c: Code)
    ensures Config(c).country == CountryName(HomeCountry(c))
    ensures CountryCurrency(HomeCountry(c)) == CodeName(c)
  {
  }

  lemma CountryNameParses(k: Country)
    ensures ParseCountry(CountryName(k)) == Some(k)
  {
  }

  /** Round trip: the country recorded for each configured code maps back to that code. */
  lemma CountryRoundTrip(c: Code)
    ensures CurrencyFromCountry(Config(c).country) == Own(CodeName(c))
  {
    HomeCountryRecorded(c);
    CountryNameParses(HomeCountry(c));
  }
}
