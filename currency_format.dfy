/**
 * backend/utils/currencyFormatter.js: a second symbol lookup over `currencyConfig` and
 * the prefixing half of `formatCurrency`.
 *
 * The lookup here tests the table value itself (`currency ? currency.symbol : "$"`),
 * where currency.js tests the symbol (`?.symbol || "$"`). The two differ only on the
 * names every object inherits: here the inherited member is truthy and has no `symbol`,
 * so the result is `undefined`, modelled as `None`.
 */
module CurrencyFormat {
  import opened Common
  import Currency

  /** `getCurrencySymbol(currencyCode = "USD")`; `None` in the result is `undefined`. */
  function GetCurrencySymbol(code: Option<string>): (r: Option<string>)
    ensures r.None? <==> code.Some? && Currency.InheritedName(code.value)
    ensures r.Some? ==> r.value != ""
  {
    var key := if code.None? then "USD" else code.value;
    match Currency.LookupConfig(key)
    case Own(info) => Some(info.symbol)
    case Inherited(_) => None
    case Absent => Some("$")
  }

  /** How a template literal renders the symbol. */
  function Rendered(symbol: Option<string>): string
  {
    if symbol.Some? then symbol.value else "undefined"
  }

  /** `formatCurrency(amount, currencyCode = "USD")`, given the already formatted amount. */
  function FormatCurrency(amountText: string, code: Option<string>): (r: string)
    ensures |r| >= |amountText|
    ensures r[|r| - |amountText|..] == amountText
    ensures r[..|r| - |amountText|] == Rendered(GetCurrencySymbol(code))
  {
    Rendered(GetCurrencySymbol(code)) + amountText
  }

  /** The configured symbol for a configured code, "$" for an unknown one, `undefined`
      for an inherited member name. */
  lemma SymbolLookup(code: string)
    ensures Currency.ParseCode(code).Some? ==>
              GetCurrencySymbol(Some(code)) == Some(Currency.Config(Currency.ParseCode(code).value).symbol)
    ensures Currency.ParseCode(code).None? && !Currency.InheritedName(code) ==>
              GetCurrencySymbol(Some(code)) == Some("$")
    ensures Currency.InheritedName(code) ==> GetCurrencySymbol(Some(code)) == None
  {
    if Currency.InheritedName(code) {
      InheritedNamesAreNotCodes(code);
    }
  }

  lemma InheritedNamesAreNotCodes(s: string)
    requires Currency.InheritedName(s)
    ensures Currency.ParseCode(s).None?
  {
  }

  /** An omitted code means "USD", whose symbol is "$". */
  lemma OmittedCodeIsDollar()
    ensures GetCurrencySymbol(None) == Some("$")
    ensures FormatCurrency("0", None) == "$0"
  {
    Currency.NameParses(Currency.USD);
  }

  /** Agreement with `getCurrencySymbol` of currency.js on every string that is not an
      inherited member name; on those the two lookups give "$" and `undefined`. */
  lemma AgreesWithCurrencyModule(code: string)
    ensures !Currency.InheritedName(code) ==>
              GetCurrencySymbol(Some(code)) == Some(Currency.GetCurrencySymbol(code))
    ensures Currency.InheritedName(code) ==>
              GetCurrencySymbol(Some(code)) == None && Currency.GetCurrencySymbol(code) == "$"
  {
    SymbolLookup(code);
    Currency.SymbolLookup(code);
  }
}
