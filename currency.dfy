/** The display currency chosen by the visitor and its symbol. */
module Currency {
  import opened Wrappers

  datatype Currency = Usd | Lkr | Eur

  /** The euro symbol as the source text holds it: the UTF-8 bytes of "€"
      read as Windows-1252, three characters. */
  const EurAsWritten: string := ['\U{00E2}', '\U{201A}', '\U{00AC}']

  /** `currencySymbols`. */
  function Symbol(c: Currency): (s: string)
    ensures c == Usd ==> s == "$"
    ensures c == Lkr ==> s == "Rs "
    ensures c == Eur ==> s == EurAsWritten
  {
    match c
    case Usd => "$"
    case Lkr => "Rs "
    case Eur => EurAsWritten
  }

  /** The three symbols tell the currencies apart, and the euro one is not
      the euro sign. */
  lemma SymbolsDistinct(a: Currency, b: Currency)
    ensures Symbol(a) == Symbol(b) ==> a == b
    ensures Symbol(Eur) != "€"
  {
    assert Symbol(Eur)[0] != '€';
    if a != b {
      assert Symbol(a)[0] != Symbol(b)[0] || |Symbol(a)| != |Symbol(b)|;
    }
  }

  class CurrencyProvider {
    var currency: Currency

    constructor ()
      ensures currency == Usd
    {
      currency := Usd;
    }

    /** `getSymbol`. */
    function GetSymbol(): (s: string)
      reads this
      ensures s == Symbol(currency)
    {
      Symbol(currency)
    }

    /** `setCurrency`: the symbol follows. */
    method SetCurrency(c: Currency)
      modifies this
      ensures currency == c && GetSymbol() == Symbol(c)
    {
      currency := c;
    }
  }

  /** `useCurrency`: the provider's context, or the error thrown outside a
      provider. */
  function UseCurrency(context: Option<CurrencyProvider>): (r: Result<CurrencyProvider>)
    ensures context.None? <==> r == Err("useCurrency must be used within a CurrencyProvider")
    ensures context.Some? ==> r == Ok(context.value)
  {
    if context.None? then Err("useCurrency must be used within a CurrencyProvider") else Ok(context.value)
  }
}
