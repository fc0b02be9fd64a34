/**
 * Currencies and the registry that maps currency codes to them (`Currency`, `add_currency`,
 * `get_currency` and the table built when the module is loaded).
 */
module Currencies {
  import opened Outcomes

  /**
   * A currency: its code, ISO numeric code, name, the countries that use it, the number of
   * decimal places amounts in it are quantized to, and the number of places shown.
   */
  datatype Currency = Currency(
    code: string,
    numeric: string,
    name: string,
    countries: seq<string>,
    significantDigits: nat,
    displayDigits: nat)

  /** What a currency can be compared with: another currency, a string, or anything else. */
  datatype Comparand = OfCurrency(currency: Currency) | OfText(text: string) | OfAnything

  /**
   * `Currency.__eq__`: currencies are equal when their codes are, a currency equals the string
   * that is its code, and it equals nothing else.
   */
  function CurrencyEquals(c: Currency, other: Comparand): (r: bool)
    ensures other.OfCurrency? ==> (r <==> c.code == other.currency.code)
    ensures other.OfText? ==> (r <==> c.code == other.text)
    ensures other.OfAnything? ==> !r
  {
    match other
    case OfCurrency(d) => c.code == d.code
    case OfText(s) => c.code == s
    case OfAnything => false
  }

  /** `Currency.__ne__`: the negation of equality. */
  function CurrencyNotEquals(c: Currency, other: Comparand): (r: bool)
    ensures r <==> !CurrencyEquals(c, other)
  {
    !CurrencyEquals(c, other)
  }

  /** Equality of currencies is an equivalence relation that ignores everything but the code. */
  lemma CurrencyEqualsEquivalence(a: Currency, b: Currency, c: Currency)
    ensures CurrencyEquals(a, OfCurrency(a))
    ensures CurrencyEquals(a, OfCurrency(b)) == CurrencyEquals(b, OfCurrency(a))
    ensures CurrencyEquals(a, OfCurrency(b)) && CurrencyEquals(b, OfCurrency(c)) ==>
              CurrencyEquals(a, OfCurrency(c))
    ensures CurrencyEquals(a, OfCurrency(b)) == CurrencyEquals(a, OfText(b.code))
  {
  }

  /** ASCII upper-casing of one character, as `str.upper` does on byte strings. */
  function UpperChar(ch: char): (r: char)
    ensures 'a' <= ch <= 'z' ==> 'A' <= r <= 'Z'
    ensures !('a' <= ch <= 'z') ==> r == ch
  {
    if 'a' <= ch <= 'z' then (ch as int - 'a' as int + 'A' as int) as char else ch
  }

  /** ASCII upper-casing of a string. */
  function Upper(s: string): (r: string)
    ensures |r| == |s|
    ensures forall i :: 0 <= i < |s| ==> r[i] == UpperChar(s[i])
  {
    if s == [] then [] else [UpperChar(s[0])] + Upper(s[1..])
  }

  /** Upper-casing twice is upper-casing once. */
  lemma {:induction false} UpperIdempotent(s: string)
    ensures Upper(Upper(s)) == Upper(s)
  {
    var u := Upper(s);
    assert forall i :: 0 <= i < |s| ==> UpperChar(u[i]) == u[i];
  }

  /** The registry's contents: currency code to currency. */
  type Table = map<string, Currency>

  /** Every currency is registered under its own code, as `add_currency` does. */
  predicate WellFormedTable(t: Table) {
    forall k :: k in t ==> t[k].code == k
  }

  /** `get_currency`: the registered currency, or `CurrencyDoesNotExist` naming the code. */
  function GetCurrency(t: Table, code: string): (r: Result<Currency>)
    ensures r.Success? <==> code in t
    ensures r.Success? ==> r.value == t[code]
    ensures r.Failure? ==> r.error == CurrencyDoesNotExist(code)
  {
    if code in t then Success(t[code]) else Failure(CurrencyDoesNotExist(code))
  }

  /** The code `Money` falls back to when none is given. */
  const DefaultCurrencyCode: string := "BTC"

  /** `DEFAULT_CURRENCY`: the first currency registered, with 5 places. */
  const DefaultCurrency: Currency := Currency("BTC", "999", "Default currency.", [], 5, 2)

  /** The Bitcoin entry registered later under the same code, with 8 places. */
  const Bitcoin: Currency := Currency("BTC", "Nil", "Bitcoin", [], 8, 8)

  const Euro: Currency := Currency("EUR", "978", "Euro", [], 5, 2)
  const Yen: Currency := Currency("JPY", "392", "Yen", [], 5, 2)
  const Zloty: Currency := Currency("PLN", "985", "Zloty", [], 5, 2)
  const UsDollar: Currency := Currency("USD", "840", "US Dollar", [], 5, 2)

  /** The table once the module has loaded, restricted to the currencies this model keeps. */
  function StandardTable(): Table {
    map["BTC" := Bitcoin, "EUR" := Euro, "JPY" := Yen, "PLN" := Zloty, "USD" := UsDollar]
  }

  /**
   * `Money()` resolves "BTC" to the 8-place Bitcoin entry, because it replaced the default
   * currency in the table; the default currency still compares equal to it by code.
   */
  lemma DefaultCurrencyShadowed()
    ensures WellFormedTable(StandardTable())
    ensures GetCurrency(StandardTable(), DefaultCurrencyCode) == Success(Bitcoin)
    ensures Bitcoin.significantDigits == 8 && DefaultCurrency.significantDigits == 5
    ensures CurrencyEquals(DefaultCurrency, OfCurrency(Bitcoin)) && DefaultCurrency != Bitcoin
  {
  }

  /** The module-level currency table, which `add_currency` updates in place. */
  class Registry {
    var table: Table

    /** The registry after the module's `add_currency` calls, in their order. */
    constructor ()
      ensures table == StandardTable()
      ensures defaultCurrency == DefaultCurrency
    {
      table := map[];
      defaultCurrency := DefaultCurrency;
      new;
      var d := AddCurrency("BTC", "999", "Default currency.", []);
      defaultCurrency := d;
      var b := AddCurrency("BTC", "Nil", "Bitcoin", [], 8, 8);
      assert table == map["BTC" := Bitcoin];
      var e := AddCurrency("EUR", "978", "Euro", []);
      var j := AddCurrency("JPY", "392", "Yen", []);
      var p := AddCurrency("PLN", "985", "Zloty", []);
      var u := AddCurrency("USD", "840", "US Dollar", []);
      assert table == map["BTC" := Bitcoin][e.code := e][j.code := j][p.code := p][u.code := u];
    }

    /** `DEFAULT_CURRENCY`, the value the first `add_currency` call returned. */
    var defaultCurrency: Currency

    /**
     * `add_currency`: build a currency (5 places and 2 shown unless given), register it under
     * its code, replacing any earlier entry, and return it.
     */
    method AddCurrency(code: string, numeric: string, name: string, countries: seq<string>,
                       significantDigits: nat := 5, displayDigits: nat := 2)
      returns (c: Currency)
      modifies this
      ensures c == Currency(code, numeric, name, countries, significantDigits, displayDigits)
      ensures table == old(table)[code := c]
      ensures defaultCurrency == old(defaultCurrency)
      ensures WellFormedTable(old(table)) ==> WellFormedTable(table)
    {
      c := Currency(code, numeric, name, countries, significantDigits, displayDigits);
      table := table[code := c];
    }
  }
}
