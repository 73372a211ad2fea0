/**
 * The currency repository of the Android client (CurrencyRepositoryImpl.kt):
 * picking the three tracked rates out of the server's list, and the
 * cache-then-refresh step that emits them.
 */
module Currency {
  import opened Common

  /** An exchange rate. The source uses a double and NaN for "not found"; rates are only copied, so any real stands for a number. */
  datatype Rate = Missing | Known(value: real)

  /** One entry of the server's currency list. */
  datatype CurrencyDto = CurrencyDto(charCode: string, value: real)

  /** The rates the app tracks, against the base currency. */
  datatype CurrencyRates = CurrencyRates(usd: Rate, eur: Rate, rub: Rate)

  /** `findValueByCurrencyCode`: the value of the first entry with `code`, or NaN when there is none. */
  function FindValueByCurrencyCode(currencies: seq<CurrencyDto>, code: string): (r: Rate)
    ensures r.Missing? <==> forall i :: 0 <= i < |currencies| ==> currencies[i].charCode != code
    ensures forall i :: 0 <= i < |currencies| && currencies[i].charCode == code
                        && (forall j :: 0 <= j < i ==> currencies[j].charCode != code)
                        ==> r == Known(currencies[i].value)
  {
    if currencies == [] then Missing
    else if currencies[0].charCode == code then Known(currencies[0].value)
    else
      var r := FindValueByCurrencyCode(currencies[1..], code);
      assert forall i :: 1 <= i < |currencies| ==> currencies[i] == currencies[1..][i - 1];
      r
  }

  /** `getCurrencyRatesFromXml`: the (usd, eur, rub) rates, each looked up on its own code. */
  function GetCurrencyRatesFromXml(currencies: seq<CurrencyDto>): (r: CurrencyRates)
    ensures r.usd.Missing? <==> forall i :: 0 <= i < |currencies| ==> currencies[i].charCode != "USD"
    ensures r.eur.Missing? <==> forall i :: 0 <= i < |currencies| ==> currencies[i].charCode != "EUR"
    ensures r.rub.Missing? <==> forall i :: 0 <= i < |currencies| ==> currencies[i].charCode != "RUB"
    ensures forall i :: 0 <= i < |currencies| && currencies[i].charCode == "USD"
                        && (forall j :: 0 <= j < i ==> currencies[j].charCode != "USD")
                        ==> r.usd == Known(currencies[i].value)
    ensures forall i :: 0 <= i < |currencies| && currencies[i].charCode == "EUR"
                        && (forall j :: 0 <= j < i ==> currencies[j].charCode != "EUR")
                        ==> r.eur == Known(currencies[i].value)
    ensures forall i :: 0 <= i < |currencies| && currencies[i].charCode == "RUB"
                        && (forall j :: 0 <= j < i ==> currencies[j].charCode != "RUB")
                        ==> r.rub == Known(currencies[i].value)
  {
    var usd := FindValueByCurrencyCode(currencies, "USD");
    var eur := FindValueByCurrencyCode(currencies, "EUR");
    var rub := FindValueByCurrencyCode(currencies, "RUB");
    CurrencyRates(usd, eur, rub)
  }

  /** The entries of `currencies` whose code is `code`, in order. */
  function EntriesFor(currencies: seq<CurrencyDto>, code: string): seq<CurrencyDto>
  {
    if currencies == [] then []
    else (if currencies[0].charCode == code then [currencies[0]] else []) + EntriesFor(currencies[1..], code)
  }

  /** The lookup of a code depends only on the entries carrying that code. */
  lemma {:induction false} LookupDependsOnlyOnOwnCode(currencies: seq<CurrencyDto>, code: string)
    ensures FindValueByCurrencyCode(currencies, code) == FindValueByCurrencyCode(EntriesFor(currencies, code), code)
  {
    if currencies != [] {
      LookupDependsOnlyOnOwnCode(currencies[1..], code);
      if currencies[0].charCode == code {
        assert EntriesFor(currencies, code)[0] == currencies[0];
      } else {
        assert EntriesFor(currencies, code) == EntriesFor(currencies[1..], code);
      }
    }
  }

  /**
   * The three rates are looked up independently: two lists with the same entries for
   * one code give the same rate for it, whatever they hold for the other codes.
   */
  lemma RatesAreIndependent(a: seq<CurrencyDto>, b: seq<CurrencyDto>)
    ensures EntriesFor(a, "USD") == EntriesFor(b, "USD") ==> GetCurrencyRatesFromXml(a).usd == GetCurrencyRatesFromXml(b).usd
    ensures EntriesFor(a, "EUR") == EntriesFor(b, "EUR") ==> GetCurrencyRatesFromXml(a).eur == GetCurrencyRatesFromXml(b).eur
    ensures EntriesFor(a, "RUB") == EntriesFor(b, "RUB") ==> GetCurrencyRatesFromXml(a).rub == GetCurrencyRatesFromXml(b).rub
  {
    LookupDependsOnlyOnOwnCode(a, "USD");
    LookupDependsOnlyOnOwnCode(b, "USD");
    LookupDependsOnlyOnOwnCode(a, "EUR");
    LookupDependsOnlyOnOwnCode(b, "EUR");
    LookupDependsOnlyOnOwnCode(a, "RUB");
    LookupDependsOnlyOnOwnCode(b, "RUB");
  }

  /** The repository with its one cached row of rates (the currency-rates DAO). */
  class CurrencyRepository {
    var cachedRates: Option<CurrencyRates>

    constructor (cached: Option<CurrencyRates>)
      ensures cachedRates == cached
    {
      cachedRates := cached;
    }

    /**
     * `getCurrency`: emits the cached row first when there is one, then the
     * outcome of the network call; only the success mapper writes the cache,
     * and it returns the same rates it stores.
     */
    method GetCurrency(response: Result<seq<CurrencyDto>, string>) returns (emitted: seq<Resource<CurrencyRates>>)
      modifies this
      ensures old(cachedRates).Some? ==> |emitted| == 2 && emitted[0] == Success(old(cachedRates).value)
      ensures old(cachedRates).None? ==> |emitted| == 1
      ensures response.Ok? ==> cachedRates == Some(GetCurrencyRatesFromXml(response.value))
                               && emitted[|emitted| - 1] == Success(GetCurrencyRatesFromXml(response.value))
      ensures response.Err? ==> cachedRates == old(cachedRates)
                                && emitted[|emitted| - 1] == Error(response.error)
    {
      emitted := [];
      if cachedRates.Some? {
        emitted := emitted + [Success(cachedRates.value)];
      }
      match response {
        case Ok(currencies) =>
          var currencyRates := GetCurrencyRatesFromXml(currencies);
          cachedRates := Some(currencyRates);
          emitted := emitted + [Success(currencyRates)];
        case Err(message) =>
          emitted := emitted + [Error(message)];
      }
    }
  }
}
