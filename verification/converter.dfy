/** The conversion rules of src/components/converter/CryptoConverter.tsx.

    The amount and the result are kept as the text the component stores. Reading
    the amount (`parseFloat`) and writing the result (`toFixed(8)`) are passed in as
    the functions `parse` and `render`; the arithmetic in between is over `real`. */
module Converter {
  import opened Crypto

  /** The component's four pieces of state. */
  datatype State = State(fromId: string, toId: string, amount: string, result: string)

  /** What changes the effect's inputs: the user's actions on the screen, and a new
      `cryptos` list from the parent (every background refresh). The conversion
      effect runs after each. */
  datatype Action =
    | SelectFrom(id: string)
    | SelectTo(id: string)
    | EnterAmount(text: string)
    | SwapPressed
    | ListChanged

  const Initial: State := State("bitcoin", "ethereum", "1", "0")

  /** `cryptos.find(c => c.id === id)?.current_price || 0`: the price of the first
      entry with that id, or 0 when there is none. */
  function PriceOf(cryptos: seq<Entry>, id: string): (price: real)
    ensures (forall k :: 0 <= k < |cryptos| ==> cryptos[k].id != id) ==> price == 0.0
    ensures forall k :: 0 <= k < |cryptos| && cryptos[k].id == id &&
                        (forall j :: 0 <= j < k ==> cryptos[j].id != id)
                        ==> price == cryptos[k].currentPrice
  {
    if cryptos == [] then 0.0
    else if cryptos[0].id == id then cryptos[0].currentPrice
    else PriceOf(cryptos[1..], id)
  }

  /** The converted amount: the amount's value in the reference currency divided by
      the target's price. */
  function ConvertedValue(amount: real, fromPrice: real, toPrice: real): (v: real)
    requires toPrice != 0.0
    ensures v * toPrice == amount * fromPrice
  {
    amount * fromPrice / toPrice
  }

  /** The guard of `convertCrypto`: both prices non-zero and the amount text non-empty. */
  predicate CanConvert(s: State, cryptos: seq<Entry>) {
    PriceOf(cryptos, s.fromId) != 0.0 && PriceOf(cryptos, s.toId) != 0.0 && s.amount != []
  }

  /** `convertCrypto`: updates the result when the guard holds; otherwise the previous
      result stays on screen. Nothing but the result ever changes. */
  function Convert(s: State, cryptos: seq<Entry>, parse: string -> real, render: real -> string): (r: State)
    ensures r.fromId == s.fromId && r.toId == s.toId && r.amount == s.amount
    ensures !CanConvert(s, cryptos) ==> r.result == s.result
    ensures CanConvert(s, cryptos) ==>
              r.result == render(ConvertedValue(parse(s.amount), PriceOf(cryptos, s.fromId), PriceOf(cryptos, s.toId)))
  {
    var fromPrice := PriceOf(cryptos, s.fromId);
    var toPrice := PriceOf(cryptos, s.toId);
    if fromPrice != 0.0 && toPrice != 0.0 && s.amount != [] then
      s.(result := render(ConvertedValue(parse(s.amount), fromPrice, toPrice)))
    else s
  }

  /** `swapCryptos`: exchanges the two currencies and moves the result into the amount. */
  function Swap(s: State): (r: State)
    ensures r.fromId == s.toId && r.toId == s.fromId
    ensures r.amount == s.result && r.result == s.result
  {
    State(s.toId, s.fromId, s.result, s.result)
  }

  function Apply(s: State, a: Action): State {
    match a
    case SelectFrom(id) => s.(fromId := id)
    case SelectTo(id) => s.(toId := id)
    case EnterAmount(text) => s.(amount := text)
    case SwapPressed => Swap(s)
    case ListChanged => s
  }

  /** One action followed by the conversion effect, run with the list current after
      the action (for `ListChanged`, the new list). The effect is keyed on the
      currencies, the amount and the list; running it when none of them changed is
      harmless because `Convert` is idempotent. */
  function Step(s: State, a: Action, cryptos: seq<Entry>, parse: string -> real, render: real -> string): State {
    Convert(Apply(s, a), cryptos, parse, render)
  }

  /** The effect on mount. */
  function Mounted(cryptos: seq<Entry>, parse: string -> real, render: real -> string): State {
    Convert(Initial, cryptos, parse, render)
  }

  // ---------------------------------------------------------------------------
  // Properties
  // ---------------------------------------------------------------------------

  /** Running the conversion twice is running it once. */
  lemma ConvertIdempotent(s: State, cryptos: seq<Entry>, parse: string -> real, render: real -> string)
    ensures Convert(Convert(s, cryptos, parse, render), cryptos, parse, render) == Convert(s, cryptos, parse, render)
  {
  }

  /** Converting a currency into itself returns the amount. */
  lemma ConvertToSelf(amount: real, price: real)
    requires price > 0.0
    ensures ConvertedValue(amount, price, price) == amount
  {
  }

  /** Converting there and back returns the original amount in exact arithmetic. */
  lemma {:induction false} ConvertRoundTrip(amount: real, priceA: real, priceB: real)
    requires priceA != 0.0 && priceB != 0.0
    ensures ConvertedValue(ConvertedValue(amount, priceA, priceB), priceB, priceA) == amount
  {
    var there := ConvertedValue(amount, priceA, priceB);
    var back := ConvertedValue(there, priceB, priceA);
    assert back * priceA == there * priceB;
    assert there * priceB == amount * priceA;
    assert (back - amount) * priceA == 0.0;
  }

  /** With the same currency on both sides and a positive price, the screen shows the
      amount itself. */
  lemma SameCurrencyShowsAmount(s: State, cryptos: seq<Entry>, parse: string -> real, render: real -> string)
    requires s.fromId == s.toId && PriceOf(cryptos, s.fromId) > 0.0 && s.amount != []
    ensures Convert(s, cryptos, parse, render).result == render(parse(s.amount))
  {
    ConvertToSelf(parse(s.amount), PriceOf(cryptos, s.fromId));
  }

  /** Swapping twice restores the pair of currencies. */
  lemma SwapTwiceRestoresPair(s: State)
    ensures Swap(Swap(s)).fromId == s.fromId && Swap(Swap(s)).toId == s.toId
  {
  }

  /** Pressing swap on a converted screen shows the original amount again, provided
      the result text reads back as the value it was rendered from (the 8-digit
      rounding of the component breaks this in general). */
  lemma SwapConvertsBack(s: State, cryptos: seq<Entry>, parse: string -> real, render: real -> string)
    requires CanConvert(s, cryptos)
    requires var v := ConvertedValue(parse(s.amount), PriceOf(cryptos, s.fromId), PriceOf(cryptos, s.toId));
             parse(render(v)) == v && render(v) != []
    ensures var converted := Convert(s, cryptos, parse, render);
            Step(converted, SwapPressed, cryptos, parse, render).result == render(parse(s.amount))
  {
    ConvertRoundTrip(parse(s.amount), PriceOf(cryptos, s.fromId), PriceOf(cryptos, s.toId));
  }

  /** A currency missing from the list prices at 0, so choosing it leaves the previous
      result on screen rather than showing 0. */
  lemma UnknownCurrencyKeepsResult(s: State, id: string, cryptos: seq<Entry>,
                                    parse: string -> real, render: real -> string)
    requires forall k :: 0 <= k < |cryptos| ==> cryptos[k].id != id
    ensures Step(s, SelectFrom(id), cryptos, parse, render).result == s.result
    ensures Step(s, SelectTo(id), cryptos, parse, render).result == s.result
  {
  }

  /** A new list re-runs the conversion at the new prices; when a currency has left
      the list or is priced at 0, the result computed from the old prices stays. */
  lemma ListChangeReprices(s: State, newList: seq<Entry>, parse: string -> real, render: real -> string)
    ensures var r := Step(s, ListChanged, newList, parse, render);
            && r.fromId == s.fromId && r.toId == s.toId && r.amount == s.amount
            && (CanConvert(s, newList) ==>
                  r.result == render(ConvertedValue(parse(s.amount), PriceOf(newList, s.fromId), PriceOf(newList, s.toId))))
            && (!CanConvert(s, newList) ==> r.result == s.result)
  {
  }

  /** After a refresh, swapping moves the re-priced result, not the one computed from
      the old prices, into the amount field. */
  lemma SwapAfterRefreshUsesNewPrices(s: State, newList: seq<Entry>, parse: string -> real, render: real -> string)
    requires CanConvert(s, newList)
    ensures var refreshed := Step(s, ListChanged, newList, parse, render);
            Step(refreshed, SwapPressed, newList, parse, render).amount ==
              render(ConvertedValue(parse(s.amount), PriceOf(newList, s.fromId), PriceOf(newList, s.toId)))
  {
  }

  /** Clearing the amount field leaves the previous result on screen. */
  lemma EmptyAmountKeepsResult(s: State, cryptos: seq<Entry>, parse: string -> real, render: real -> string)
    ensures Step(s, EnterAmount([]), cryptos, parse, render).result == s.result
  {
  }

  /** On a list holding bitcoin at 50000 and ethereum at 2500, one bitcoin shows as
      twenty ethereum on mount. */
  lemma MountedExample(parse: string -> real, render: real -> string)
    requires parse("1") == 1.0
    ensures var cryptos := [Entry("bitcoin", "Bitcoin", "btc", 50000.0, 0.0),
                            Entry("ethereum", "Ethereum", "eth", 2500.0, 0.0)];
            Mounted(cryptos, parse, render) == State("bitcoin", "ethereum", "1", render(20.0))
  {
    var cryptos := [Entry("bitcoin", "Bitcoin", "btc", 50000.0, 0.0),
                    Entry("ethereum", "Ethereum", "eth", 2500.0, 0.0)];
    assert PriceOf(cryptos, "bitcoin") == 50000.0;
    assert PriceOf(cryptos, "ethereum") == 2500.0;
  }
}
