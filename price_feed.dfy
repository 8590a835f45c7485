/**
 * The price source of the trade controller: one quote request for five coins,
 * mapped to five trading pairs with a fixed fallback price per pair.
 *
 * The quote payload is modelled as a map from the coin id that was asked for
 * ("bitcoin", "ethereum", ...) to the `usd` number found under it; a coin whose
 * entry or whose `usd` field is absent is simply not a key of the map.
 * A request that fails in any way is `FetchError`.
 */
module PriceFeed {

  /** The five trading pairs the controller quotes. */
  datatype Pair = BtcUsdt | EthUsdt | SolUsdt | BnbUsdt | XrpUsdt

  /** Outcome of the quote request, supplied by the caller. */
  datatype Quote = Fetched(payload: map<string, real>) | FetchError

  /** A price for every pair. */
  type Prices = map<Pair, real>

  const AllPairs: set<Pair> := {BtcUsdt, EthUsdt, SolUsdt, BnbUsdt, XrpUsdt}

  /** The coin id under which the quote service reports a pair. */
  function CoinId(p: Pair): string
  {
    match p
    case BtcUsdt => "bitcoin"
    case EthUsdt => "ethereum"
    case SolUsdt => "solana"
    case BnbUsdt => "binancecoin"
    case XrpUsdt => "xrp"
  }

  /** The fixed price used when the service gives nothing usable for a pair. */
  function DefaultPrice(p: Pair): real
  {
    match p
    case BtcUsdt => 60000.0
    case EthUsdt => 3000.0
    case SolUsdt => 150.0
    case BnbUsdt => 400.0
    case XrpUsdt => 0.5
  }

  /**
   * One pair's price from a payload: the reported value unless it is missing
   * or zero (the falsy values of `value || default` on numbers).
   */
  function PriceFrom(payload: map<string, real>, p: Pair): real
  {
    if CoinId(p) in payload && payload[CoinId(p)] != 0.0 then payload[CoinId(p)] else DefaultPrice(p)
  }

  /** The price table returned for a quote outcome. */
  function GetPrices(q: Quote): (r: Prices)
    ensures r.Keys == AllPairs
  {
    match q
    case Fetched(payload) => map p | p in AllPairs :: PriceFrom(payload, p)
    case FetchError => map p | p in AllPairs :: DefaultPrice(p)
  }

  /** The price of one pair under a quote outcome. */
  function PriceOf(q: Quote, p: Pair): (r: real)
    ensures r != 0.0
    ensures q.FetchError? ==> r == DefaultPrice(p)
  {
    DefaultsPositive(p);
    GetPrices(q)[p]
  }

  lemma DefaultsPositive(p: Pair)
    ensures DefaultPrice(p) > 0.0
  {
  }

  /**
   * A successful quote uses the reported value of a pair exactly when it is
   * present and non-zero, and the pair's default otherwise.
   */
  lemma ReportedValueUsedIffPresentAndNonZero(payload: map<string, real>, p: Pair)
    ensures var r := GetPrices(Fetched(payload))[p];
      (CoinId(p) in payload && payload[CoinId(p)] != 0.0 ==> r == payload[CoinId(p)]) &&
      (CoinId(p) !in payload || payload[CoinId(p)] == 0.0 ==> r == DefaultPrice(p))
  {
  }

  /** A failed quote gives every pair its default price. */
  lemma ErrorGivesAllDefaults(p: Pair)
    ensures GetPrices(FetchError)[p] == DefaultPrice(p)
    ensures GetPrices(FetchError)[p] > 0.0
  {
    DefaultsPositive(p);
  }

  /** A payload with nothing usable in it yields the same table as a failed quote. */
  lemma EmptyPayloadSameAsError(payload: map<string, real>)
    requires forall p :: p in AllPairs ==> CoinId(p) !in payload || payload[CoinId(p)] == 0.0
    ensures GetPrices(Fetched(payload)) == GetPrices(FetchError)
  {
  }

  /** A price is never zero; it is positive whenever the service reports no negative value. */
  lemma PricePositive(q: Quote, p: Pair)
    requires q.Fetched? ==> forall id :: id in q.payload ==> q.payload[id] >= 0.0
    ensures PriceOf(q, p) > 0.0
  {
    DefaultsPositive(p);
  }

  /** A pair's price depends only on the entry for its own coin id. */
  lemma PriceDependsOnOwnCoinOnly(payload: map<string, real>, p: Pair, id: string, v: real)
    requires id != CoinId(p)
    ensures PriceOf(Fetched(payload[id := v]), p) == PriceOf(Fetched(payload), p)
  {
  }
}
