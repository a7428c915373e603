/** Card records as the catalog's JSON delivers them. Every key may be
    missing; `None` below stands for a missing key, which the scripts read
    through `dict.get(key, default)`. */
module Catalog {
  import opened Py

  datatype Card = Card(
    name: Option<Value>,
    cardSet: Option<CardSet>,
    supertype: Option<Value>,
    number: Option<Value>,
    rarity: Option<Value>,
    tcgplayer: Option<TcgPlayer>,
    id: Option<Value>,
    otherKeys: bool)  // whether the object has keys the scripts never read

  datatype CardSet = CardSet(name: Option<Value>)
  datatype TcgPlayer = TcgPlayer(prices: Option<Prices>, url: Option<Value>)
  datatype Prices = Prices(normal: Option<Quote>, reverseHolofoil: Option<Quote>, holofoil: Option<Quote>)
  datatype Quote = Quote(market: Option<Value>)

  /** The three finishes a row's Shiny cell may name. */
  datatype Variant = Normal | ReverseHolofoil | Holofoil

  /** `get(key, '')` on a leaf field: the stored value, or `''` when the
      key is missing. */
  function Field(o: Option<Value>): (v: Value)
    ensures o.Some? ==> v == o.value
    ensures o.None? ==> v == Str("")
  {
    if o.Some? then o.value else Str("")
  }

  /** Whether the card object is `{}`, which Python treats as false: the
      one card with no key at all. */
  predicate IsEmptyObject(c: Card)
    ensures IsEmptyObject(c) <==> c == Card(None, None, None, None, None, None, None, false)
  {
    c.name.None? && c.cardSet.None? && c.supertype.None? && c.number.None? && c.rarity.None?
    && c.tcgplayer.None? && c.id.None? && !c.otherKeys
  }

  /** The Shiny cell compared with `==` against the three finish names; any
      other value, including one with extra whitespace, selects nothing. */
  function VariantOf(shiny: Value): (r: Option<Variant>)
    ensures r.Some? <==> shiny in {Str("Normal"), Str("Reverse Holofoil"), Str("Holofoil")}
  {
    if shiny == Str("Normal") then Some(Normal)
    else if shiny == Str("Reverse Holofoil") then Some(ReverseHolofoil)
    else if shiny == Str("Holofoil") then Some(Holofoil)
    else None
  }

  /** The quote of one finish in a price table: the finishes are stored
      under the keys `normal`, `reverseHolofoil` and `holofoil`. */
  function QuoteFor(p: Prices, v: Variant): (q: Option<Quote>)
    ensures v == Normal ==> q == p.normal
    ensures v == ReverseHolofoil ==> q == p.reverseHolofoil
    ensures v == Holofoil ==> q == p.holofoil
  {
    match v
    case Normal => p.normal
    case ReverseHolofoil => p.reverseHolofoil
    case Holofoil => p.holofoil
  }

  /** `tcgplayer.prices.<variant>.market` of a card, each missing level
      read as `{}` and a missing market price as `''`: the price is the
      market value stored under the finish when every level is present,
      and `''` as soon as one is missing. */
  function MarketPrice(c: Card, v: Variant): (price: Value)
    ensures c.tcgplayer.None? || c.tcgplayer.value.prices.None? ==> price == Str("")
    ensures price != Str("") ==>
              && c.tcgplayer.Some? && c.tcgplayer.value.prices.Some?
              && QuoteFor(c.tcgplayer.value.prices.value, v).Some?
              && QuoteFor(c.tcgplayer.value.prices.value, v).value.market == Some(price)
    ensures (&& c.tcgplayer.Some? && c.tcgplayer.value.prices.Some?
             && QuoteFor(c.tcgplayer.value.prices.value, v).Some?
             && QuoteFor(c.tcgplayer.value.prices.value, v).value.market.Some?)
            ==> price == QuoteFor(c.tcgplayer.value.prices.value, v).value.market.value
    ensures (|| c.tcgplayer.None? || c.tcgplayer.value.prices.None?
             || QuoteFor(c.tcgplayer.value.prices.value, v).None?
             || QuoteFor(c.tcgplayer.value.prices.value, v).value.market.None?)
            ==> price == Str("")
  {
    if c.tcgplayer.None? || c.tcgplayer.value.prices.None? then Str("")
    else
      var q := QuoteFor(c.tcgplayer.value.prices.value, v);
      if q.None? then Str("") else Field(q.value.market)
  }
}
