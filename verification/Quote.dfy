/** Quote amounts: base times an 18-decimal unit price, rounded up (`_quoteFor`). */
module Quote {
  import opened Basics

  const PRICE_SCALE: nat := 1_000_000_000_000_000_000
  const MAX_COMPONENT: nat := 1_000_000_000_000_000_000_000_000_000_000_000_000

  function QuoteFor(baseAmount: nat, unitPriceWei: nat): nat {
    var product := baseAmount * unitPriceWei;
    if product == 0 then 0 else (product - 1) / PRICE_SCALE + 1
  }

  /** The same in checked 256-bit arithmetic: `None` is the panic on overflow. */
  function CheckedQuoteFor(baseAmount: Word, unitPriceWei: Word): Option<Word> {
    if baseAmount * unitPriceWei > MAX_WORD then None
    else
      assert QuoteFor(baseAmount, unitPriceWei) <= baseAmount * unitPriceWei;
      Some(QuoteFor(baseAmount, unitPriceWei))
  }

  /** It is the ceiling of the exact quotient: the only number that covers it by less than one unit. */
  lemma QuoteIsCeiling(baseAmount: nat, unitPriceWei: nat, q: nat)
    ensures q == QuoteFor(baseAmount, unitPriceWei) <==>
            baseAmount * unitPriceWei <= q * 1_000_000_000_000_000_000
            < baseAmount * unitPriceWei + 1_000_000_000_000_000_000
  {
    CeilingOf(baseAmount * unitPriceWei, q);
  }

  /** Prices are quote units per 1e18 base units: so many whole units cost exactly so many times the price. */
  lemma QuoteOfWholeUnits(units: nat, unitPriceWei: nat)
    ensures QuoteFor(units * 1_000_000_000_000_000_000, unitPriceWei) == units * unitPriceWei
  {
    var scale := 1_000_000_000_000_000_000;
    assert units * scale * unitPriceWei == units * unitPriceWei * scale;
    QuoteIsCeiling(units * scale, unitPriceWei, units * unitPriceWei);
  }

  lemma CeilingOf(product: nat, q: nat)
    ensures q == (if product == 0 then 0 else (product - 1) / PRICE_SCALE + 1) <==>
            product <= q * PRICE_SCALE < product + PRICE_SCALE
  {
  }

  lemma ProductMonotone(a: nat, b: nat, c: nat, d: nat)
    requires a <= c && b <= d
    ensures a * b <= c * d
  {
    assert a * b <= c * b;
    assert c * b <= c * d;
  }

  lemma QuoteMonotone(baseAmount: nat, low: nat, high: nat)
    requires low <= high
    ensures QuoteFor(baseAmount, low) <= QuoteFor(baseAmount, high)
  {
    ProductMonotone(baseAmount, low, baseAmount, high);
  }

  /** Components within the cap never overflow, so the checked quote is the exact one. */
  lemma QuoteFits(baseAmount: Word, unitPriceWei: Word)
    requires baseAmount <= MAX_COMPONENT && unitPriceWei <= MAX_COMPONENT
    ensures CheckedQuoteFor(baseAmount, unitPriceWei) == Some(QuoteFor(baseAmount, unitPriceWei))
  {
    ProductMonotone(baseAmount, unitPriceWei, MAX_COMPONENT, MAX_COMPONENT);
  }

  /** `quoteAmount`: `None` is the revert on a component beyond the cap. */
  function QuoteAmount(baseAmount: Word, unitPriceWei: Word): (q: Option<Word>)
    ensures q.Some? <==>
            && baseAmount <= 1_000_000_000_000_000_000_000_000_000_000_000_000
            && unitPriceWei <= 1_000_000_000_000_000_000_000_000_000_000_000_000
    ensures q.Some? ==>
              baseAmount * unitPriceWei <= q.value * 1_000_000_000_000_000_000
              < baseAmount * unitPriceWei + 1_000_000_000_000_000_000
  {
    if baseAmount > MAX_COMPONENT || unitPriceWei > MAX_COMPONENT then None
    else
      QuoteFits(baseAmount, unitPriceWei);
      QuoteIsCeiling(baseAmount, unitPriceWei, QuoteFor(baseAmount, unitPriceWei));
      CheckedQuoteFor(baseAmount, unitPriceWei)
  }

  lemma QuotePositive(baseAmount: nat, unitPriceWei: nat)
    requires baseAmount > 0 && unitPriceWei > 0
    ensures QuoteFor(baseAmount, unitPriceWei) > 0
  {
    ProductMonotone(1, 1, baseAmount, unitPriceWei);
  }

  /** A clearing price inside the collar costs between the floor's quote and the ceiling's. */
  lemma QuoteWithinCollar(baseAmount: Word, floor: Word, price: Word, ceiling: Word)
    requires floor <= price <= ceiling && baseAmount <= MAX_COMPONENT && ceiling <= MAX_COMPONENT
    ensures CheckedQuoteFor(baseAmount, price).Some?
    ensures QuoteFor(baseAmount, floor) <= CheckedQuoteFor(baseAmount, price).value <= QuoteFor(baseAmount, ceiling)
  {
    QuoteFits(baseAmount, price);
    QuoteMonotone(baseAmount, floor, price);
    QuoteMonotone(baseAmount, price, ceiling);
  }
}
