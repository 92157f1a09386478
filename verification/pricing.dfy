/** The price arithmetic shared by order creation and the order preview. */
module Pricing {

  /** Orders whose items cost at least this much ship for free. */
  const FreeShippingThreshold: int := 500000
  /** The shipping fee below the threshold. */
  const StandardShipping: int := 30000
  /** The flat value-added tax rate, applied exactly. */
  const TaxRate: real := 0.1

  /** Shipping is free exactly from the threshold up (the threshold itself
      included) and the standard fee below it. */
  function ShippingPrice(itemsPrice: int): (r: int)
    ensures r == 0 <==> itemsPrice >= FreeShippingThreshold
    ensures r == StandardShipping <==> itemsPrice < FreeShippingThreshold
  {
    if itemsPrice >= FreeShippingThreshold then 0 else StandardShipping
  }

  /** Tax is exactly one tenth of the items price. */
  function Tax(itemsPrice: int): (r: real)
    ensures r * 10.0 == itemsPrice as real
    ensures itemsPrice >= 0 ==> 0.0 <= r <= itemsPrice as real
  {
    itemsPrice as real * TaxRate
  }

  /** The four price fields of an order, and of a preview. */
  datatype Prices = Prices(items: int, shipping: int, tax: real, total: real)

  /** The items price with the shipping and tax it draws and their sum. */
  function PricesFor(itemsPrice: int): (p: Prices)
    ensures p.items == itemsPrice
    ensures p.shipping == (if itemsPrice >= FreeShippingThreshold then 0 else StandardShipping)
    ensures p.tax * 10.0 == itemsPrice as real
    ensures p.total == p.items as real + p.shipping as real + p.tax
    ensures itemsPrice >= 0 ==> p.shipping >= 0 && p.tax >= 0.0 && p.total >= itemsPrice as real
  {
    var shipping := ShippingPrice(itemsPrice);
    var tax := Tax(itemsPrice);
    Prices(itemsPrice, shipping, tax, itemsPrice as real + shipping as real + tax)
  }

  /** One line of 2 units at 100,000: shipping 30,000, tax 20,000, total
      250,000. */
  lemma BelowThresholdExample()
    ensures PricesFor(2 * 100000) == Prices(200000, 30000, 20000.0, 250000.0)
  {
  }

  /** At exactly the threshold shipping is already free. */
  lemma AtThresholdExample()
    ensures PricesFor(500000) == Prices(500000, 0, 50000.0, 550000.0)
  {
  }
}
