/** The product catalog as the core sees it: a map from product id to the
    fields the cart and checkout read, with the schema's bounds. */
module Catalog {
  import opened Common

  datatype Product = Product(name: string, price: int, imageUrl: string, stock: int)

  type Stock = map<ProductId, Product>

  /** The product schema: the price and the stock are never negative. */
  predicate ProductValid(p: Product)
  {
    p.price >= 0 && p.stock >= 0
  }

  predicate CatalogValid(c: Stock)
  {
    forall id | id in c :: ProductValid(c[id])
  }

  /** An atomic stock increment on one product: the stock of `id` moves by
      `delta`; an id the catalog does not hold matches nothing. */
  function Adjust(c: Stock, id: ProductId, delta: int): (r: Stock)
    ensures r.Keys == c.Keys
    ensures id in c ==> r[id] == c[id].(stock := c[id].stock + delta)
    ensures forall p | p in c && p != id :: r[p] == c[p]
  {
    if id in c then c[id := c[id].(stock := c[id].stock + delta)] else c
  }
}
