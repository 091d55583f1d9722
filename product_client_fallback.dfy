/** The static responder used in place of the catalog when the catalog is down. */
module Fallback {
  import opened Wrappers
  import opened Dto

  /** The reserved product name that marks a synthetic, unpriced snapshot. */
  const PRODUCT_UNAVAILABLE: string := "Product Unavailable"

  /** True of a snapshot that carries the reserved name. */
  predicate IsSentinel(p: ProductResponse)
  {
    p.productName == Some(PRODUCT_UNAVAILABLE)
  }

  /**
   * The fallback answer for a product id: never absent, carries the requested
   * id, the reserved name and the price 0.0.
   */
  function GetProductById(id: int): (r: ProductResponse)
    ensures r.id == id
    ensures IsSentinel(r)
    ensures r.price == Some(0.0)
  {
    ProductResponse(id, Some(PRODUCT_UNAVAILABLE), Some(0.0))
  }
}
