/** The product snapshot the order service receives from the catalog. */
module Dto {
  import opened Wrappers

  /**
   * ProductResponse: a point-in-time copy of a catalog entry. Every field of the
   * Java object is a nullable boxed value; the name and the price are kept as
   * `Option` because the order workflow distinguishes their absence.
   */
  datatype ProductResponse = ProductResponse(
    id: int,
    productName: Option<string>,
    price: Option<real>)
}
