/** Product records as the storefront (catalog) service returns them, and the
    three outcomes of a call to an external service. */
module Catalog {
  import opened Wrappers

  /** A measured weight: BigDecimal value and unit name, each possibly null. */
  datatype Weight = Weight(value: Option<real>, unit: Option<string>)

  /** Bounding box of a product: three BigDecimal lengths and one unit, each possibly null. */
  datatype Dimensions = Dimensions(length: Option<real>, width: Option<real>, height: Option<real>, unit: Option<string>)

  /** StorefrontProduct, as far as the cart uses it. The price `mrp` is in minor
      currency units. */
  datatype Product = Product(productName: string, mrp: int, weight: Option<Weight>, dimensions: Option<Dimensions>)

  /** Outcome of a Feign call: a value, a null body, or a FeignException. */
  datatype Fetch<+T> = Fetched(value: T) | NullBody | Faulted
}
