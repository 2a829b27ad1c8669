/** The catalogue's value types: a product record, the consumer-price
    aggregate and the error kinds of the products package. */
module Domain {

  /** Go's `error` results: `None` is nil. */
  datatype Option<+T> = None | Some(value: T)

  /** The sentinel errors of the products package. Go compares them by
      identity, so each is one constructor. */
  datatype Error =
    | ProductAlreadyExists  // "product already exist"
    | ProductNotFound       // "product not found"
    | ProductInvalid        // "invalid product": declared, never returned
    | FormatDate            // "invalid format date"
    | InvalidData           // "invalid data"
    | InternalServerError   // "internal server error"

  /** One catalogue record. Prices are `float64` in the source and exact
      reals here. */
  datatype Product = Product(
    id: int,
    name: string,
    quantity: int,
    codeValue: string,
    isPublished: bool,
    expiration: string,
    price: real)

  /** Go's zero value `domain.Product{}`. */
  const ZeroProduct := Product(0, "", 0, "", false, "", 0.0)

  /** The derived, never-stored answer of a consumer-price query. */
  datatype ProductsConsumer = ProductsConsumer(products: seq<Product>, totalPrice: real)
}
