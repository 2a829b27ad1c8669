/** The request body for creating or replacing a product, and its mapping
    onto the domain record. */
module Handlers {
  import opened Domain

  datatype CreateProductRequest = CreateProductRequest(
    name: string,
    quantity: int,
    codeValue: string,
    isPublished: bool,
    expiration: string,
    price: real)

  /** Copies every request field into a product and leaves the identifier
      at zero: identifiers come from storage on Create and from the path
      on Update. */
  function ToDomain(request: CreateProductRequest): (p: Product)
    ensures p.name == request.name && p.codeValue == request.codeValue
    ensures p.quantity == request.quantity && p.price == request.price
    ensures p.isPublished == request.isPublished && p.expiration == request.expiration
    ensures p.id == 0
  {
    Product(0, request.name, request.quantity, request.codeValue,
            request.isPublished, request.expiration, request.price)
  }

  /** The mapping loses nothing: distinct requests give distinct products. */
  lemma ToDomainInjective(a: CreateProductRequest, b: CreateProductRequest)
    requires ToDomain(a) == ToDomain(b)
    ensures a == b
  {
  }
}
