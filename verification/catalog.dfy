/** The product record as the client reads it. The product routes and
    schema are not part of this model; only the fields that the cart, the
    checkout and the admin view read are kept. */
module Catalog {
  import opened Common

  /** The store-assigned product identifier, compared as a string. */
  type ProductId = string

  /** A catalog product. `price` is in integer cents; `createdAt` is an
      abstract timestamp that the admin view sorts on, absent on products
      that were stored without one. */
  datatype Product = Product(
    id: ProductId,
    name: string,
    price: int,
    imageUrl: string,
    createdAt: Option<nat>)

  /** The catalog as a lookup table from identifier to product. */
  type Products = map<ProductId, Product>
}
