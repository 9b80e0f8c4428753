/** The product document (src/models/product.model.js) as the order and
    product code reads and writes it. */
module Catalog {

  type ProductId = string

  /** The id of a category record (see module SlugRegistry). */
  type CategoryId = nat

  datatype Attribute = Attribute(key: string, value: string)

  datatype Product = Product(
    title: string,
    slug: string,
    description: string,
    price: int,
    images: seq<string>,
    stock: int,
    productType: string,
    category: CategoryId,
    grade: string,
    attributes: seq<Attribute>,
    soldCount: int,
    isActive: bool,
    createdAt: int)
}
