/** The Product entity and the part of the persistence model the routes
    rely on: the Category enumeration, looked up by member name, and
    `deserialize`, which either fills a product from a request body or
    rejects the body. */
module Products {
  import opened Wrappers

  /** The closed set of product classifications. */
  datatype Category = Unknown | Cloths | Food | Housewares | Automotive | Tools

  /** The member name of each category, the key `Category[...]` looks up. */
  function NameOf(c: Category): string
  {
    match c
    case Unknown => "UNKNOWN"
    case Cloths => "CLOTHS"
    case Food => "FOOD"
    case Housewares => "HOUSEWARES"
    case Automotive => "AUTOMOTIVE"
    case Tools => "TOOLS"
  }

  /** `Category[key]`: the member whose name is exactly `key`, or None where
      Python raises KeyError. */
  function CategoryNamed(key: string): (r: Option<Category>)
    ensures forall c :: r == Some(c) <==> NameOf(c) == key
  {
    if key == "UNKNOWN" then Some(Unknown)
    else if key == "CLOTHS" then Some(Cloths)
    else if key == "FOOD" then Some(Food)
    else if key == "HOUSEWARES" then Some(Housewares)
    else if key == "AUTOMOTIVE" then Some(Automotive)
    else if key == "TOOLS" then Some(Tools)
    else None
  }

  /** A price is carried as the decimal text it was given in; no arithmetic
      is done on it here. */
  datatype Price = Price(text: string)

  datatype Product = Product(
    id: int,
    name: string,
    description: string,
    price: Price,
    available: bool,
    category: Category)

  /** A decoded JSON request body as `deserialize` sees it: a document it
      accepts, carrying every product field and possibly an "id", or one it
      rejects with a DataValidationError. */
  datatype Body =
    | Document(id: Option<int>, name: string, description: string, price: Price,
               available: bool, category: Category)
    | Rejected

  /** `product.deserialize(body)`: overwrite the product's fields from an
      accepted body, or fail. An "id" in the body is let through, so that a
      caller that must keep the id has to put it back. */
  function Deserialize(p: Product, b: Body): Option<Product>
  {
    match b
    case Rejected => None
    case Document(id, name, description, price, available, category) =>
      Some(Product(if id.Some? then id.value else p.id,
                   name, description, price, available, category))
  }

  /** The record a body describes, under the given id. */
  function FromBody(id: int, b: Body): Product
    requires b.Document?
  {
    Product(id, b.name, b.description, b.price, b.available, b.category)
  }

  /** Whatever id the body carries, deserializing and then setting the id
      yields exactly the body's fields under that id. */
  lemma DeserializeThenSetId(p: Product, b: Body, id: int)
    requires b.Document?
    ensures Deserialize(p, b).Some?
    ensures Deserialize(p, b).value.(id := id) == FromBody(id, b)
  {
  }
}
