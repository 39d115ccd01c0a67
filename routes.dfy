/** The request handlers of the product service, as methods on the state
    they read and write: the product table and the id allocator of the
    persistence layer. */
module Routes {
  import opened Wrappers
  import opened Http
  import opened Products
  import opened Query

  /** What a handler answers with. Created carries the new record and the id
      its Location header points at. */
  datatype Reply =
    | Created(product: Product, location: int)
    | Found(product: Product)
    | Listed(products: set<Product>)
    | NoContent
    | Failed(status: int)

  function StatusOf(r: Reply): int
  {
    match r
    case Created(_, _) => StatusCreated
    case Found(_) => StatusOk
    case Listed(_) => StatusOk
    case NoContent => StatusNoContent
    case Failed(s) => s
  }

  class ProductService {
    /** The stored products, keyed by id. */
    var table: map<int, Product>
    /** The id the store hands out to the next product it creates. */
    var nextId: int

    /** Every stored record carries its own key as id, and every key was
        handed out by the allocator before. */
    ghost predicate Valid()
      reads this
    {
      1 <= nextId &&
      forall k :: k in table ==> 1 <= k < nextId && table[k].id == k
    }

    constructor ()
      ensures Valid() && table == map[]
    {
      table := map[];
      nextId := 1;
    }

    /** `Product.find(id)`. */
    function Find(id: int): Option<Product>
      reads this
    {
      if id in table then Some(table[id]) else None
    }

    /** `create_products` (POST /products). */
    method CreateProduct(contentType: Option<string>, body: Body) returns (reply: Reply)
      requires Valid()
      modifies this
      ensures Valid()
      ensures contentType != Some(JsonMediaType) ==>
        reply == Failed(StatusUnsupportedMediaType) && table == old(table) && nextId == old(nextId)
      ensures contentType == Some(JsonMediaType) && body.Rejected? ==>
        reply == Failed(StatusBadRequest) && table == old(table) && nextId == old(nextId)
      ensures contentType == Some(JsonMediaType) && body.Document? ==>
        && reply.Created?
        && reply.location == reply.product.id
        && reply.location >= 1
        && reply.product.id !in old(table)
        && reply.product == FromBody(reply.product.id, body)
        && table == old(table)[reply.product.id := reply.product]
        && |table| == |old(table)| + 1
    {
      var check := CheckContentType(contentType, JsonMediaType);
      if check.Abort? {
        return Failed(check.status);
      }
      // Product(): a blank record whose fields deserialize overwrites
      var product := Deserialize(Product(0, "", "", Price(""), false, Unknown), body);
      if product.None? {
        return Failed(StatusBadRequest);
      }
      // product.create(): the store assigns the next id
      var created := product.value.(id := nextId);
      assert nextId !in table;
      table := table[nextId := created];
      nextId := nextId + 1;
      reply := Created(created, created.id);
    }

    /** `list_products` (GET /products). Reads the table and changes nothing. */
    method ListProducts(q: Params) returns (reply: Reply)
      requires Valid()
      ensures reply == Failed(StatusBadRequest) <==> CategoryRejected(q)
      ensures reply != Failed(StatusBadRequest) ==>
        reply.Listed? &&
        (forall k :: k in table && Wanted(q, table[k]) ==> table[k] in reply.products) &&
        (forall p :: p in reply.products ==> p.id in table && table[p.id] == p && Wanted(q, p))
      ensures reply.Listed? ==> |reply.products| == |set k | k in table && Wanted(q, table[k])|
    {
      ChooseFilterMeaning(q);
      var filter := ChooseFilter(q);
      if filter.Failure? {
        reply := Failed(filter.error);
      } else {
        reply := Listed(Select(table, filter.value));
        forall p | p in reply.products
          ensures p.id in table && table[p.id] == p && Wanted(q, p)
        {
          SelectedRow(table, filter.value, p);
        }
        SelectCount(table, filter.value);
        assert (set k | k in table && Wanted(q, table[k])) == MatchingKeys(table, filter.value);
      }
    }

    /** `get_products` (GET /products/<id>). Reads the table and changes
        nothing. */
    method GetProduct(id: nat) returns (reply: Reply)
      requires Valid()
      ensures reply == Failed(StatusNotFound) <==> id !in table
      ensures reply != Failed(StatusNotFound) ==>
        reply.Found? && reply.product == table[id] && reply.product.id == id
    {
      var product := Find(id);
      if product.None? {
        return Failed(StatusNotFound);
      }
      reply := Found(product.value);
    }

    /** `update_products` (PUT /products/<id>). */
    method UpdateProduct(id: nat, contentType: Option<string>, body: Body) returns (reply: Reply)
      requires Valid()
      modifies this
      ensures Valid() && nextId == old(nextId)
      ensures contentType != Some(JsonMediaType) ==>
        reply == Failed(StatusUnsupportedMediaType) && table == old(table)
      ensures contentType == Some(JsonMediaType) && id !in old(table) ==>
        reply == Failed(StatusNotFound) && table == old(table)
      ensures contentType == Some(JsonMediaType) && id in old(table) && body.Rejected? ==>
        reply == Failed(StatusBadRequest) && table == old(table)
      ensures contentType == Some(JsonMediaType) && id in old(table) && body.Document? ==>
        reply == Found(FromBody(id, body)) && table == old(table)[id := FromBody(id, body)]
    {
      var check := CheckContentType(contentType, JsonMediaType);
      if check.Abort? {
        return Failed(check.status);
      }
      var found := Find(id);
      if found.None? {
        return Failed(StatusNotFound);
      }
      var product := found.value;
      var deserialized := Deserialize(product, body);
      if deserialized.None? {
        return Failed(StatusBadRequest);
      }
      product := deserialized.value;
      product := product.(id := id);  // the body may not change the id
      table := table[id := product];
      reply := Found(product);
    }

    /** `delete_products` (DELETE /products/<id>). */
    method DeleteProduct(id: nat) returns (reply: Reply)
      requires Valid()
      modifies this
      ensures Valid() && nextId == old(nextId)
      ensures reply == NoContent
      ensures table == old(table) - {id}
      ensures id !in table
    {
      var found := Find(id);
      if found.Some? {
        table := table - {id};
      }
      reply := NoContent;
    }
  }

  /** A created product reads back with the fields it was created with. */
  method CreateThenGet(service: ProductService, body: Body) returns (created: Reply, fetched: Reply)
    requires service.Valid() && body.Document?
    modifies service
    ensures service.Valid()
    ensures StatusOf(created) == StatusCreated && StatusOf(fetched) == StatusOk
    ensures created.Created? && created.product == FromBody(created.location, body)
    ensures fetched == Found(created.product)
  {
    created := service.CreateProduct(Some(JsonMediaType), body);
    fetched := service.GetProduct(created.location);
  }

  /** An update keeps the id from the path even when the body names another,
      and a later read sees the new fields. */
  method UpdateThenGet(service: ProductService, id: nat, body: Body) returns (updated: Reply, fetched: Reply)
    requires service.Valid() && id in service.table && body.Document?
    modifies service
    ensures service.Valid()
    ensures StatusOf(updated) == StatusOk && fetched == updated
    ensures fetched.Found? && fetched.product.id == id && fetched.product.description == body.description
  {
    updated := service.UpdateProduct(id, Some(JsonMediaType), body);
    fetched := service.GetProduct(id);
  }

  /** A 415 comes before a 404: an update with the wrong media type on an id
      that does not exist is refused for its media type. */
  method UpdateMissingWithWrongMediaType(service: ProductService, id: nat, contentType: Option<string>, body: Body)
    returns (reply: Reply)
    requires service.Valid() && id !in service.table && contentType != Some(JsonMediaType)
    modifies service
    ensures service.Valid()
    ensures StatusOf(reply) == StatusUnsupportedMediaType && service.table == old(service.table)
  {
    reply := service.UpdateProduct(id, contentType, body);
  }

  /** Deleting twice answers 204 both times and leaves the same table as
      deleting once; a read afterwards is a 404. */
  method DeleteTwiceThenGet(service: ProductService, id: nat) returns (first: Reply, second: Reply, fetched: Reply)
    requires service.Valid()
    modifies service
    ensures service.Valid()
    ensures StatusOf(first) == StatusOf(second) == StatusNoContent
    ensures service.table == old(service.table) - {id}
    ensures StatusOf(fetched) == StatusNotFound
  {
    first := service.DeleteProduct(id);
    second := service.DeleteProduct(id);
    fetched := service.GetProduct(id);
  }
}
