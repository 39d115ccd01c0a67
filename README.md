# Product service: request handling, modelled in Dafny

The product service is a small REST API over one resource, the Product
(id, name, description, price, availability, category). This project models
its request-handling layer, `service/routes.py`, through its five product
handlers: create, list/search, get, update and delete. Each one makes a short
chain of decisions on the request and the product table, then answers with
an HTTP status code. Get, update and delete touch at most one row, create
adds one, and list reads every row its filter selects.

- `wrappers.dfy`: `Option` and `Result`.
- `http.dfy`: the status codes and `check_content_type` (`Http.CheckContentType`).
- `text.dfy`: ASCII `str.lower`/`str.upper` (`Text.Lower`, `Text.Upper`).
- `products.dfy`: the Product record and the Category enumeration with its
  lookup by member name. It also holds `deserialize`, modelled abstractly: a
  request body is either a document it accepts or one it rejects.
- `query.dfy`: the pure part of `list_products`. This is the choice of one
  filter (name, then category, then availability, else all), the category
  and availability parsing, and the exact-equality selection the finders
  perform.
- `routes.dfy`: class `ProductService`. It holds the product table
  (`map<int, Product>`) and the id allocator (`nextId`). Each handler is a
  method on it. The invariant `Valid()` says that every stored record
  carries its own key as id, and that every key was allocated before. Four
  client methods follow the class. They derive from the handlers' contracts
  alone what the route tests check: create then get, and update then get.
  They also derive two facts that come from the handler code rather than
  from a test: 415 comes before 404 on update (service/routes.py:143-147),
  and a repeated delete still answers 204 (service/routes.py:174-179).

`service/models.py` (persistence, `deserialize`, the `Category` enumeration)
is not part of this model. Stand-ins take its place:
- the table and the allocator stand for the database;
- `Products.Deserialize` stands for `deserialize`: a body it rejects is `Rejected`;
- `Routes.ProductService.Find` stands for `Product.find`: a plain lookup in the table;
- `Query.Select` stands for the finders `find_by_name`, `find_by_category`,
  `find_by_availability` and `all`: the stored records whose one field
  equals the wanted value.

These stand-ins are definitions, not promises of the source, so they have no
row below.

The Category members are the usual ones of this service
(UNKNOWN, CLOTHS, FOOD, HOUSEWARES, AUTOMOTIVE, TOOLS). Only TOOLS is
attested by the route tests. The lookup lemmas depend only on member names
being distinct.

The code is followed where the design text is broader. An unknown category
yields 400 only when no non-empty name parameter is given. A name takes
precedence and makes the category irrelevant (`Query.NameTakesPrecedence`).
The Content-Type must equal `application/json` exactly. A value with
parameters, such as `application/json; charset=utf-8`, is a 415
(`Http.ParametersAreRefused`).

## Model

| member | source | states |
|---|---|---|
| Http.CheckContentType | service/routes.py:185-201 | passes iff the Content-Type header is present and exactly the expected media type; otherwise aborts with 415 |
| Http.ParametersAreRefused | service/routes.py:194-201 | a JSON media type followed by any parameter text is refused with 415 |
| Text.Lower | service/routes.py:103 | `lower()` keeps the length and lower-cases each character on its own |
| Text.Upper | service/routes.py:95 | `upper()` keeps the length and upper-cases each character on its own |
| Text.UpperIgnoresCase | service/routes.py:95 | strings equal after lower-casing are equal after upper-casing |
| Products.CategoryNamed | service/routes.py:95-99 | `Category[key]` yields member c exactly when c's name is key; None (the KeyError) when no member has that name |
| Products.DeserializeThenSetId | service/routes.py:150-151 | deserializing an accepted body and then forcing the id gives the body's fields under the forced id, whatever id the body carried |
| Query.SelectCount | service/routes.py:104-111 | while every record carries its key as id, a finder returns one record per matching row, so the list has as many entries as there are matching rows |
| Query.ChooseFilterMeaning | service/routes.py:89-107 | the filter choice fails (with 400) exactly when no name is given, a category is given and no member is named after its upper-cased text; otherwise the chosen filter matches exactly the wanted products |
| Query.NameTakesPrecedence | service/routes.py:89-91 | a non-empty name decides the search whatever category and available say |
| Query.CategoryBeforeAvailability | service/routes.py:92-100 | with no name, a non-empty category decides the search whatever available says |
| Query.EmptyMeansAbsent | service/routes.py:85-100 | an empty parameter value chooses the same search as an absent parameter, for each of the three |
| Query.CategoryIgnoresCase | service/routes.py:94-96 | category texts that agree ignoring case choose the same search |
| Query.ParseAvailableMeaning | service/routes.py:100-104 | availability is true exactly for "1", "t"/"T" and "true" in any case; every other text is false |
| Routes.ProductService.CreateProduct | service/routes.py:47-69 | 415 with nothing changed unless Content-Type is exactly JSON; 400 with nothing changed for a rejected body; else 201 with a new record under an id not in the table before, holding the body's fields, Location on that id, the table grown by exactly that entry; keeps Valid |
| Routes.ProductService.ListProducts | service/routes.py:78-112 | 400 exactly when the category is unknown and no name is given; otherwise 200 with every stored record the parameters ask for and nothing else (each returned record is the one stored under its id), as many records as there are matching rows; the table is not changed |
| Routes.ProductService.GetProduct | service/routes.py:118-130 | 404 exactly when the id is absent; otherwise 200 with that id's record, whose id is the requested id; the table is not changed |
| Routes.ProductService.UpdateProduct | service/routes.py:136-157 | 415 before anything else; then 404 for an absent id; then 400 for a rejected body, each leaving the table as it was; else 200 and the id's record replaced by the body's fields under the path id; keeps Valid |
| Routes.ProductService.DeleteProduct | service/routes.py:166-179 | always 204; afterwards the id is absent and every other entry is unchanged; keeps Valid |
| Routes.CreateThenGet | tests/test_routes.py:93-124 | a product created from a body reads back with the body's fields, and the store stays valid |
| Routes.UpdateThenGet | tests/test_routes.py:131-150 | an update answers 200, keeps the path id and a later read sees the new description; the store stays valid |
| Routes.UpdateMissingWithWrongMediaType | service/routes.py:142-147 | an update with a wrong media type on an absent id is a 415, not a 404, and changes nothing; the store stays valid |
| Routes.DeleteTwiceThenGet | service/routes.py:173-179 | deleting twice answers 204 both times, leaves the table without the id and otherwise as before, and a later read is a 404; the store stays valid |

## Left out

- The 500 paths for unexpected exceptions (service/routes.py:70-72, 158-160) are not modelled. This includes a body that is not valid JSON: `get_json` raises inside the `try`, and `except Exception` turns that into a 500.
- Flask plumbing is not modelled: JSON serialization of replies, `abort` as an exception, the external URL of the Location header. A reply carries the record(s) itself, and a Created reply carries the id its Location names.
- Logging, the `/health` constant reply and the static index page are left out; they are I/O or constant.
- The field-level validation inside `deserialize` is abstracted to a body that is either accepted or `Rejected`. It lives in `service/models.py`, which is not part of this model.
- A failed `deserialize` in update may already have changed the in-memory record. The model leaves the table unchanged, as the discarded session does; the partial change itself is not modelled.
- Price is kept as opaque decimal text; decimal arithmetic and conversions are not modelled.
- Text.Lower: maps only ASCII letters; Python's Unicode case mapping (e.g. of accented letters) is not modelled.
- Text.Upper: maps only ASCII letters, for the same reason.
- Text.UpperIgnoresCase: holds only for the ASCII mapping. In Python, "\u212A" (KELVIN SIGN) and "k" lower-case alike, but upper-case differently.
- Query.CategoryIgnoresCase: holds only for the ASCII mapping. In Python, "un\u212Anown" lower-cases to "unknown", yet its upper-case form "UN\u212ANOWN" names no member, so the request gets 400 where "unknown" gets 200.
- Header-name matching is case-insensitive in Flask. The model takes the Content-Type value, or its absence, directly.
- Routes.ProductService.ListProducts: returns a set, so the database's row order is not modelled. Under `Valid()` distinct rows are distinct records, so the set has one entry per matching row (`Query.SelectCount`).
- Path ids are natural numbers because the route's integer converter accepts no sign. Other path text never reaches a handler.
- Concurrency is not modelled: it is left to the HTTP server and the database.
