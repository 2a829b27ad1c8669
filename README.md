# Product catalogue domain logic, in Dafny

This project models the domain core of a small Go product-catalogue web
service: the in-memory product store (`SliceBasedRepository`), the domain
service on top of it (`DefaultService`: code-uniqueness and date
validation, guards, error translation and the consumer-price markup) and
the mapping of a create request onto a product (`CreateProductRequest.ToDomain`).

- `domain.dfy` (module `Domain`): the `Product` record, the
  `ProductsConsumer` aggregate, the package's sentinel errors as one
  `Error` datatype, and `Option` for Go's nil-or-error results.
- `sequences.dfy` (module `Sequences`): order-preserving `Filter` and the
  subsequence and multiplicity lemmas the repository's scans share.
- `slice_based_repository.dfy` (module `ProductRepository`): specification
  functions (`FirstIndex`, `LastIndex`, `Removed`, `PricedAbove`,
  `PublishedWithId`, `PublishedForIds`) and the class
  `SliceBasedRepository`, whose `products: seq<Product>` field the methods
  update in place with the source's loops, `break`s and flags; each method
  is proved against those functions.
- `default_service.dfy` (module `ProductService`): `Validate` (the
  early-return code scan, then the date check), the error translations, the
  price sum and markup table, and the class `DefaultService`, which holds
  the repository and whose methods drive it.
- `create_product_request.dfy` (module `Handlers`): the request record and
  `ToDomain`.

Go's two-value returns are two out-parameters; the error is
`Option<Error>` with `None` for nil. Prices are `real` and the markups the
exact rationals 121/100, 117/100 and 115/100.

The model follows the code as written, including its quirks: Create
assigns `length + 1`, so identifiers collide after a delete
(`DeleteThenCreateCollides`); Delete removes the last match while the other
scans take the first (`FirstIsLastWhenUnique` shows they agree when
identifiers are unique); UpdateName answers with the zero product; and a
count of exactly 10 or 20 gets no markup (`Markup`).

Create's uniqueness scan (internal/products/default_service.go:117-121)
skips stored products whose identifier equals the caller's. After
`ToDomain` that identifier is zero, not the one storage then assigns, so a
stored product with identifier 0 can share the new product's code; for
that reason `CreateKeepsCodesUnique` requires that no stored product
carries the caller's identifier.

## Model

| member | source | states |
|---|---|---|
| `Sequences.Filter` | internal/products/slice_based_repository.go:79-85 | every kept element is from the input and satisfies the test; every input element that satisfies it is kept; never longer than the input |
| `Sequences.FilterIsSubsequence` | internal/products/slice_based_repository.go:79-85 | the filtered sequence is a subsequence of the input (relative order kept) |
| `Sequences.FilterCount` | internal/products/slice_based_repository.go:79-85 | each value occurs in the result exactly as often as in the input if it passes the test, and not at all otherwise |
| `ProductRepository.FirstIndex` | internal/products/slice_based_repository.go:70-77 | the position found carries the id and no earlier position does; no position is found exactly when no product carries the id |
| `ProductRepository.LastIndex` | internal/products/slice_based_repository.go:88-98 | the position found carries the id and no later position does; none is found exactly when no product carries the id |
| `ProductRepository.Removed` | internal/products/slice_based_repository.go:100 | one element shorter; elements before the position stay, elements after it shift down by one in order |
| `ProductRepository.PricedAbove` | internal/products/slice_based_repository.go:78-86 | holds only stored products priced strictly above the threshold, and every such product |
| `ProductRepository.PublishedWithId` | internal/products/slice_based_repository.go:108-112 | holds only published stored products with the id, and every such product |
| `ProductRepository.PublishedForIds` | internal/products/slice_based_repository.go:105-116 | holds only published stored products whose id is requested, and every such product |
| `ProductRepository.SliceBasedRepository.constructor` | internal/products/slice_based_repository.go:14-24 | the store starts with exactly the loaded sequence |
| `ProductRepository.SliceBasedRepository.Create` | internal/products/slice_based_repository.go:26-31 | the product gets id = old length + 1, is appended after the unchanged old sequence, is handed back with that id, and no error is returned |
| `ProductRepository.SliceBasedRepository.Update` | internal/products/slice_based_repository.go:33-47 | with a match, the first product with the id is replaced and nothing else changes; with none, ProductNotFound and storage unchanged |
| `ProductRepository.SliceBasedRepository.UpdateName` | internal/products/slice_based_repository.go:49-64 | with a match, only the name of the first product with the id changes; with none, ProductNotFound and storage unchanged; the returned product is always the zero product |
| `ProductRepository.SliceBasedRepository.GetAll` | internal/products/slice_based_repository.go:66-68 | returns the stored sequence, in storage order, without error |
| `ProductRepository.SliceBasedRepository.FindById` | internal/products/slice_based_repository.go:70-77 | returns the first product with the id, or the zero product with ProductNotFound when there is none |
| `ProductRepository.SliceBasedRepository.Search` | internal/products/slice_based_repository.go:78-86 | returns exactly the order-preserving selection of products priced above the threshold, without error |
| `ProductRepository.SliceBasedRepository.Delete` | internal/products/slice_based_repository.go:88-103 | with a match, removes the element at the last position carrying the id; with none, ProductNotFound and storage unchanged |
| `ProductRepository.SliceBasedRepository.ConsumerPrice` | internal/products/slice_based_repository.go:105-116 | returns, id by id in list order, the published products with that id in storage order, without error and without changing storage |
| `ProductRepository.CreateThenFind` | internal/products/slice_based_repository.go:26-31 | when old length + 1 was not in use, looking it up after Create finds the new last element |
| `ProductRepository.UpdateThenFind` | internal/products/slice_based_repository.go:33-41 | after Update, looking its id up finds the replaced position |
| `ProductRepository.RenameKeepsLookups` | internal/products/slice_based_repository.go:52-57 | renaming changes no lookup by any id |
| `ProductRepository.FirstIsLastWhenUnique` | internal/products/slice_based_repository.go:88-96 | with unique ids the last match Delete removes is the first match every other scan finds |
| `ProductRepository.DeleteThenFind` | internal/products/slice_based_repository.go:88-100 | with unique ids, after Delete the id is no longer found |
| `ProductRepository.CreateKeepsIdsUnique` | internal/products/slice_based_repository.go:27-28 | while every id is at most the count, Create keeps ids unique and keeps that bound |
| `ProductRepository.DeleteThenCreateCollides` | internal/products/slice_based_repository.go:27 | create ids 1, 2, 3, delete 2, create again: the new product gets id 3 a second time |
| `ProductRepository.SearchIsOrderedSelection` | internal/products/slice_based_repository.go:78-86 | Search's answer is a subsequence of storage with every copy of each product priced above the threshold and no other |
| `ProductRepository.PublishedForIdsSnoc` | internal/products/slice_based_repository.go:107-112 | one more requested id appends exactly that id's published products to the answer |
| `ProductRepository.PublishedForIdsAppend` | internal/products/slice_based_repository.go:107-113 | the answer for a concatenated id list is the concatenation of the answers, so a repeated id yields its products again |
| `ProductService.Validate` | internal/products/default_service.go:111-129 | ProductAlreadyExists exactly when a stored product with a different id has the code; FormatDate exactly when there is no such product and the date does not parse; nil exactly when neither |
| `ProductService.AsNotFound` | internal/products/default_service.go:59-61 | any storage error becomes ProductNotFound; nil stays nil |
| `ProductService.AsInternal` | internal/products/default_service.go:71-73 | any storage error becomes InternalServerError; nil stays nil |
| `ProductService.DefaultService.constructor` | internal/products/default_service.go:9-11 | the service holds the given storage |
| `ProductService.DefaultService.Validations` | internal/products/default_service.go:111-129 | the loop's early-return answer over the current products equals `Validate` |
| `ProductService.DefaultService.Create` | internal/products/default_service.go:13-23 | a failed validation is returned with storage and product unchanged; otherwise the product gets id = old length + 1 and is appended |
| `ProductService.DefaultService.Update` | internal/products/default_service.go:25-35 | a failed validation is returned with storage unchanged; otherwise storage's answer is returned: replacement of the first match, or ProductNotFound |
| `ProductService.DefaultService.UpdateName` | internal/products/default_service.go:37-47 | an empty name is InvalidData with storage untouched; otherwise the first match is renamed or ProductNotFound is returned; the product returned is the zero product |
| `ProductService.DefaultService.GetAll` | internal/products/default_service.go:49-55 | returns all stored products in storage order, without error |
| `ProductService.DefaultService.FindById` | internal/products/default_service.go:57-64 | returns the first product with the id; otherwise the zero product and ProductNotFound |
| `ProductService.DefaultService.Search` | internal/products/default_service.go:66-75 | a threshold at or below zero gives InvalidData and an empty answer; otherwise the products priced above it, in storage order |
| `ProductService.DefaultService.Delete` | internal/products/default_service.go:77-83 | removes the last match; with none, ProductNotFound and storage unchanged |
| `ProductService.DefaultService.ConsumerPrice` | internal/products/default_service.go:85-109 | the products are storage's filter result, and the total is the sum of their prices times the single markup for their count |
| `ProductService.OwnCodePasses` | internal/products/default_service.go:117-121 | a code used only by the stored product with the same id never fails the uniqueness check |
| `ProductService.CreateKeepsCodesUnique` | internal/products/default_service.go:13-22 | a validated Create keeps codes unique when the caller's id is not a stored one |
| `ProductService.UpdateKeepsCodesUnique` | internal/products/default_service.go:25-34 | a validated Update that finds its product keeps codes unique |
| `ProductService.MarkupTiers` | internal/products/default_service.go:97-106 | the factor is 121/100 exactly when fewer than 10 products are selected, 117/100 exactly when strictly between 10 and 20, 115/100 exactly when more than 20, and 1 exactly at 10 and at 20 |
| `ProductService.SumNonNegative` | internal/products/default_service.go:93-95 | the total accumulated over the prices is never negative when no price is |
| `ProductService.SumAppend` | internal/products/default_service.go:93-95 | the accumulated total of a concatenation is the sum of the parts' totals |
| `ProductService.ValidExpiration` | internal/products/default_service.go:123-126 | a text that parses is ten characters: two-digit day, slash, two-digit month, slash, four-digit year |
| `ProductService.DateText` | internal/products/default_service.go:123 | writes a day, month and year in the layout "02/01/2006", zero-padded, ten characters |
| `ProductService.DateTextParses` | internal/products/default_service.go:123-126 | a zero-padded day/month/year text parses exactly when the month is 1 to 12 and the day lies within that month |
| `ProductService.ExpirationExamples` | internal/products/default_service.go:123-126 | "28/01/2022" and "29/02/2024" parse, "2022-01-28" and "29/02/2023" do not |
| `Handlers.ToDomain` | cmd/server/handlers/create_product_request.go:14-23 | name, code, quantity, price, published flag and expiration are copied unchanged; the id is zero |
| `Handlers.ToDomainInjective` | cmd/server/handlers/create_product_request.go:14-23 | distinct requests map to distinct products: the mapping loses no field |

## Left out

- The `Product` type's own file (internal/domain/product.go) is not part of this model; its fields are those the core reads and writes.
- Loading the JSON file at start-up (pkg/store/json_store.go) is not modelled: the repository's constructor takes the loaded sequence, and the load failure of `NewSliceBasedRepository` is not modelled.
- The save to the JSON file after a delete (internal/products/slice_based_repository.go:101) is an external effect with no modelled result; its error is ignored in the source.
- `ProductService.ValidExpiration` approximates the Go standard library's parse of layout "02/01/2006" (default_service.go:123): exactly `DD/MM/YYYY`, month 1 to 12, day within the month with Gregorian leap years. Other corner cases of that parser are not modelled.
- Floating point: prices are exact reals and the markups exact rationals; IEEE rounding is not modelled.
- Integer width: identifiers, quantities and counts are unbounded integers; Go's 64-bit `int` cannot overflow at the sizes a slice can reach.
- Aliasing: `GetAll` hands out the live slice, so an earlier `GetAll` result changes when Update and UpdateName write an element in place (internal/products/slice_based_repository.go:37, :54) and when Delete's in-place `append` shifts elements in the same backing array (:100); the model returns values and does not capture this.
- `DefaultService` is modelled over `SliceBasedRepository` only, not over any implementation of the `Repository` interface (internal/products/repository.go:14-23). That repository never fails in GetAll, Create, Search or ConsumerPrice, so the service's branches for those failures are unreachable here; the ones in FindById, Delete, Search and ConsumerPrice are kept as `AsNotFound` and `AsInternal`, and the storage-error return in validations (default_service.go:112-115) is not modelled.
- `ProductInvalid` is declared in the source but never returned; it appears only in the `Error` datatype.
- Concurrency: calls are modelled one at a time; the source's shared slice has no guard.
- HTTP handlers, routing, middleware, token checks and server start-up (cmd/) are not part of this model.
