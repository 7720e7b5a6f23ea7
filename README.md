# Shop back office and storefront rules, modelled in Dafny

This project models the rules of a small clothing shop built on Next.js and
MongoDB. It covers:

- **Order endpoint** (`/api/order`). POST turns the posted cart into order
  lines and checks each line against the stock. It then saves the order and
  takes each line's quantity off its product's stock. PUT overwrites an
  order's status. The older TypeScript variant of the endpoint is modelled too.
- **Order schema.** The required fields, the payment-method and status enums,
  and the default status.
- **Shopping cart** held in the browser: add, remove, clear, increase and
  decrease.
- **Catalogue endpoints.**
  - Product add, edit, delete and listing, in both handler versions.
  - Product types: add with a duplicate-name check, rename, delete, and
    newest-first listing.
  - Products by category name.
  - The six newest products.
- **Admin dashboards.**
  - The real one: it parses sizes typed as comma-separated text and updates
    its local product, type and order lists after the server answers.
  - The mock one: it edits in-memory sample lists.

The database is a `Store.Db` object with three maps (products, types, orders),
each keyed by document id. A handler that loads a document and assigns its
fields does so on a fresh `Store.ProductDoc` or `Store.TypeDoc` object, then
writes it back. Request bodies are records of `Option` fields; a missing field
is `None`. JavaScript truthiness is spelled out: a string is truthy when
present and non-empty, a number when present and non-zero (`Js.Truthy`,
`Js.TruthyNum`). Parts of the system that are pure `map`/`filter` code (the
cart, the category query, the newest products, the dashboards' list updates)
are functions on sequences. Every handler that changes stored state is a
method whose `ensures` gives the whole new state.

One module per source file:

| module | file |
|---|---|
| `Models` | `lib/models/Order.js` (and the Product/ProductType records) |
| `Store` | the collections and the loaded documents |
| `OrderApi` | `pages/api/order.js` |
| `OrderApiLegacy` | `pages/api/order.ts` |
| `Cart` | `components/contexts/CartContext.tsx` |
| `ProductManagement` | `pages/api/product-management.js` |
| `ProductManagementLegacy` | `pages/api/product-management.ts` |
| `ProductTypeApi` | `pages/api/product-type.ts` |
| `ProductQueries` | `pages/api/products/index.ts` |
| `LastProducts`, `Sorting` | `pages/api/last-products.ts`, `.sort({ createdAt: -1 })` |
| `Dashboard` | `pages/admin/dashboard/index.jsx` |
| `MockDashboard` | `pages/admin/dashboard/index.tsx` |
| `Js`, `Lists`, `Wrappers` | JavaScript string and array built-ins, `Option`/`Result` |

## Model

| member | source | states |
|---|---|---|
| Models.BuildOrder | lib/models/Order.js:5-28 | Saving succeeds iff the four customer strings are non-empty, the total is present, the payment method is `cash` or `online` and every line has a name. The saved order copies those fields and has status `Processing`, which is in the enum. A failure names at least one path, and names `paymentMethod` exactly when the payment method is invalid. |
| Models.MissingPaymentMethodFails | lib/models/Order.js:19-23 | A draft without a payment method never saves, and `paymentMethod` is among the failing paths. |
| OrderApi.FormatLines | pages/api/order.js:21-27 | One line per cart item, same length and order; each copies `_id` as productId, plus name, quantity, price and size. |
| OrderApi.NoRejectionIffAllPass | pages/api/order.js:30-53 | Validation finds nothing iff every line passes all three checks. |
| OrderApi.FirstFailingLineDecides | pages/api/order.js:30-53 | When line k is the first to fail, its rejection is the answer; later lines are never examined. |
| OrderApi.MissingProductRejected | pages/api/order.js:31-37 | A line whose product does not exist is rejected as not found, before any other check. |
| OrderApi.SizeCheckIff | pages/api/order.js:40-45 | A line is rejected for its size iff it has a non-empty size and its product has no size list or a list without that exact string. Lines without a size skip the check. |
| OrderApi.StockCheckIff | pages/api/order.js:47-52 | Once past the first two checks, a line is rejected for stock iff stock < requested quantity; asking for exactly the stock passes. |
| OrderApi.SizelessCatalogueRefusesSizedLines | pages/api/order.js:40-45 | With the Product schema's missing `sizes` field (no product has sizes), any cart with a sized line for an existing product is rejected. |
| OrderApi.FindRejection | pages/api/order.js:30-53 | The validation loop returns exactly the first-failing-line rejection. |
| OrderApi.DecrementSpec | pages/api/order.js:69-76 | After the decrements each product's quantity is its old value minus the summed quantity of the lines naming it. Every other field, and the set of products, is unchanged. |
| OrderApi.DemandUnreferenced | pages/api/order.js:69-76 | A product no line names has no demand, so its stock is unchanged. |
| OrderApi.DemandAppend | pages/api/order.js:69-76 | Demand adds up over concatenated line lists. |
| OrderApi.DemandPermutation | pages/api/order.js:69-76 | Demand does not depend on the order of the lines. |
| OrderApi.DecrementOrderIrrelevant | pages/api/order.js:69-76 | The concurrent `$inc` updates commute: any reordering of the lines gives the same stock. |
| OrderApi.ApplyDecrements | pages/api/order.js:69-76 | The decrement loop leaves the product map equal to the decrement function; types and orders are unchanged. |
| OrderApi.PlaceOrder | pages/api/order.js:8-88 | The outcome is the placement function of the pre-order stock. On 201 the order is stored under the new id and the stock is decremented by its lines. On 400 or 500 nothing in the database changes. |
| OrderApi.PlacementCreated | pages/api/order.js:56-66 | An order is created iff all lines pass and the order saves. It then holds exactly the formatted lines, the customer fields, total and payment method from the request, and status `Processing`. |
| OrderApi.TotalAmountNeverChecked | pages/api/order.js:56-64 | Changing the total changes only the total recorded on a created order, never whether it is created or rejected. |
| OrderApi.EmptyCartAccepted | pages/api/order.js:30-66 | An empty cart with valid customer fields is accepted with no lines. |
| OrderApi.DistinctLinesKeepStock | pages/api/order.js:30-76 | If the lines pass validation, no two name the same product, no quantity is negative and all stock was non-negative, then the decremented stock is non-negative too. |
| OrderApi.DuplicateLinesOverdrawStock | pages/api/order.js:47-76 | As written: two lines of 2 against stock 3 both pass and leave stock -1. |
| OrderApi.NegativeLineRaisesStock | pages/api/order.js:47-76 | As written: a line of -5 against stock 3 passes and leaves stock 8. |
| OrderApi.HardenedFromNone | pages/api/order.js:30-53 | Corrected check: no rejection from index i means every later line passes the corrected check. |
| OrderApi.DemandNonNegative | pages/api/order.js:69-76 | Lines with positive quantities have non-negative demand. |
| OrderApi.HardenedCheckKeepsStock | pages/api/order.js:30-76 | Corrected: an order passing the corrected check never raises any stock, and never drives non-negative stock below zero. |
| OrderApi.HardenedRefusesOverdraw | pages/api/order.js:47-52 | Corrected: the overdrawing cart above is refused for stock. |
| OrderApi.PlaceOrderHardened | pages/api/order.js:8-88 | Corrected placement: the same steps with the corrected check. If all stock was non-negative before, it still is afterwards. |
| OrderApi.UpdateStatus | pages/api/order.js:101-112 | Unknown id gives None (404). Otherwise only that order's status becomes the new value: same ids, every other order unchanged, no enum check. |
| OrderApi.LastStatusWins | pages/api/order.js:101-106 | Two status updates of one order leave exactly what the second alone would. |
| OrderApi.OffEnumStatusStored | pages/api/order.js:101-106 | A status outside the enum, such as `Completed`, is stored as given. |
| OrderApi.SetStatus | pages/api/order.js:99-127 | PUT: unknown id gives 404 and changes nothing. Otherwise the orders become the status-updated map, and products and types are untouched. |
| OrderApiLegacy.SetStatus | pages/api/order.ts:83-111 | The older PUT does the same: unknown id gives 404 and changes nothing; otherwise only that order's status changes, to the given value, and products and types are untouched. |
| OrderApiLegacy.FormatLines | pages/api/order.ts:24-29 | One line per item, in order, carrying productId, name, quantity and price. No size is copied. |
| OrderApiLegacy.MergedStockCheck | pages/api/order.ts:33-39 | A missing product and too little stock give the same "Not enough stock" rejection. A line passes iff its product exists and stock at least covers its quantity. |
| OrderApiLegacy.NoRejectionIffAllPass | pages/api/order.ts:32-40 | No rejection iff every line's product exists with enough stock. |
| OrderApiLegacy.FindRejection | pages/api/order.ts:32-40 | The loop returns exactly the first failing line's rejection. |
| OrderApiLegacy.NeverCreates | pages/api/order.ts:14-52 | The body's payment method is never passed on, so no order is ever created. A cart that passes validation ends in the 500 branch with `paymentMethod` failing. |
| OrderApiLegacy.PlaceOrder | pages/api/order.ts:12-73 | The outcome is the older placement function. It never creates an order and never changes the database. |
| Cart.AddExisting | components/contexts/CartContext.tsx:30-32 | Adding an item whose `_id` is present adds 1 to the items with that `_id` and leaves all others and the length unchanged. |
| Cart.AddNew | components/contexts/CartContext.tsx:34 | Adding a new `_id` appends the item at the end with quantity 1, whatever quantity it came with. |
| Cart.RemoveSpec | components/contexts/CartContext.tsx:39 | After removal no item has that `_id`; every other item is kept and nothing new appears. |
| Cart.RemoveKeepsOrder | components/contexts/CartContext.tsx:39 | Removal distributes over concatenation, so the relative order of the rest is kept. |
| Cart.ClearCart | components/contexts/CartContext.tsx:43 | The cleared cart contains no item. |
| Cart.IncreaseAbsent | components/contexts/CartContext.tsx:47 | Increasing an absent `_id` leaves the cart unchanged. |
| Cart.DecreaseSpec | components/contexts/CartContext.tsx:50-56 | On a well-formed cart: an item above 1 loses 1, an item at 1 stays at 1, others are unchanged, and nothing is dropped. |
| Cart.DecreaseDropsOnlyNonPositive | components/contexts/CartContext.tsx:53-54 | The trailing filter keeps an item iff its quantity is positive. |
| Cart.KeepPreservesDistinct | components/contexts/CartContext.tsx:39 | Filtering keeps distinct `_id`s distinct. |
| Cart.AddPreserves | components/contexts/CartContext.tsx:28-36 | Add keeps `_id`s distinct and quantities at least 1. |
| Cart.RemovePreserves | components/contexts/CartContext.tsx:38-40 | Remove keeps the invariant. |
| Cart.IncreasePreserves | components/contexts/CartContext.tsx:46-48 | Increase keeps the invariant. |
| Cart.DecreasePreserves | components/contexts/CartContext.tsx:50-56 | Decrease keeps the invariant. |
| Cart.RunPreserves | components/contexts/CartContext.tsx:28-56 | Any sequence of cart operations keeps the invariant. |
| Cart.FromEmpty | components/contexts/CartContext.tsx:26-56 | Every cart reachable from the empty cart has distinct `_id`s and quantities of at least 1. |
| Cart.DecreaseUndoesIncrease | components/contexts/CartContext.tsx:46-56 | On a well-formed cart, decrease undoes increase. |
| Cart.RemoveAfterAdd | components/contexts/CartContext.tsx:28-40 | Removing an item just added leaves what removing it would have left anyway. |
| Cart.ReplaceThenRemove | components/contexts/CartContext.tsx:39-47 | Removing after an increase equals removing alone. |
| Lists.KeepAppend | components/contexts/CartContext.tsx:39 | `filter` distributes over concatenation. |
| Lists.KeepAll | components/contexts/CartContext.tsx:54 | A filter every element passes returns the list unchanged. |
| Lists.KeepMultiset | components/contexts/CartContext.tsx:54 | A filter's result is a sub-multiset, and it keeps the length iff every element passes. |
| ProductManagement.RouteOf | pages/api/product-management.js:15-29 | POST, PUT and DELETE go to add, edit and delete, and GET lists. Every other method falls to 405. |
| ProductManagement.Handle | pages/api/product-management.js:15-29 | An unsupported method gives 405 and changes nothing. GET returns the catalogue unchanged. Each success kind comes only from its method. |
| ProductManagement.AddCheckIff | pages/api/product-management.js:53-65 | Add passes iff all six fields are truthy and the image matches the URL pattern. "All fields are required" is returned iff some field is falsy. |
| ProductManagement.AddRejectsZero | pages/api/product-management.js:53-57 | A price or quantity of 0 is refused with "All fields are required". |
| ProductManagement.ImageUrlShape | pages/api/product-management.js:60-61 | An accepted URL starts with `http`, has at least nine characters, and can hold whitespace only as the second character after the scheme. |
| ProductManagement.HttpsHostAccepted | pages/api/product-management.js:60-61 | `https://` followed by two or more non-space characters, the first not `$ . ? #`, is accepted. |
| ProductManagement.ImageUrlExamples | pages/api/product-management.js:60-65 | `/uploads/…` paths, a host starting with `.`, and a one-character host are refused. `http://a b` is accepted. |
| ProductManagement.AddProduct | pages/api/product-management.js:50-89 | A refused body gives the check's 400 and changes nothing. Otherwise exactly one product is stored, with the body's fields under the new id, and types and orders are untouched. |
| ProductManagement.AddMayDangle | pages/api/product-management.js:53-78 | Add does not look up the type, so a product can be stored with a type id that no type has. |
| ProductManagement.EditCheckIff | pages/api/product-management.js:120-142 | An edit goes ahead iff `_id` is truthy, names a product, and any truthy type exists. 404 is returned exactly for a truthy but unknown `_id`. |
| ProductManagement.MergeFields | pages/api/product-management.js:145-154 | Name, price, quantity, type and image each take the new value when truthy and keep the old one otherwise; the `!==` guard on image adds nothing. Id and creation time are kept. |
| ProductManagement.EditNeverZeroes | pages/api/product-management.js:146-147 | Edit cannot set a non-zero quantity or price to 0. |
| ProductManagement.MergeIdempotent | pages/api/product-management.js:145-159 | Repeating an edit changes nothing further, and an empty body changes nothing. |
| ProductManagement.EditKeepsTypesResolved | pages/api/product-management.js:134-148 | If every product's type exists before an accepted edit, it still does after. |
| ProductManagement.ApplyEdit | pages/api/product-management.js:145-159 | Assigning the loaded document's fields one by one, as the body provides them, yields exactly the merge of the stored product and the body. |
| ProductManagement.EditProduct | pages/api/product-management.js:118-170 | A failed check gives its 400 or 404 and changes nothing. Otherwise only that product is replaced, by the merge of its old value and the body, and the updated product is returned. |
| ProductManagement.DeleteProduct | pages/api/product-management.js:202-222 | No id gives 400 and an unknown id 404, both changing nothing. Otherwise exactly that product is removed and nothing else changes. |
| ProductManagementLegacy.EditCheckIff | pages/api/product-management.ts:75-84 | An edit goes ahead iff the id names a product and the type id names a type. 404 is returned exactly for a missing or unknown id. |
| ProductManagementLegacy.OmittedTypeRejected | pages/api/product-management.ts:81-84 | Omitting the type id gives 400 even when nothing else is wrong. |
| ProductManagementLegacy.MergeFields | pages/api/product-management.ts:86-89 | The type always becomes the (non-empty) type id. Name, price and quantity merge "new if truthy else old". Image, sizes, id and creation time are untouched. |
| ProductManagementLegacy.AgreesWithCurrentMerge | pages/api/product-management.ts:86-89 | Both handlers' merges agree on name, price, quantity and type. |
| ProductManagementLegacy.EditKeepsTypesResolved | pages/api/product-management.ts:81-89 | An accepted edit keeps every product's type resolvable. |
| ProductManagementLegacy.EditProduct | pages/api/product-management.ts:70-97 | A failed check gives its 404 or 400 and changes nothing. Otherwise only that product becomes the merge. |
| ProductManagementLegacy.DeleteProduct | pages/api/product-management.ts:100-116 | A missing or unknown id gives 404 and changes nothing. Otherwise exactly that product is removed. |
| ProductManagementLegacy.Handle | pages/api/product-management.ts:22-34 | An unsupported method gives 405 and changes nothing. GET lists unchanged. Update and delete come only from PUT and DELETE. |
| ProductTypeApi.CreateKeepsUnique | pages/api/product-type.ts:18-26 | Adding a type under an unused name keeps names unique and grows the table by exactly one. |
| ProductTypeApi.CreateType | pages/api/product-type.ts:10-26 | A falsy name gives 400. A name that exactly matches an existing one gives 400. Otherwise the table gains exactly the new type, and names stay unique. |
| ProductTypeApi.Renamed | pages/api/product-type.ts:55-56 | After the update the same ids are stored; the renamed type keeps its id and creation time and has the new name; every other type is unchanged. |
| ProductTypeApi.RenameDoesNotCheckNames | pages/api/product-type.ts:55-56 | For any two distinct stored types, renaming one to the other's name is written as asked, and then two types share a name. |
| ProductTypeApi.RenameType | pages/api/product-type.ts:41-58 | Missing id or new name gives 400, and an unknown id 404; both change nothing. Otherwise the collection becomes `Renamed`: only that type's name changes, and the updated type is returned. |
| ProductTypeApi.DeleteMayDangle | pages/api/product-type.ts:77 | Deleting a type a product refers to leaves that product's type unresolvable. |
| ProductTypeApi.DeleteType | pages/api/product-type.ts:64-78 | No id gives 400 and an unknown id 404, both changing nothing. Otherwise only that type is removed, and products are untouched. |
| ProductTypeApi.ListTypes | pages/api/product-type.ts:33 | GET returns a permutation of the listing, ordered by creation time newest first. |
| ProductTypeApi.DistinctIdsOnce | pages/api/product-type.ts:33 | In a list with distinct ids, every listed type occurs exactly once. |
| ProductTypeApi.ListTypesAll | pages/api/product-type.ts:33 | Over the whole collection, GET returns each stored type exactly once and nothing that is not stored. |
| ProductTypeApi.Handle | pages/api/product-type.ts:8-85 | An unsupported method gives 405 and changes nothing. GET changes nothing and returns the newest-first listing, holding each stored type exactly once and nothing else. Each success kind comes only from its method. |
| Sorting.SortNewestFirst | pages/api/last-products.ts:12 | The sorted list is a permutation of the input, ordered by the key descending. |
| Sorting.Insert | pages/api/last-products.ts:12 | Inserting into a newest-first list keeps it newest first, with one more occurrence of the element. |
| Sorting.PrefixIsNewest | pages/api/last-products.ts:11-13 | A prefix of a newest-first list is newest first, and nothing after it is newer than anything in it. |
| LastProducts.LastProductsSpec | pages/api/last-products.ts:11-13 | At most six products come back (exactly min(6, n)), newest first, all from the catalogue. No product left out is newer than one returned. |
| LastProducts.SmallCatalogueWhole | pages/api/last-products.ts:11-13 | A catalogue of six or fewer comes back whole. |
| ProductQueries.FindType | pages/api/products/index.ts:16-18 | Returns None iff no type name matches case-insensitively. Otherwise returns the first matching type in listing order. |
| ProductQueries.NoCategoryAll | pages/api/products/index.ts:31-33 | A missing or empty category returns the whole catalogue. |
| ProductQueries.UppercaseRedundant | pages/api/products/index.ts:11-18 | Upper-casing the category first does not change which type is found. |
| ProductQueries.CaseInsensitive | pages/api/products/index.ts:11-18 | Categories differing only in letter case give the same answer. |
| ProductQueries.NotFoundIff | pages/api/products/index.ts:20-22 | 404 iff no type's name matches the category, ignoring case. |
| ProductQueries.FoundExactlyThatType | pages/api/products/index.ts:25-27 | A found category returns exactly the catalogue's products whose type is the first matching type, in catalogue order. |
| Js.TrimSpec | pages/admin/dashboard/index.jsx:191 | `trim` yields a string with no space at either end, and leaves such a string unchanged. |
| Js.TrimWithin | pages/admin/dashboard/index.jsx:191 | `trim` returns a slice of its input, so it adds no character. |
| Js.UpperIdempotent | pages/api/products/index.ts:11 | Upper-casing twice equals upper-casing once. |
| Dashboard.JoinSplit | pages/admin/dashboard/index.jsx:191 | Joining the pieces of `split(",")` with commas gives back the text. |
| Dashboard.SplitJoin | pages/admin/dashboard/index.jsx:191 | Splitting comma-joined, comma-free pieces gives back the pieces. |
| Dashboard.ParseSizesSpec | pages/admin/dashboard/index.jsx:190-192 | Every parsed size is non-empty, trimmed, comma-free and the trim of one piece between commas. Every piece with a non-empty trim is a parsed size. |
| Dashboard.ParseSizesRoundTrip | pages/admin/dashboard/index.jsx:190-192 | Typing clean sizes joined by commas parses to exactly those sizes. |
| Dashboard.AppendKeepsNamesDistinct | pages/admin/dashboard/index.jsx:305-323 | Appending a type under a name not in the list keeps names distinct. |
| Dashboard.ReplaceByIdSpec | pages/admin/dashboard/index.jsx:253-257 | The matching entries become the returned product; the others and their order are kept. |
| Dashboard.RemoveByIdSpec | pages/admin/dashboard/index.jsx:291-293 | Exactly the entries with other ids are left, as a sub-multiset. |
| Dashboard.StatusOptionsOffEnum | pages/admin/dashboard/index.jsx:481-491 | Of the four offered statuses, only Processing and Shipped are in the enum. Completed and Cancelled are not, and Cancel and Delivered cannot be chosen. |
| Dashboard.StatusChangeSpec | pages/admin/dashboard/index.jsx:387-390 | Only the status of the order with that `_id` changes. |
| Dashboard.ZeroNumberRefused | pages/admin/dashboard/index.jsx:180-187 | A price or quantity of 0, or one never typed, leaves the form unfilled. |
| Dashboard.NumberFieldFilled | pages/admin/dashboard/index.jsx:180-187 | With the text fields filled, typed price and quantity fill the form iff both are non-zero. |
| Dashboard.AddError | pages/admin/dashboard/index.jsx:179-236 | As written, every call leaves an error set, so the page shows only the alert. |
| Dashboard.IntendedAddError | pages/admin/dashboard/index.jsx:179-236 | Corrected: only an unfilled form or a refusal sets an error, so a clean page stays clean after a successful add. |
| Dashboard.SuccessfulAddShowsError | pages/admin/dashboard/index.jsx:212-228 | As written, a successful add on a clean page sets "Error: setSizesInput is not defined"; the corrected version leaves no error. |
| Dashboard.AddErrorsDiffer | pages/admin/dashboard/index.jsx:179-236 | The two versions differ exactly on a successful add whose old error is not already that message. |
| Dashboard.DashboardState.AddProduct | pages/admin/dashboard/index.jsx:179-236 | As written. An unfilled form sends nothing and sets "Please fill out all fields.". A filled one sends the parsed sizes and either appends the created product, after which the call to the undeclared `setSizesInput` sets "Error: setSizesInput is not defined", or sets "Error: Failed to add product" if the server refused. Types and orders are unchanged. |
| Dashboard.DashboardState.AddProductIntended | pages/admin/dashboard/index.jsx:179-236 | Corrected: as `AddProduct`, but a successful add keeps the old error. |
| Dashboard.DashboardState.EditProduct | pages/admin/dashboard/index.jsx:238-275 | On success the entries with the edited `_id` become the product returned. Otherwise nothing changes. |
| Dashboard.DashboardState.RemoveProduct | pages/admin/dashboard/index.jsx:277-302 | On success the entries with that `_id` are dropped. Otherwise nothing changes. |
| Dashboard.DashboardState.AddProductType | pages/admin/dashboard/index.jsx:304-326 | Sent iff the name is non-empty and no listed type has it. On success the server's type is appended and names stay distinct; a refusal sets the server's message. |
| Dashboard.DashboardState.EditProductType | pages/admin/dashboard/index.jsx:328-353 | Sent iff both the id and the new name are truthy. On success the entry with the returned id becomes the returned type. |
| Dashboard.DashboardState.RemoveProductType | pages/admin/dashboard/index.jsx:355-374 | On success the entries with that `_id` are dropped; a refusal sets the server's message. |
| Dashboard.DashboardState.ChangeOrderStatus | pages/admin/dashboard/index.jsx:376-398 | On success only the status of the order with that `_id` changes. |
| MockDashboard.AddByLengthKeepsNumbered | pages/admin/dashboard/index.tsx:73-86 | While products are only added, the length-based ids stay 1, 2, … and so stay distinct. |
| MockDashboard.RemoveThenAddCollides | pages/admin/dashboard/index.tsx:73-98 | As written: removing sample product 1 and then adding one gives two products with id 3. |
| MockDashboard.MaxId | pages/admin/dashboard/index.tsx:78 | Corrected id source: the result bounds every id in use. |
| MockDashboard.AddProduct | pages/admin/dashboard/index.tsx:73-86 | Corrected add: a filled form appends one product after the old list, with an id above every id in use. An unfilled form changes nothing. |
| MockDashboard.AddKeepsIdsDistinct | pages/admin/dashboard/index.tsx:73-98 | Corrected: ids stay distinct whatever was removed before. |
| MockDashboard.EditProductSpec | pages/admin/dashboard/index.tsx:89-93 | The entry with the edited id becomes the edited product; the others are unchanged. |
| MockDashboard.EditKeepsIdsDistinct | pages/admin/dashboard/index.tsx:89-93 | Editing keeps ids distinct. |
| MockDashboard.RemoveProductSpec | pages/admin/dashboard/index.tsx:96-98 | Exactly the entries with other ids are left, as a sub-multiset. |
| MockDashboard.AddProductType | pages/admin/dashboard/index.tsx:100-105 | The list changes iff the name is non-empty and not yet listed, and then only by appending it. |
| MockDashboard.AddTypeKeepsDistinct | pages/admin/dashboard/index.tsx:100-105 | Adding a type keeps names distinct. |
| MockDashboard.RenameMayDuplicate | pages/admin/dashboard/index.tsx:107-114 | Renaming checks nothing: renaming Tops to Dresses in the sample types lists Dresses twice. |
| MockDashboard.RemoveTypeSpec | pages/admin/dashboard/index.tsx:116-118 | The name is gone, every other name stays, and the result is a sub-multiset. |
| MockDashboard.ChangeOrderStatusSpec | pages/admin/dashboard/index.tsx:120-122 | Only the status of the order with that id changes. |

## Left out

- HTTP plumbing is not modelled: `fetch`, response shapes beyond the result
  datatypes, status codes other than those named, manual body-stream parsing,
  and the 500 branches from thrown exceptions. An exception from a thrown
  validation error is modelled only for `new Order(...).save()`.
- Mongoose is modelled only in part:
  - String-to-ObjectId casting (`CastError`) is left out; ids are opaque
    strings.
  - `populate` is left out.
  - Timestamps appear only as `createdAt` parameters.
  - The ProductType schema's `unique` index and `trim` are left out.
  - Strict mode would drop the `sizes` field, which `lib/models/Product.js`
    does not declare. The model keeps `sizes` as the handlers write it.
  - The `required` validator on the array-typed `size` of an order line is
    left out.
- The database's natural order is represented as a `listing` parameter for
  `find()` results. `ProductQueries` and `LastProducts` take it directly;
  `ProductTypeApi.Handle` requires it to hold every stored type exactly once
  and nothing else (`ProductTypeApi.ListsAllTypes`).
- Ties in `.sort({ createdAt: -1 })` are broken by one fixed insertion order.
  The properties proved hold for any newest-first order.
- Concurrency is not modelled. The `Promise.all` decrements are a sequential
  fold, and `DecrementOrderIrrelevant` proves the order does not matter.
  Races between requests (check-then-act across orders) are not modelled.
- Money values (prices, totals) are integers in minor units. Floating-point
  arithmetic is out of scope, as are `parseFloat` and `parseInt`, whose
  results enter the dashboards' handlers as parameters.
- `OrderApi`: the GET listing and the 405 branch of `/api/order` are not
  modelled. They have no rules.
- `OrderApiLegacy.PlaceOrder`: its decrement code is unreachable, because
  every order it builds fails validation. Its contract therefore states only
  the outcome and that the database is unchanged.
- `ProductManagementLegacy.Handle` takes every method but POST. The
  TypeScript add handler, which uploads a file, is not part of this model.
- `ProductQueries.NameMatches`:
  - The category is interpolated into a MongoDB regular expression. The model
    treats it as a literal, case-insensitive, whole-string comparison, so
    regex metacharacters in a category are not modelled.
  - MongoDB's `$` also matches before a final newline; that is not modelled
    either.
  - Letter case is folded for ASCII letters only (`Js.Upper`).
- `Dashboard.DashboardState`:
  - Form resets, alerts, console logging and dialog state are not modelled.
  - Price and quantity are whole numbers, and a non-numeric entry (`NaN`)
    is not modelled.
  - The server's answer to each request is a parameter.
  - `handleEditProduct`'s guard is always truthy, so it is not modelled.
  - The order-detail view is not modelled.
- Auth, login, contact forms, checkout, connection caching and all
  presentation components are outside the modelled core.

## Findings

| source | as written | input that shows it | evidently intended | confidence | as-written member | corrected member |
|---|---|---|---|---|---|---|
| pages/api/order.js:30-76 | Each line's stock check compares its own quantity with the pre-order stock | Stock 3, cart with two lines of 2 for the same product: both pass, stock becomes -1 | Refuse an order whose total demand for a product exceeds its stock | high (not executed) | OrderApi.DuplicateLinesOverdrawStock | OrderApi.HardenedCheckKeepsStock, OrderApi.PlaceOrderHardened |
| pages/api/order.js:47-52 | Only `stock < quantity` is checked, so a negative quantity passes | Stock 3, one line of quantity -5: accepted, stock becomes 8 | Refuse non-positive line quantities | high (not executed) | OrderApi.NegativeLineRaisesStock | OrderApi.HardenedCheckKeepsStock, OrderApi.PlaceOrderHardened |
| pages/api/order.ts:14-50 | `paymentMethod` is neither read from the body nor passed to the Order, which the schema requires | Any cart that passes the stock check: the save fails and the handler answers 500 | Pass the payment method through, as the JavaScript handler does | high (not executed) | OrderApiLegacy.NeverCreates | OrderApi.PlacementCreated |
| pages/admin/dashboard/index.tsx:78 | New product id is `products.length + 1` | Sample products 1, 2, 3; remove 1 and add one: the new product gets id 3, already in use | An id not in use, such as one above the largest | high (not executed) | MockDashboard.RemoveThenAddCollides | MockDashboard.AddKeepsIdsDistinct |
| pages/admin/dashboard/index.jsx:224 | A successful add calls `setSizesInput("")`, which the page never declares; the catch turns the error into the page's error state | Any filled form that the server accepts: the product is appended, then "Error: setSizesInput is not defined" is set and only the alert is rendered | Keep the error as it was after a successful add | high (not executed) | Dashboard.SuccessfulAddShowsError, Dashboard.DashboardState.AddProduct | Dashboard.IntendedAddError, Dashboard.DashboardState.AddProductIntended |
