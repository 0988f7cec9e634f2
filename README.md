# Menu API controllers, modelled in Dafny

The menu service keeps a three-level catalogue: categories, subcategories
under a category, and items under a category (and optionally under a
subcategory). Its HTTP handlers are thin wrappers around a relational store.
Each handler still makes its own decisions:

- which request fields are required, with JavaScript truthiness for ids and
  names and `=== undefined` for `base_amount`;
- which defaults a created row gets (`tax || 0`, `tax_applicability || false`,
  `discount || 0`, `subcategory_id || null`);
- the tax snapshot: a subcategory created without tax fields copies its
  parent category's tax fields at that moment;
- the derived `total_amount = base_amount - discount`, recomputed on every
  item update from the supplied or stored amounts;
- partial updates, which write only the fields the body carries, null
  included;
- the dual-key lookup: an identifier shaped like a UUID is looked up by id,
  anything else by exact name.

The model is split into these modules:

- `Js` (`js.dfy`) holds request values. `Input<T>` is `Undefined | Null |
  Given(v)`, so an absent key is distinct from an explicit `null`. Truthiness
  is defined per type: `""`, `0` and `false` are falsy. Stored columns are
  `Option<T>`, with `None` meaning SQL NULL.
- `Uuid` (`uuid.dfy`) holds the anchored, case-insensitive 8-4-4-4-12
  hexadecimal pattern, and the classification of an identifier as
  `ById`/`ByName`.
- `Store` (`store.dfy`) is the store the handlers rely on. The class
  `Database` holds three tables in creation order and a clock that stands in
  for `created_at`. Its invariant `Valid` requires:
  - unique UUID-shaped ids;
  - increasing creation times;
  - every subcategory's parent exists;
  - every item's `total_amount` equals its base amount less its discount.

  The module also holds the table writes (`insert` and `update ... eq('id')`),
  the `created_at`-descending listing (`SelectNewestFirst`), the "at most one
  row" lookup (`Lookup`, and the method `MaybeSingle` that computes it) and
  the `ilike '%term%'` filter.
- `Categories`, `Subcategories` and `Items` (`categories.dfy`,
  `subcategories.dfy`, `items.dfy`) hold one method per handler. Each handler
  is a method taking the `Database`, and it returns a tagged response:
  - `Ok`/`Created` are 200/201;
  - `BadRequest` is a 400 carrying the handler's own message;
  - `NotFound` is a 404;
  - `StoreError` is a 400. The store's message that the handler passes on
    is not modelled, so `StoreError` carries nothing.

  Each `updates` object is built field by field (`BuildXUpdate`) and proved
  equal to a pure merge function (`PatchX`).
- `Menu` (`menu.dfy`) holds the snapshot property, which spans two handlers.

Two behaviours of the code are easy to miss:

- `createItem` tests `base_amount === undefined`, so an explicit `null` base
  amount is accepted. The row then gets `total_amount = -discount`, because
  JavaScript's `null - d` is `-d`.
- `maybeSingle` on more than one matching row returns an error, which the
  `...ByIdOrName` handlers answer with 400. Which row "wins" is not left
  open. In `createSubcategory`, the error of the parent lookup is not read,
  so there an ambiguous result would also give 404. For id lookups the
  model proves that an ambiguous result never happens.

## Model

| member | source | states |
|---|---|---|
| Uuid.UuidShape | src/controllers/itemController.js:112 | an identifier counts as a UUID exactly when it has 36 characters, hyphens at 8, 13, 18 and 23, and a hexadecimal digit of either case everywhere else |
| Uuid.ShortNamesAreNames | src/controllers/categoryController.js:55-63 | an identifier whose length is not 36 is always looked up by name |
| Uuid.Classify | src/controllers/itemController.js:112-120 | an identifier is looked up by id exactly when it has the UUID shape, and by name, as given, exactly when it has not |
| Store.SelectNewestFirst | src/controllers/categoryController.js:36-39 | a filtered listing holds exactly the rows of the table that pass the filter, in strictly descending creation time |
| Store.ListingIsDetermined | src/controllers/itemController.js:53-56 | two newest-first listings with the same rows are the same sequence, so membership plus order fixes the answer |
| Store.MaybeSingle | src/controllers/itemController.js:122 | the lookup returns no row, the only matching row, or the ambiguous result, exactly as the "at most one row" specification `Lookup` says |
| Store.LookupCases | src/controllers/itemController.js:122-130 | `Lookup` is no row exactly when nothing matches, one row only when that row is the sole match, and ambiguous exactly when two different rows match |
| Store.RowReachedById | src/controllers/itemController.js:116-117 | in a well-formed table, looking up any stored row's id yields exactly that row |
| Store.IdLookupNeverAmbiguous | src/controllers/subcategoryController.js:11-15 | an id lookup in a well-formed table yields the row with that id when there is one, and no row otherwise; never the ambiguous result |
| Store.FindId | src/controllers/itemController.js:175-183 | the search for an id fails exactly when no stored row has that id, and otherwise gives the position of that row |
| Store.ContainsAnywhere | src/controllers/itemController.js:149 | a name that holds the search term anywhere, in any ASCII letter case, matches `ilike '%term%'` |
| Store.ContainsOnlyAsSubstring | src/controllers/itemController.js:149 | a name that matches `ilike '%term%'` is some prefix, then a spelling of the term differing from it only in letter case, then some suffix |
| Store.Respond | src/controllers/itemController.js:124-132 | the handler answers 200 with the row exactly when the lookup yields one row, 404 with its message exactly when it yields none, and the store's error exactly when it is ambiguous |
| Store.Database.InsertCategory | src/controllers/categoryController.js:11-22 | inserting a category appends it, advances the clock and keeps every table invariant, and leaves the other tables alone |
| Store.Database.InsertSubcategory | src/controllers/subcategoryController.js:21-32 | inserting a subcategory whose parent exists appends it, advances the clock and keeps every table invariant |
| Store.Database.InsertItem | src/controllers/itemController.js:24-39 | inserting an item whose total agrees with its amounts appends it, advances the clock and keeps every table invariant |
| Store.Database.ReplaceCategory | src/controllers/categoryController.js:94-99 | rewriting one category in place keeps ids and creation order, and changes no other row or table |
| Store.Database.ReplaceSubcategory | src/controllers/subcategoryController.js:123-128 | rewriting one subcategory in place, under the same parent, keeps ids, creation order and the parent invariant, and changes nothing else |
| Store.Database.ReplaceItem | src/controllers/itemController.js:199-204 | rewriting one item in place keeps ids, creation order and the `total_amount` invariant, and changes nothing else |
| Categories.NewCategory | src/controllers/categoryController.js:13-20 | a created category stores the given fields, `tax_applicability` true only when `true` was sent, and `tax` 0 whenever the sent tax is falsy |
| Categories.CreateCategory | src/controllers/categoryController.js:3-32 | without a name: 400 "Name is required" and no change; otherwise the defaulted row is appended and returned with 201; a clashing id is a store error with no change |
| Categories.GetAllCategories | src/controllers/categoryController.js:34-49 | every category, and nothing else, newest first |
| Categories.GetCategoryByIdOrName | src/controllers/categoryController.js:51-79 | the answer is the "at most one" lookup on id for a UUID-shaped identifier and on name otherwise: 404 "Category not found" on no row, 400 when ambiguous, else the row |
| Categories.PatchCategory | src/controllers/categoryController.js:86-99 | the merged category keeps its id and creation time, and every field whose key the body carries (name, image, description, tax applicability, tax, tax type) is stored as sent, `null` clearing it |
| Categories.BuildCategoryUpdate | src/controllers/categoryController.js:86-92 | the `updates` object, built field by field, is the merge `PatchCategory`: each field whose key is present is written, null included, and every other field is kept |
| Categories.UpdateCategory | src/controllers/categoryController.js:81-109 | an unknown id is a store error and changes nothing; otherwise exactly that category is replaced by the merge, and no subcategory, item or other category changes |
| Categories.PatchCategoryWritesOnlySupplied | src/controllers/categoryController.js:86-92 | a field changes only when its key is present in the body; a supplied tax is stored as sent and a `null` tax clears it; id and creation time never change |
| Categories.PatchCategoryIdempotent | src/controllers/categoryController.js:86-99 | applying the same update twice leaves the row that applying it once leaves |
| Subcategories.NewSubcategory | src/controllers/subcategoryController.js:21-32 | a supplied tax or tax applicability (even 0, false or null) is kept; an omitted one is copied from the parent category |
| Subcategories.HasRequired | src/controllers/subcategoryController.js:7 | a body passes exactly when both the category id and the name are present, non-null, non-empty strings |
| Subcategories.CreateSubcategory | src/controllers/subcategoryController.js:3-42 | without a category id or name: 400; when the parent lookup yields no row: 404 "Category not found" and no change; otherwise the inherited row is appended and returned with 201 |
| Subcategories.ParentIsTheNamedCategory | src/controllers/subcategoryController.js:11-19 | the parent lookup yields a row exactly when some category has the given id, and that row is the category with that id |
| Subcategories.GetAllSubcategories | src/controllers/subcategoryController.js:44-59 | every subcategory, and nothing else, newest first |
| Subcategories.GetSubcategoriesByCategory | src/controllers/subcategoryController.js:61-79 | exactly the subcategories whose category id equals the parameter, newest first |
| Subcategories.GetSubcategoryByIdOrName | src/controllers/subcategoryController.js:81-109 | the same id-or-name dispatch, with 404 "Subcategory not found" |
| Subcategories.PatchSubcategory | src/controllers/subcategoryController.js:116-128 | the merged subcategory keeps its id, creation time and parent category, and every field whose key the body carries (name, image, description, tax applicability, tax) is stored as sent, `null` clearing it |
| Subcategories.BuildSubcategoryUpdate | src/controllers/subcategoryController.js:116-121 | the `updates` object equals the merge `PatchSubcategory` of the supplied name, image, description, tax applicability and tax |
| Subcategories.UpdateSubcategory | src/controllers/subcategoryController.js:111-138 | an unknown id is a store error and changes nothing; otherwise exactly that subcategory is replaced by the merge |
| Subcategories.PatchSubcategoryKeepsParent | src/controllers/subcategoryController.js:114-121 | an update never changes the parent category, id or creation time, and an omitted tax field is kept rather than taken again from the parent |
| Subcategories.PatchSubcategoryIdempotent | src/controllers/subcategoryController.js:116-128 | applying the same update twice leaves the row that applying it once leaves |
| Items.NewItem | src/controllers/itemController.js:17-37 | the stored discount is the sent one or 0 when falsy, `total_amount` is the base amount less that discount, a falsy subcategory id becomes null, and a falsy tax or tax applicability becomes 0 or false |
| Items.HasRequired | src/controllers/itemController.js:17 | a body without a `base_amount` key is refused; with a truthy category id and name any present base amount is accepted, 0 and null included; acceptance needs a non-empty category id and name |
| Items.CreateItem | src/controllers/itemController.js:3-49 | without a category id, a name, or any `base_amount` key: 400 and no change (a base amount of 0 is accepted); otherwise the row is appended and returned with 201 |
| Items.GetAllItems | src/controllers/itemController.js:51-66 | every item, and nothing else, newest first |
| Items.GetItemsByCategory | src/controllers/itemController.js:68-86 | exactly the items whose category id equals the parameter, newest first |
| Items.GetItemsBySubcategory | src/controllers/itemController.js:88-106 | exactly the items whose subcategory id equals the parameter, newest first; items without a subcategory are never listed |
| Items.GetItemByIdOrName | src/controllers/itemController.js:108-136 | the same id-or-name dispatch, with 404 "Item not found" |
| Items.SearchItemsByName | src/controllers/itemController.js:138-160 | a missing or empty term: 400 "Search name parameter is required"; otherwise exactly the items whose name contains the term ignoring case, newest first |
| Items.PatchItem | src/controllers/itemController.js:185-197 | every field whose key the body carries (name, image, description, tax applicability, tax, base amount, discount) is stored as sent, `null` clearing it; `total_amount` is the new-or-stored base amount less the new-or-stored discount, null counting as 0, even when neither is sent |
| Items.BuildItemUpdate | src/controllers/itemController.js:185-197 | the `updates` object equals the merge `PatchItem` |
| Items.UpdateItem | src/controllers/itemController.js:162-214 | an unknown id: 404 "Item not found" and no change; otherwise exactly that item is replaced by the merge, and every other row is unchanged |
| Items.PatchItemKeepsPlacement | src/controllers/itemController.js:185-196 | an update never moves an item to another category or subcategory, and every simple field the body omits keeps its stored value |
| Items.PatchItemIdempotent | src/controllers/itemController.js:185-197 | applying the same update twice leaves the row that applying it once leaves |
| Menu.TaxIsCopiedNotLinked | src/controllers/subcategoryController.js:28-29 | a subcategory created without tax fields holds its category's tax values, and still holds them after the category's tax is updated |

## Left out

- Express setup, body parsing and route registration are not part of this model. The `/items/search` route is registered before `/items/:identifier`, so a search request never reaches the identifier lookup.
- Asynchrony is left out. Each handler is one atomic step, so the race between the parent check and the insert in `createSubcategory`, and between the read and the write in `updateItem`, is not modelled.
- Store failures other than the ones modelled are not represented: network errors, other constraint violations, and any referential check on an item's category or subcategory. The same goes for the 500 catch-all for thrown exceptions.
- Joined name annotations (`categories(name)`, `subcategories(name)`) in listings are left out. They decorate rows and do not decide anything.
- Amounts (`base_amount`, `discount`, `total_amount`) and the `tax` rate are integers. The floating-point arithmetic of JavaScript numbers is not modelled, so a fractional tax such as 5.5 or a fractional amount cannot be represented. `NaN` from non-numeric input is not modelled either.
- Body values of the wrong JSON type are not modelled. Each field has one type (string, number or boolean) plus `null` and absence.
- Insert columns the handlers leave undefined are stored as NULL. Column defaults of the store's schema are not part of this model.
- The store generates ids and timestamps. The new id is a parameter, required to be UUID-shaped, and a clock stands in for `created_at`.
- Ids are compared as exact strings. The store's `uuid` columns also match an id written in upper case, which the model does not.
- The listing filters `eq('category_id', …)` in `getSubcategoriesByCategory` and `getItemsByCategory`, and `eq('subcategory_id', …)` in `getItemsBySubcategory`, run on uuid columns. For a malformed id the store answers an error, which the handler turns into a 400. The model answers those listings with `Ok` for every string.
- Items.SearchItemsByName: `%`, `_` and `*` (which the store's query layer also reads as a wildcard) inside the search term are matched literally, not as `ilike` wildcards. The same goes for `\`, the escape character of `ilike`: the term `a\_b` finds the name `a_b` in the store, while the model looks for `a\_b` literally.
- Items.SearchItemsByName: case is folded for ASCII letters only. Locale-dependent case folding is not modelled.
- Categories.UpdateCategory: an update with an empty body is treated as rewriting the row unchanged. What the store does with an empty `updates` object is not modelled.
- Subcategories.UpdateSubcategory: an update with an empty body is treated the same way.
- The HTTP status codes and response envelopes (`message`, `data`) reduce to the tagged `Response` value.
