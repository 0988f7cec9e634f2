/** The item handlers: create with the derived `total_amount`; list all, by
    category or by subcategory, newest first; fetch by id or name; search by
    name; partial update that recomputes `total_amount`. */
module Items {
  import opened Js
  import opened Store
  import Uuid

  /** The fields `createItem` and `updateItem` read from a request body (the
      update ignores `category_id` and `subcategory_id`). */
  datatype ItemBody = ItemBody(
    categoryId: Input<string>,
    subcategoryId: Input<string>,
    name: Input<string>,
    image: Input<string>,
    description: Input<string>,
    taxApplicability: Input<bool>,
    tax: Input<int>,
    baseAmount: Input<int>,
    discount: Input<int>)

  const FieldsRequired := "Category ID, name, and base amount are required"
  const ItemNotFound := "Item not found"
  const SearchNameRequired := "Search name parameter is required"

  /** `!category_id || !name || base_amount === undefined` does not hold:
      a base amount of 0, or even null, is accepted. */
  predicate HasRequired(body: ItemBody): (ok: bool)
    ensures body.baseAmount.Undefined? ==> !ok
    ensures TruthyString(body.categoryId) && TruthyString(body.name) && !body.baseAmount.Undefined? ==> ok
    ensures TruthyString(body.categoryId) && TruthyString(body.name) ==>
      (body.baseAmount == Given(0) ==> ok) && (body.baseAmount.Null? ==> ok)
    ensures ok ==> body.categoryId.Given? && body.categoryId.value != "" && body.name.Given? && body.name.value != ""
  {
    TruthyString(body.categoryId) && TruthyString(body.name) && Supplied(body.baseAmount)
  }

  /** The row `createItem` inserts. The discount is the supplied one, or 0
      when it is falsy, and `total_amount` is the base amount less that
      discount; a falsy subcategory id becomes null, a falsy tax
      applicability false and a falsy tax 0. */
  function NewItem(body: ItemBody, id: string, at: nat): (it: Item)
    requires HasRequired(body)
    ensures it.id == id && it.createdAt == at && it.name == Some(body.name.value)
    ensures it.attrs.categoryId == body.categoryId.value
    ensures TruthyString(body.subcategoryId) ==> it.attrs.subcategoryId == Some(body.subcategoryId.value)
    ensures !TruthyString(body.subcategoryId) ==> it.attrs.subcategoryId == None
    ensures it.attrs.image == Stored(body.image) && it.attrs.description == Stored(body.description)
    ensures it.attrs.taxApplicability.Some?
    ensures it.attrs.taxApplicability.value <==> body.taxApplicability == Given(true)
    ensures body.tax in {Undefined, Null, Given(0)} ==> it.attrs.tax == Some(0)
    ensures body.tax !in {Undefined, Null, Given(0)} ==> it.attrs.tax == Some(body.tax.value)
    ensures it.attrs.baseAmount == Stored(body.baseAmount)
    ensures body.discount in {Undefined, Null, Given(0)} ==> it.attrs.discount == Some(0)
    ensures body.discount !in {Undefined, Null, Given(0)} ==> it.attrs.discount == Some(body.discount.value)
    ensures body.baseAmount.Given? ==> it.attrs.totalAmount == body.baseAmount.value - it.attrs.discount.value
    ensures body.baseAmount.Null? ==> it.attrs.totalAmount == -it.attrs.discount.value
    ensures TotalIsNet(it)
  {
    var discountValue := NumberOr(body.discount, 0);
    var totalAmount := NumberOf(Stored(body.baseAmount)) - discountValue;
    Row(id, Some(body.name.value), at,
      ItemAttrs(
        body.categoryId.value,
        if TruthyString(body.subcategoryId) then Some(body.subcategoryId.value) else None,
        Stored(body.image),
        Stored(body.description),
        Some(TruthyBool(body.taxApplicability)),
        Some(NumberOr(body.tax, 0)),
        Stored(body.baseAmount),
        Some(discountValue),
        totalAmount))
  }

  /** `createItem`: refused, with nothing inserted, unless the category id,
      the name and the base amount are present; otherwise the row is
      inserted and returned. Neither the category nor the subcategory is
      checked to exist. */
  method CreateItem(db: Database, body: ItemBody, newId: string) returns (resp: Response<Item>)
    requires db.Valid() && Uuid.IsUuid(newId)
    modifies db
    ensures db.Valid()
    ensures db.categories == old(db.categories) && db.subcategories == old(db.subcategories)
    ensures !HasRequired(body) ==> resp == BadRequest(FieldsRequired) && unchanged(db)
    ensures HasRequired(body) && newId in Ids(old(db.items)) ==> resp == StoreError && unchanged(db)
    ensures HasRequired(body) && newId !in Ids(old(db.items)) ==>
      && resp == Created(NewItem(body, newId, old(db.clock)))
      && db.items == old(db.items) + [resp.data]
      && db.clock == old(db.clock) + 1
  {
    if !HasRequired(body) {
      return BadRequest(FieldsRequired);
    }
    if newId in Ids(db.items) {
      return StoreError;
    }
    var row := NewItem(body, newId, db.clock);
    db.InsertItem(row);
    resp := Created(row);
  }

  /** `getAllItems`: every item, newest first. */
  method GetAllItems(db: Database) returns (resp: Response<seq<Item>>)
    requires db.Valid()
    ensures resp.Ok?
    ensures forall it :: it in resp.data <==> it in db.items
    ensures NewestFirst(resp.data)
  {
    var rows := SelectNewestFirst(db.items, (it: Item) => true);
    resp := Ok(rows);
  }

  /** `getItemsByCategory`: exactly the items filed under that category,
      newest first. */
  method GetItemsByCategory(db: Database, categoryId: string) returns (resp: Response<seq<Item>>)
    requires db.Valid()
    ensures resp.Ok?
    ensures forall it :: it in resp.data <==> it in db.items && it.attrs.categoryId == categoryId
    ensures NewestFirst(resp.data)
  {
    var rows := SelectNewestFirst(db.items, (it: Item) => it.attrs.categoryId == categoryId);
    resp := Ok(rows);
  }

  /** `getItemsBySubcategory`: exactly the items filed under that
      subcategory, newest first; an item without a subcategory is never
      listed. */
  method GetItemsBySubcategory(db: Database, subcategoryId: string) returns (resp: Response<seq<Item>>)
    requires db.Valid()
    ensures resp.Ok?
    ensures forall it :: it in resp.data <==> it in db.items && it.attrs.subcategoryId == Some(subcategoryId)
    ensures NewestFirst(resp.data)
  {
    var rows := SelectNewestFirst(db.items, (it: Item) => it.attrs.subcategoryId == Some(subcategoryId));
    resp := Ok(rows);
  }

  /** `getItemByIdOrName`: the same dispatch as for categories. */
  method GetItemByIdOrName(db: Database, identifier: string) returns (resp: Response<Item>)
    requires db.Valid()
    ensures resp == Respond(Lookup(db.items, Uuid.Classify(identifier)), ItemNotFound)
  {
    var isUuid := Uuid.IsUuid(identifier);
    var key := if isUuid then Uuid.ById(identifier) else Uuid.ByName(identifier);
    var found := MaybeSingle(db.items, key);
    resp := Respond(found, ItemNotFound);
  }

  /** `searchItemsByName`: refused when the `name` query parameter is absent
      or empty; otherwise exactly the items whose name contains the term,
      ignoring case, newest first. */
  method SearchItemsByName(db: Database, name: Option<string>) returns (resp: Response<seq<Item>>)
    requires db.Valid()
    ensures name.None? || name == Some("") ==> resp == BadRequest(SearchNameRequired)
    ensures name.Some? && name.value != "" ==>
      && resp.Ok?
      && (forall it :: it in resp.data <==> it in db.items && NameContains(it, name.value))
      && NewestFirst(resp.data)
  {
    if name.None? || name.value == "" {
      return BadRequest(SearchNameRequired);
    }
    var term := name.value;
    var rows := SelectNewestFirst(db.items, (it: Item) => NameContains(it, term));
    resp := Ok(rows);
  }

  /** The item `updateItem` leaves. Supplied simple fields are written;
      `total_amount` is always rewritten, from the supplied base amount and
      discount where the body carries them and from the stored ones where it
      does not. The category and subcategory are never changed. */
  function PatchItem(it: Item, body: ItemBody): (r: Item)
    ensures Supplied(body.name) ==> r.name == Stored(body.name)
    ensures Supplied(body.image) ==> r.attrs.image == Stored(body.image)
    ensures Supplied(body.description) ==> r.attrs.description == Stored(body.description)
    ensures Supplied(body.taxApplicability) ==> r.attrs.taxApplicability == Stored(body.taxApplicability)
    ensures Supplied(body.tax) ==> r.attrs.tax == Stored(body.tax)
    ensures Supplied(body.baseAmount) ==> r.attrs.baseAmount == Stored(body.baseAmount)
    ensures Supplied(body.discount) ==> r.attrs.discount == Stored(body.discount)
    ensures TotalIsNet(r)
    ensures r.attrs.totalAmount ==
      NumberOf(DefinedOr(body.baseAmount, it.attrs.baseAmount)) - NumberOf(DefinedOr(body.discount, it.attrs.discount))
  {
    var baseAmount := DefinedOr(body.baseAmount, it.attrs.baseAmount);
    var discount := DefinedOr(body.discount, it.attrs.discount);
    it.(
      name := DefinedOr(body.name, it.name),
      attrs := it.attrs.(
        image := DefinedOr(body.image, it.attrs.image),
        description := DefinedOr(body.description, it.attrs.description),
        taxApplicability := DefinedOr(body.taxApplicability, it.attrs.taxApplicability),
        tax := DefinedOr(body.tax, it.attrs.tax),
        baseAmount := baseAmount,
        discount := discount,
        totalAmount := NumberOf(baseAmount) - NumberOf(discount)))
  }

  /** The `updates` object of `updateItem`, built one supplied field at a
      time on top of the stored row. */
  method BuildItemUpdate(existing: Item, body: ItemBody) returns (row: Item)
    ensures row == PatchItem(existing, body)
  {
    row := existing;
    if Supplied(body.name) { row := row.(name := Stored(body.name)); }
    if Supplied(body.image) { row := row.(attrs := row.attrs.(image := Stored(body.image))); }
    if Supplied(body.description) { row := row.(attrs := row.attrs.(description := Stored(body.description))); }
    if Supplied(body.taxApplicability) {
      row := row.(attrs := row.attrs.(taxApplicability := Stored(body.taxApplicability)));
    }
    if Supplied(body.tax) { row := row.(attrs := row.attrs.(tax := Stored(body.tax))); }
    var newBaseAmount := if Supplied(body.baseAmount) then Stored(body.baseAmount) else existing.attrs.baseAmount;
    var newDiscount := if Supplied(body.discount) then Stored(body.discount) else existing.attrs.discount;
    if Supplied(body.baseAmount) { row := row.(attrs := row.attrs.(baseAmount := Stored(body.baseAmount))); }
    if Supplied(body.discount) { row := row.(attrs := row.attrs.(discount := Stored(body.discount))); }
    row := row.(attrs := row.attrs.(totalAmount := NumberOf(newBaseAmount) - NumberOf(newDiscount)));
  }

  /** `updateItem`: 404, and nothing changes, when no item has that id;
      otherwise only that row is rewritten. */
  method UpdateItem(db: Database, id: string, body: ItemBody) returns (resp: Response<Item>)
    requires db.Valid()
    modifies db
    ensures db.Valid()
    ensures db.categories == old(db.categories) && db.subcategories == old(db.subcategories)
    ensures db.clock == old(db.clock)
    ensures id !in Ids(old(db.items)) ==> resp == NotFound(ItemNotFound) && unchanged(db)
    ensures forall i :: 0 <= i < |old(db.items)| && old(db.items)[i].id == id ==>
      && resp == Ok(PatchItem(old(db.items)[i], body))
      && db.items == old(db.items)[i := resp.data]
  {
    // ids are unique, so `.eq('id', id).maybeSingle()` is the row at this position
    var found := FindId(db.items, id);
    if found.None? {
      return NotFound(ItemNotFound);
    }
    var i := found.value;
    var row := BuildItemUpdate(db.items[i], body);
    db.ReplaceItem(i, row);
    resp := Ok(row);
  }

  /** An update never moves an item to another category or subcategory,
      even when the body names one, and keeps its id and creation time;
      simple fields the body leaves out keep their stored values. */
  lemma PatchItemKeepsPlacement(it: Item, body: ItemBody)
    ensures PatchItem(it, body).id == it.id && PatchItem(it, body).createdAt == it.createdAt
    ensures PatchItem(it, body).attrs.categoryId == it.attrs.categoryId
    ensures PatchItem(it, body).attrs.subcategoryId == it.attrs.subcategoryId
    ensures !Supplied(body.name) ==> PatchItem(it, body).name == it.name
    ensures !Supplied(body.image) ==> PatchItem(it, body).attrs.image == it.attrs.image
    ensures !Supplied(body.description) ==> PatchItem(it, body).attrs.description == it.attrs.description
    ensures !Supplied(body.taxApplicability) ==> PatchItem(it, body).attrs.taxApplicability == it.attrs.taxApplicability
    ensures !Supplied(body.tax) ==> PatchItem(it, body).attrs.tax == it.attrs.tax
    ensures !Supplied(body.baseAmount) ==> PatchItem(it, body).attrs.baseAmount == it.attrs.baseAmount
    ensures !Supplied(body.discount) ==> PatchItem(it, body).attrs.discount == it.attrs.discount
  {
  }

  /** Sending the same update twice leaves the row the first one left. */
  lemma PatchItemIdempotent(it: Item, body: ItemBody)
    ensures PatchItem(PatchItem(it, body), body) == PatchItem(it, body)
  {
  }
}
