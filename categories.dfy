/** The category handlers: create with defaults, list newest first, fetch by
    id or name, and partial update. */
module Categories {
  import opened Js
  import opened Store
  import Uuid

  /** The fields `createCategory` and `updateCategory` read from a request body. */
  datatype CategoryBody = CategoryBody(
    name: Input<string>,
    image: Input<string>,
    description: Input<string>,
    taxApplicability: Input<bool>,
    tax: Input<int>,
    taxType: Input<string>)

  const NameRequired := "Name is required"
  const CategoryNotFound := "Category not found"

  /** The row `createCategory` inserts: a falsy `tax_applicability` becomes
      false and a falsy `tax` becomes 0; other supplied values are kept. */
  function NewCategory(body: CategoryBody, id: string, at: nat): (c: Category)
    requires TruthyString(body.name)
    ensures c.id == id && c.createdAt == at && c.name == Some(body.name.value)
    ensures c.attrs.image == Stored(body.image) && c.attrs.description == Stored(body.description)
    ensures c.attrs.taxType == Stored(body.taxType)
    ensures c.attrs.taxApplicability.Some?
    ensures c.attrs.taxApplicability.value <==> body.taxApplicability == Given(true)
    ensures body.tax in {Undefined, Null, Given(0)} ==> c.attrs.tax == Some(0)
    ensures body.tax !in {Undefined, Null, Given(0)} ==> c.attrs.tax == Some(body.tax.value)
  {
    Row(id, Some(body.name.value), at,
      CategoryAttrs(
        Stored(body.image),
        Stored(body.description),
        Some(TruthyBool(body.taxApplicability)),
        Some(NumberOr(body.tax, 0)),
        Stored(body.taxType)))
  }

  /** `createCategory`: a body without a name is refused and nothing is
      inserted; otherwise the defaulted row is inserted under the id the store
      generates, and returned. */
  method CreateCategory(db: Database, body: CategoryBody, newId: string) returns (resp: Response<Category>)
    requires db.Valid() && Uuid.IsUuid(newId)
    modifies db
    ensures db.Valid()
    ensures db.subcategories == old(db.subcategories) && db.items == old(db.items)
    ensures !TruthyString(body.name) ==> resp == BadRequest(NameRequired) && unchanged(db)
    ensures TruthyString(body.name) && newId in Ids(old(db.categories)) ==> resp == StoreError && unchanged(db)
    ensures TruthyString(body.name) && newId !in Ids(old(db.categories)) ==>
      && resp == Created(NewCategory(body, newId, old(db.clock)))
      && db.categories == old(db.categories) + [resp.data]
      && db.clock == old(db.clock) + 1
  {
    if !TruthyString(body.name) {
      return BadRequest(NameRequired);
    }
    if newId in Ids(db.categories) {
      return StoreError;
    }
    var row := NewCategory(body, newId, db.clock);
    db.InsertCategory(row);
    resp := Created(row);
  }

  /** `getAllCategories`: every category, newest first. */
  method GetAllCategories(db: Database) returns (resp: Response<seq<Category>>)
    requires db.Valid()
    ensures resp.Ok?
    ensures forall c :: c in resp.data <==> c in db.categories
    ensures NewestFirst(resp.data)
  {
    var rows := SelectNewestFirst(db.categories, (c: Category) => true);
    resp := Ok(rows);
  }

  /** `getCategoryByIdOrName`: a UUID-shaped identifier is looked up by id,
      anything else by exact name. */
  method GetCategoryByIdOrName(db: Database, identifier: string) returns (resp: Response<Category>)
    requires db.Valid()
    ensures resp == Respond(Lookup(db.categories, Uuid.Classify(identifier)), CategoryNotFound)
  {
    var isUuid := Uuid.IsUuid(identifier);
    var key := if isUuid then Uuid.ById(identifier) else Uuid.ByName(identifier);
    var found := MaybeSingle(db.categories, key);
    resp := Respond(found, CategoryNotFound);
  }

  /** The category `updateCategory` leaves: every field whose key the body
      carries is written, even with null; every other field is kept. */
  function PatchCategory(c: Category, body: CategoryBody): (r: Category)
    ensures r.id == c.id && r.createdAt == c.createdAt
    ensures Supplied(body.name) ==> r.name == Stored(body.name)
    ensures Supplied(body.image) ==> r.attrs.image == Stored(body.image)
    ensures Supplied(body.description) ==> r.attrs.description == Stored(body.description)
    ensures Supplied(body.taxApplicability) ==> r.attrs.taxApplicability == Stored(body.taxApplicability)
    ensures Supplied(body.tax) ==> r.attrs.tax == Stored(body.tax)
    ensures Supplied(body.taxType) ==> r.attrs.taxType == Stored(body.taxType)
  {
    c.(
      name := DefinedOr(body.name, c.name),
      attrs := c.attrs.(
        image := DefinedOr(body.image, c.attrs.image),
        description := DefinedOr(body.description, c.attrs.description),
        taxApplicability := DefinedOr(body.taxApplicability, c.attrs.taxApplicability),
        tax := DefinedOr(body.tax, c.attrs.tax),
        taxType := DefinedOr(body.taxType, c.attrs.taxType)))
  }

  /** The `updates` object of `updateCategory`, built one supplied field at a
      time on top of the stored row. */
  method BuildCategoryUpdate(existing: Category, body: CategoryBody) returns (row: Category)
    ensures row == PatchCategory(existing, body)
  {
    row := existing;
    if Supplied(body.name) { row := row.(name := Stored(body.name)); }
    if Supplied(body.image) { row := row.(attrs := row.attrs.(image := Stored(body.image))); }
    if Supplied(body.description) { row := row.(attrs := row.attrs.(description := Stored(body.description))); }
    if Supplied(body.taxApplicability) {
      row := row.(attrs := row.attrs.(taxApplicability := Stored(body.taxApplicability)));
    }
    if Supplied(body.tax) { row := row.(attrs := row.attrs.(tax := Stored(body.tax))); }
    if Supplied(body.taxType) { row := row.(attrs := row.attrs.(taxType := Stored(body.taxType))); }
  }

  /** `updateCategory`: with no row of that id the store's `.single()`
      fails and nothing changes; otherwise only that row is rewritten. Only
      the categories table is written, so no subcategory changes, whatever
      tax it copied from this category when it was created. */
  method UpdateCategory(db: Database, id: string, body: CategoryBody) returns (resp: Response<Category>)
    requires db.Valid()
    modifies db
    ensures db.Valid()
    ensures db.subcategories == old(db.subcategories) && db.items == old(db.items)
    ensures db.clock == old(db.clock)
    ensures id !in Ids(old(db.categories)) ==> resp == StoreError && db.categories == old(db.categories)
    ensures forall i :: 0 <= i < |old(db.categories)| && old(db.categories)[i].id == id ==>
      && resp == Ok(PatchCategory(old(db.categories)[i], body))
      && db.categories == old(db.categories)[i := resp.data]
  {
    var found := FindId(db.categories, id);
    if found.None? {
      return StoreError;
    }
    var i := found.value;
    var row := BuildCategoryUpdate(db.categories[i], body);
    db.ReplaceCategory(i, row);
    resp := Ok(row);
  }

  /** Only the fields the body carries change, and the id and creation
      time never do. */
  lemma PatchCategoryWritesOnlySupplied(c: Category, body: CategoryBody)
    ensures PatchCategory(c, body).id == c.id && PatchCategory(c, body).createdAt == c.createdAt
    ensures PatchCategory(c, body).name != c.name ==> Supplied(body.name)
    ensures PatchCategory(c, body).attrs.image != c.attrs.image ==> Supplied(body.image)
    ensures PatchCategory(c, body).attrs.description != c.attrs.description ==> Supplied(body.description)
    ensures PatchCategory(c, body).attrs.taxApplicability != c.attrs.taxApplicability ==> Supplied(body.taxApplicability)
    ensures PatchCategory(c, body).attrs.tax != c.attrs.tax ==> Supplied(body.tax)
    ensures PatchCategory(c, body).attrs.taxType != c.attrs.taxType ==> Supplied(body.taxType)
    ensures body.tax.Given? ==> PatchCategory(c, body).attrs.tax == Some(body.tax.value)
    ensures body.tax.Null? ==> PatchCategory(c, body).attrs.tax.None?
  {
  }

  /** Sending the same update twice leaves the row the first one left. */
  lemma PatchCategoryIdempotent(c: Category, body: CategoryBody)
    ensures PatchCategory(PatchCategory(c, body), body) == PatchCategory(c, body)
  {
  }
}
