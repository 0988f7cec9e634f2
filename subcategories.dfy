/** The subcategory handlers: create under an existing category, copying the
    category's tax fields when the body leaves them out; list all or by
    category, newest first; fetch by id or name; partial update. */
module Subcategories {
  import opened Js
  import opened Store
  import Uuid

  /** The fields `createSubcategory` and `updateSubcategory` read from a
      request body (the update ignores `category_id`). */
  datatype SubcategoryBody = SubcategoryBody(
    categoryId: Input<string>,
    name: Input<string>,
    image: Input<string>,
    description: Input<string>,
    taxApplicability: Input<bool>,
    tax: Input<int>)

  const FieldsRequired := "Category ID and name are required"
  const CategoryNotFound := "Category not found"
  const SubcategoryNotFound := "Subcategory not found"

  /** `!category_id || !name` does not hold. */
  predicate HasRequired(body: SubcategoryBody): (ok: bool)
    ensures ok <==> body.categoryId.Given? && body.categoryId.value != "" && body.name.Given? && body.name.value != ""
  {
    TruthyString(body.categoryId) && TruthyString(body.name)
  }

  /** The row `createSubcategory` inserts under `parent`: each tax field the
      body carries (even as 0, false or null) is kept, each one it leaves out
      is copied from the parent as it is now. */
  function NewSubcategory(body: SubcategoryBody, parent: Category, id: string, at: nat): (s: Subcategory)
    requires HasRequired(body)
    ensures s.id == id && s.createdAt == at && s.name == Some(body.name.value)
    ensures s.attrs.categoryId == body.categoryId.value
    ensures s.attrs.image == Stored(body.image) && s.attrs.description == Stored(body.description)
    ensures Supplied(body.taxApplicability) ==> s.attrs.taxApplicability == Stored(body.taxApplicability)
    ensures !Supplied(body.taxApplicability) ==> s.attrs.taxApplicability == parent.attrs.taxApplicability
    ensures Supplied(body.tax) ==> s.attrs.tax == Stored(body.tax)
    ensures !Supplied(body.tax) ==> s.attrs.tax == parent.attrs.tax
  {
    Row(id, Some(body.name.value), at,
      SubcategoryAttrs(
        body.categoryId.value,
        Stored(body.image),
        Stored(body.description),
        DefinedOr(body.taxApplicability, parent.attrs.taxApplicability),
        DefinedOr(body.tax, parent.attrs.tax)))
  }

  /** The parent lookup of `createSubcategory`: `.eq('id', category_id)`
      under `maybeSingle`. */
  ghost function ParentOf(categories: seq<Category>, body: SubcategoryBody): (s: Single<CategoryAttrs>)
    requires HasRequired(body)
  {
    Lookup(categories, Uuid.ById(body.categoryId.value))
  }

  /** `createSubcategory`: refused without a category id or a name; answered
      404 unless the parent lookup yields a row (its error is not read, so an
      ambiguous lookup would be a 404 too); otherwise the row is inserted and
      returned. Nothing is inserted on a refusal. */
  method CreateSubcategory(db: Database, body: SubcategoryBody, newId: string) returns (resp: Response<Subcategory>)
    requires db.Valid() && Uuid.IsUuid(newId)
    modifies db
    ensures db.Valid()
    ensures db.categories == old(db.categories) && db.items == old(db.items)
    ensures !HasRequired(body) ==> resp == BadRequest(FieldsRequired) && unchanged(db)
    ensures HasRequired(body) && !ParentOf(old(db.categories), body).OneRow? ==>
      resp == NotFound(CategoryNotFound) && unchanged(db)
    ensures HasRequired(body) && body.categoryId.value !in Ids(old(db.categories)) ==>
      resp == NotFound(CategoryNotFound)
    ensures HasRequired(body) && ParentOf(old(db.categories), body).OneRow? && newId in Ids(old(db.subcategories)) ==>
      resp == StoreError && unchanged(db)
    ensures HasRequired(body) && ParentOf(old(db.categories), body).OneRow? && newId !in Ids(old(db.subcategories)) ==>
      && resp == Created(NewSubcategory(body, ParentOf(old(db.categories), body).row, newId, old(db.clock)))
      && db.subcategories == old(db.subcategories) + [resp.data]
      && db.clock == old(db.clock) + 1
  {
    if !HasRequired(body) {
      return BadRequest(FieldsRequired);
    }
    var categoryId := body.categoryId.value;
    var category := MaybeSingle(db.categories, Uuid.ById(categoryId));
    IdLookupNeverAmbiguous(db.categories, db.clock, categoryId);
    if !category.OneRow? {
      return NotFound(CategoryNotFound);
    }
    if newId in Ids(db.subcategories) {
      return StoreError;
    }
    var row := NewSubcategory(body, category.row, newId, db.clock);
    db.InsertSubcategory(row);
    resp := Created(row);
  }

  /** In a well-formed table the parent lookup finds exactly the category
      whose id the body names, so the 404 answers precisely an unknown
      category id. */
  lemma {:induction false} ParentIsTheNamedCategory(categories: seq<Category>, clock: nat, body: SubcategoryBody)
    requires WellFormed(categories, clock) && HasRequired(body)
    ensures ParentOf(categories, body).OneRow? <==> body.categoryId.value in Ids(categories)
    ensures forall i :: 0 <= i < |categories| && categories[i].id == body.categoryId.value ==>
      ParentOf(categories, body) == OneRow(categories[i])
  {
    var id := body.categoryId.value;
    IdLookupNeverAmbiguous(categories, clock, id);
    forall i | 0 <= i < |categories| && categories[i].id == id
      ensures ParentOf(categories, body) == OneRow(categories[i])
    {
      assert i == IndexIn(categories, id);
    }
  }

  /** `getAllSubcategories`: every subcategory, newest first. */
  method GetAllSubcategories(db: Database) returns (resp: Response<seq<Subcategory>>)
    requires db.Valid()
    ensures resp.Ok?
    ensures forall s :: s in resp.data <==> s in db.subcategories
    ensures NewestFirst(resp.data)
  {
    var rows := SelectNewestFirst(db.subcategories, (s: Subcategory) => true);
    resp := Ok(rows);
  }

  /** `getSubcategoriesByCategory`: exactly the subcategories of that
      category, newest first. */
  method GetSubcategoriesByCategory(db: Database, categoryId: string) returns (resp: Response<seq<Subcategory>>)
    requires db.Valid()
    ensures resp.Ok?
    ensures forall s :: s in resp.data <==> s in db.subcategories && s.attrs.categoryId == categoryId
    ensures NewestFirst(resp.data)
  {
    var rows := SelectNewestFirst(db.subcategories, (s: Subcategory) => s.attrs.categoryId == categoryId);
    resp := Ok(rows);
  }

  /** `getSubcategoryByIdOrName`: the same dispatch as for categories. */
  method GetSubcategoryByIdOrName(db: Database, identifier: string) returns (resp: Response<Subcategory>)
    requires db.Valid()
    ensures resp == Respond(Lookup(db.subcategories, Uuid.Classify(identifier)), SubcategoryNotFound)
  {
    var isUuid := Uuid.IsUuid(identifier);
    var key := if isUuid then Uuid.ById(identifier) else Uuid.ByName(identifier);
    var found := MaybeSingle(db.subcategories, key);
    resp := Respond(found, SubcategoryNotFound);
  }

  /** The subcategory `updateSubcategory` leaves: supplied fields among name,
      image, description, tax applicability and tax are written; the parent
      is never changed and the tax is not taken again from it. */
  function PatchSubcategory(s: Subcategory, body: SubcategoryBody): (r: Subcategory)
    ensures r.id == s.id && r.createdAt == s.createdAt
    ensures r.attrs.categoryId == s.attrs.categoryId
    ensures Supplied(body.name) ==> r.name == Stored(body.name)
    ensures Supplied(body.image) ==> r.attrs.image == Stored(body.image)
    ensures Supplied(body.description) ==> r.attrs.description == Stored(body.description)
    ensures Supplied(body.taxApplicability) ==> r.attrs.taxApplicability == Stored(body.taxApplicability)
    ensures Supplied(body.tax) ==> r.attrs.tax == Stored(body.tax)
  {
    s.(
      name := DefinedOr(body.name, s.name),
      attrs := s.attrs.(
        image := DefinedOr(body.image, s.attrs.image),
        description := DefinedOr(body.description, s.attrs.description),
        taxApplicability := DefinedOr(body.taxApplicability, s.attrs.taxApplicability),
        tax := DefinedOr(body.tax, s.attrs.tax)))
  }

  /** The `updates` object of `updateSubcategory`, built one supplied field at a
      time on top of the stored row. */
  method BuildSubcategoryUpdate(existing: Subcategory, body: SubcategoryBody) returns (row: Subcategory)
    ensures row == PatchSubcategory(existing, body)
  {
    row := existing;
    if Supplied(body.name) { row := row.(name := Stored(body.name)); }
    if Supplied(body.image) { row := row.(attrs := row.attrs.(image := Stored(body.image))); }
    if Supplied(body.description) { row := row.(attrs := row.attrs.(description := Stored(body.description))); }
    if Supplied(body.taxApplicability) {
      row := row.(attrs := row.attrs.(taxApplicability := Stored(body.taxApplicability)));
    }
    if Supplied(body.tax) { row := row.(attrs := row.attrs.(tax := Stored(body.tax))); }
  }

  /** `updateSubcategory`: the store's `.single()` fails when no row has that
      id, and nothing changes; otherwise only that row is rewritten. */
  method UpdateSubcategory(db: Database, id: string, body: SubcategoryBody) returns (resp: Response<Subcategory>)
    requires db.Valid()
    modifies db
    ensures db.Valid()
    ensures db.categories == old(db.categories) && db.items == old(db.items) && db.clock == old(db.clock)
    ensures id !in Ids(old(db.subcategories)) ==> resp == StoreError && db.subcategories == old(db.subcategories)
    ensures forall i :: 0 <= i < |old(db.subcategories)| && old(db.subcategories)[i].id == id ==>
      && resp == Ok(PatchSubcategory(old(db.subcategories)[i], body))
      && db.subcategories == old(db.subcategories)[i := resp.data]
  {
    var found := FindId(db.subcategories, id);
    if found.None? {
      return StoreError;
    }
    var i := found.value;
    var row := BuildSubcategoryUpdate(db.subcategories[i], body);
    db.ReplaceSubcategory(i, row);
    resp := Ok(row);
  }

  /** An update never moves a subcategory to another category, even when
      the body names one, and keeps its id and creation time. */
  lemma PatchSubcategoryKeepsParent(s: Subcategory, body: SubcategoryBody)
    ensures PatchSubcategory(s, body).attrs.categoryId == s.attrs.categoryId
    ensures PatchSubcategory(s, body).id == s.id && PatchSubcategory(s, body).createdAt == s.createdAt
    ensures !Supplied(body.name) ==> PatchSubcategory(s, body).name == s.name
    ensures !Supplied(body.image) ==> PatchSubcategory(s, body).attrs.image == s.attrs.image
    ensures !Supplied(body.description) ==> PatchSubcategory(s, body).attrs.description == s.attrs.description
    ensures !Supplied(body.tax) ==> PatchSubcategory(s, body).attrs.tax == s.attrs.tax
    ensures !Supplied(body.taxApplicability) ==> PatchSubcategory(s, body).attrs.taxApplicability == s.attrs.taxApplicability
  {
  }

  /** Sending the same update twice leaves the row the first one left. */
  lemma PatchSubcategoryIdempotent(s: Subcategory, body: SubcategoryBody)
    ensures PatchSubcategory(PatchSubcategory(s, body), body) == PatchSubcategory(s, body)
  {
  }
}
