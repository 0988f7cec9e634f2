/** Properties that span several handlers of the menu API. */
module Menu {
  import opened Js
  import opened Store
  import Uuid
  import Categories
  import Subcategories

  /** Tax inheritance is a snapshot, not a link: a subcategory created
      without tax fields takes its category's values at that moment, and a
      later update of the category's tax leaves the subcategory as it was. */
  method TaxIsCopiedNotLinked(
    db: Database, category: Category, body: Subcategories.SubcategoryBody, newId: string,
    update: Categories.CategoryBody)
    returns (created: Subcategory)
    requires db.Valid() && Uuid.IsUuid(newId) && newId !in Ids(db.subcategories)
    requires category in db.categories
    requires Subcategories.HasRequired(body) && body.categoryId.value == category.id
    requires !Supplied(body.tax) && !Supplied(body.taxApplicability)
    modifies db
    ensures db.Valid()
    ensures created in db.subcategories && created.attrs.categoryId == category.id
    ensures created.attrs.tax == category.attrs.tax
    ensures created.attrs.taxApplicability == category.attrs.taxApplicability
    ensures Categories.PatchCategory(category, update) in db.categories
  {
    Subcategories.ParentIsTheNamedCategory(db.categories, db.clock, body);
    var made := Subcategories.CreateSubcategory(db, body, newId);
    created := made.data;
    var updated := Categories.UpdateCategory(db, category.id, update);
  }
}
