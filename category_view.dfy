/** The category views (store/views/category.py): list every category,
    create one, and update or delete a category the requesting user owns.
    Deleting a category deletes its products, and with them their order
    items. */
module CategoryView {
  import opened Common
  import opened Models
  import opened CategorySerializer
  import opened Exceptions

  /** The serialized category: fields id, name and description. */
  datatype CategoryData = CategoryData(id: CategoryId, name: string, description: string)

  /** The `data` member of the envelope. */
  datatype CategoryBody =
    | Listed(categories: seq<CategoryData>)
    | One(category: CategoryData)
    | Problems(errors: map<string, string>)
    | NoBody

  const UpdateNotFound: string := "Category not found or you do not have permission to update it"
  const DeleteNotFound: string := "Category not found or you do not have permission to delete it"

  function Serialize(c: Category): (d: CategoryData)
    ensures d.id == c.id && d.name == c.name && d.description == c.description
  {
    CategoryData(c.id, c.name, c.description)
  }

  /** The position of the category with primary key `id`, if there is one. */
  function IndexOf(categories: seq<Category>, id: CategoryId): (r: Option<nat>)
    ensures r.Some? ==> r.value < |categories| && categories[r.value].id == id
    ensures r.None? <==> !HasCategory(categories, id)
  {
    if categories == [] then None
    else if categories[|categories| - 1].id == id then Some(|categories| - 1)
    else
      IndexOf(categories[..|categories| - 1], id)
  }

  /** With distinct ids, the category with a given id sits at one place. */
  lemma {:induction false} IndexOfUnique(categories: seq<Category>, id: CategoryId, i: nat)
    requires UniqueCategoryIds(categories)
    requires i < |categories| && categories[i].id == id
    ensures IndexOf(categories, id) == Some(i)
  {
    var n := |categories| - 1;
    if i < n {
      IndexOfUnique(categories[..n], id, i);
    }
  }

  /** Category.objects.get(id=id, created_by=user): the position of the
      category when it exists and the user owns it. */
  function OwnedIndex(categories: seq<Category>, id: CategoryId, user: UserId): (r: Option<nat>)
    ensures r.Some? ==> r.value < |categories| && categories[r.value].id == id && categories[r.value].createdBy == user
    ensures r.None? && UniqueCategoryIds(categories) ==>
              forall i :: 0 <= i < |categories| && categories[i].id == id ==> categories[i].createdBy != user
  {
    match IndexOf(categories, id)
    case None => None
    case Some(i) =>
      if categories[i].createdBy == user then Some(i)
      else
        assert UniqueCategoryIds(categories) ==>
          forall j :: 0 <= j < |categories| && categories[j].id == id ==> j == i by {
          if UniqueCategoryIds(categories) {
            forall j | 0 <= j < |categories| && categories[j].id == id ensures j == i {
              IndexOfUnique(categories, id, j);
            }
          }
        }
        None
  }

  // ---------------------------------------------------------------------------
  // GET /categories/

  /** CategoryListView.list: every category, in creation order. */
  function ListCategories(categories: seq<Category>): (r: Envelope<CategoryBody>)
    ensures r.data.Some? && r == Envelope(200, 200, "Categories retrieved successfully", r.data, true)
    ensures r.data.value.Listed? && |r.data.value.categories| == |categories|
    ensures forall i :: 0 <= i < |categories| ==> r.data.value.categories[i] == Serialize(categories[i])
  {
    Envelope(200, 200, "Categories retrieved successfully",
             Some(Listed(seq(|categories|, i requires 0 <= i < |categories| => Serialize(categories[i])))), true)
  }

  /** Listed names are distinct, since the name column is unique. */
  lemma ListedNamesDistinct(categories: seq<Category>, nextCategoryId: int, users: map<UserId, User>)
    requires CategoriesOk(categories, nextCategoryId, users)
    ensures var rows := ListCategories(categories).data.value.categories;
            forall i, j :: 0 <= i < j < |rows| ==> rows[i].name != rows[j].name && rows[i].id != rows[j].id
  {
  }

  // ---------------------------------------------------------------------------
  // POST /categories/create/

  /** The row `serializer.save()` inserts: the description defaults to "",
      and the owner is not taken from the request but from the column
      default. */
  function NewCategory(id: CategoryId, input: CategoryInput): (c: Category)
    requires input.name.Some?
    ensures c.id == id && c.name == input.name.value && c.createdBy == DefaultCategoryOwner
    ensures c.description == input.description.GetOr("")
  {
    Category(id, input.name.value, input.description.GetOr(""), DefaultCategoryOwner)
  }

  /** CategoryCreateView.post. The row is inserted with owner 1; when no
      user 1 exists the database refuses the foreign key, nothing is kept,
      and the IntegrityError, which the view does not catch, reaches the
      exception handler as a 500. */
  method CreateCategory(db: Store, input: CategoryInput) returns (r: Envelope<CategoryBody>)
    requires db.CategoriesValid()
    modifies db`categories, db`nextCategoryId
    ensures db.CategoriesValid()
    ensures r.code == r.status && r.success == (r.status == 201)
    ensures ValidateCategory(old(db.categories), input, false).Err? ==>
              && r == Envelope(400, 400, "Category creation failed",
                               Some(Problems(ValidateCategory(old(db.categories), input, false).error)), false)
              && db.categories == old(db.categories) && db.nextCategoryId == old(db.nextCategoryId)
    ensures ValidateCategory(old(db.categories), input, false).Ok? && DefaultCategoryOwner !in db.users ==>
              && r == Envelope(500, 500, UnexpectedMessage, Some(NoBody), false)
              && db.categories == old(db.categories) && db.nextCategoryId == old(db.nextCategoryId)
    ensures ValidateCategory(old(db.categories), input, false).Ok? && DefaultCategoryOwner in db.users ==>
              && input.name.Some?
              && r == Envelope(201, 201, "Category created successfully", Some(NoBody), true)
              && db.categories == old(db.categories) + [NewCategory(old(db.nextCategoryId), input)]
              && db.nextCategoryId == old(db.nextCategoryId) + 1
  {
    var v := ValidateCategory(db.categories, input, false);
    if v.Err? {
      return Envelope(400, 400, "Category creation failed", Some(Problems(v.error)), false);
    }
    if DefaultCategoryOwner !in db.users {
      var e := HandleException(Unhandled);
      return Envelope(e.status, e.code, e.message, Some(NoBody), e.success);
    }
    AcceptedNameIsFree(db.categories, input, false);
    var c := NewCategory(db.nextCategoryId, input);
    db.categories := db.categories + [c];
    db.nextCategoryId := db.nextCategoryId + 1;
    return Envelope(201, 201, "Category created successfully", Some(NoBody), true);
  }

  /** Creating the same category twice: the second request is refused
      under "name", whatever its description. */
  lemma {:induction false} SecondCreateRejected(categories: seq<Category>, id: CategoryId, input: CategoryInput, again: CategoryInput)
    requires ValidateCategory(categories, input, false).Ok?
    requires again.name == input.name
    ensures ValidateCategory(categories + [NewCategory(id, input)], again, false) == Err(map["name" := NameTakenMessage])
  {
    AcceptedNameIsFree(categories, input, false);
    var after := categories + [NewCategory(id, input)];
    assert after[|categories|].name == input.name.value;
    assert HasCategoryNamed(after, input.name.value);
  }

  // ---------------------------------------------------------------------------
  // PUT /categories/<id>/update/

  /** serializer.save() on a partial update: the supplied fields replace
      the stored ones; the id and the owner never change. */
  function Apply(c: Category, input: CategoryInput): (u: Category)
    ensures u.id == c.id && u.createdBy == c.createdBy
    ensures input.name.None? ==> u.name == c.name
    ensures input.name.Some? ==> u.name == input.name.value
    ensures input.description.None? ==> u.description == c.description
    ensures input.description.Some? ==> u.description == input.description.value
  {
    c.(name := input.name.GetOr(c.name), description := input.description.GetOr(c.description))
  }

  /** CategoryUpdateView.put for the authenticated `user`. */
  method UpdateCategory(db: Store, user: UserId, id: CategoryId, input: CategoryInput) returns (r: Envelope<CategoryBody>)
    requires db.CategoriesValid()
    modifies db`categories
    ensures db.CategoriesValid()
    ensures r.code == r.status && r.success == (r.status == 200)
    ensures OwnedIndex(old(db.categories), id, user).None? ==>
              r == Envelope(404, 404, UpdateNotFound, Some(NoBody), false) && db.categories == old(db.categories)
    ensures OwnedIndex(old(db.categories), id, user).Some? ==>
              var k := OwnedIndex(old(db.categories), id, user).value;
              var v := ValidateCategory(old(db.categories), input, true);
              && (v.Err? ==> r == Envelope(400, 400, "Invalid data", Some(Problems(v.error)), false)
                             && db.categories == old(db.categories))
              && (v.Ok? ==> && db.categories == old(db.categories)[k := Apply(old(db.categories)[k], input)]
                            && r == Envelope(200, 200, "Category updated successfully",
                                             Some(One(Serialize(db.categories[k]))), true))
  {
    var found := OwnedIndex(db.categories, id, user);
    if found.None? {
      return Envelope(404, 404, UpdateNotFound, Some(NoBody), false);
    }
    var k := found.value;
    var v := ValidateCategory(db.categories, input, true);
    if v.Err? {
      return Envelope(400, 400, "Invalid data", Some(Problems(v.error)), false);
    }
    AcceptedNameIsFree(db.categories, input, true);
    var updated := Apply(db.categories[k], input);
    db.categories := db.categories[k := updated];
    return Envelope(200, 200, "Category updated successfully", Some(One(Serialize(updated))), true);
  }

  /** Renaming a category to a name no category holds succeeds for its
      owner, and the listing then shows the new name at the same place. */
  lemma RenameShowsInListing(categories: seq<Category>, k: nat, name: string)
    requires k < |categories|
    requires name != "" && |name| <= 255 && !HasCategoryNamed(categories, name)
    ensures ValidateCategory(categories, CategoryInput(Some(name), None), true).Ok?
    ensures var after := categories[k := Apply(categories[k], CategoryInput(Some(name), None))];
            ListCategories(after).data.value.categories[k] == CategoryData(categories[k].id, name, categories[k].description)
  {
  }

  // ---------------------------------------------------------------------------
  // DELETE /categories/<id>/delete/

  /** The categories left after removing the one at `k`, in order. */
  function RemoveAt(categories: seq<Category>, k: nat): (r: seq<Category>)
    requires k < |categories|
    ensures |r| == |categories| - 1
    ensures forall j :: 0 <= j < k ==> r[j] == categories[j]
    ensures forall j :: k <= j < |r| ==> r[j] == categories[j + 1]
  {
    categories[..k] + categories[k + 1..]
  }

  /** Removing a category keeps the remaining ones valid, and every other
      category is still there. */
  lemma RemoveAtKeepsOthers(categories: seq<Category>, nextCategoryId: int, users: map<UserId, User>, k: nat)
    requires k < |categories| && CategoriesOk(categories, nextCategoryId, users)
    ensures CategoriesOk(RemoveAt(categories, k), nextCategoryId, users)
    ensures forall c :: HasCategory(categories, c) && c != categories[k].id ==> HasCategory(RemoveAt(categories, k), c)
    ensures !HasCategory(RemoveAt(categories, k), categories[k].id)
  {
    var r := RemoveAt(categories, k);
    forall c | HasCategory(categories, c) && c != categories[k].id
      ensures HasCategory(r, c)
    {
      var i :| 0 <= i < |categories| && categories[i].id == c;
      if i < k { assert r[i].id == c; } else { assert r[i - 1].id == c; }
    }
    forall i, j | 0 <= i < j < |r|
      ensures r[i].id != r[j].id && r[i].name != r[j].name
    {
      var i' := if i < k then i else i + 1;
      var j' := if j < k then j else j + 1;
      assert r[i] == categories[i'] && r[j] == categories[j'] && i' < j';
    }
    forall i | 0 <= i < |r|
      ensures r[i].id != categories[k].id
    {
      if i < k { assert r[i] == categories[i]; } else { assert r[i] == categories[i + 1]; }
    }
  }

  /** The products deleted along with category `id`. */
  function ProductsIn(products: map<ProductId, Product>, id: CategoryId): (r: set<ProductId>)
    ensures forall p :: p in r <==> p in products && products[p].category == id
  {
    set p | p in products && products[p].category == id
  }

  /** CategoryDeleteView.delete for the authenticated `user`: the category,
      its products and their order items go. */
  method DeleteCategory(db: Store, user: UserId, id: CategoryId) returns (r: Envelope<CategoryBody>)
    requires db.CategoriesValid() && db.ProductsValid() && db.OrdersValid()
    modifies db`categories, db`products, db`orderItems
    ensures db.CategoriesValid() && db.ProductsValid() && db.OrdersValid()
    ensures r.code == r.status && r.success == (r.status == 200) && r.data == Some(NoBody)
    ensures OwnedIndex(old(db.categories), id, user).None? ==>
              && r.status == 404 && r.message == DeleteNotFound
              && db.categories == old(db.categories) && db.products == old(db.products)
              && db.orderItems == old(db.orderItems)
    ensures OwnedIndex(old(db.categories), id, user).Some? ==>
              && r.status == 200 && r.message == "Category deleted successfully"
              && db.categories == RemoveAt(old(db.categories), OwnedIndex(old(db.categories), id, user).value)
              && !HasCategory(db.categories, id)
              && db.products == ProductsOutside(old(db.products), id)
              && db.orderItems == ItemsWithout(old(db.orderItems), ProductsIn(old(db.products), id))
  {
    var found := OwnedIndex(db.categories, id, user);
    if found.None? {
      return Envelope(404, 404, DeleteNotFound, Some(NoBody), false);
    }
    var k := found.value;
    RemoveAtKeepsOthers(db.categories, db.nextCategoryId, db.users, k);
    var gone := ProductsIn(db.products, id);
    var remaining := ItemsWithout(db.orderItems, gone);
    forall i | 0 <= i < |remaining|
      ensures remaining[i] in db.orderItems && remaining[i].product !in gone
    {
      ItemsWithoutMembers(db.orderItems, gone, remaining[i]);
    }
    db.categories := RemoveAt(db.categories, k);
    db.products := ProductsOutside(db.products, id);
    db.orderItems := remaining;
    return Envelope(200, 200, "Category deleted successfully", Some(NoBody), true);
  }
}
