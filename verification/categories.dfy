/**
 * The category controller: creation with a unique slug and a default sort
 * order, the dynamic UPDATE with its slug-conflict check, the soft delete
 * guarded by the count of active products, and the listing of the active
 * categories with their active-product counts, ordered by sort order and name.
 */
module Categories {
  import opened Wrappers
  import opened Json
  import opened Slugs
  import opened SqlUpdate

  type CategoryId = nat
  type ProductId = nat

  /** A row of the categories table. Description, parent and image are stored
      as given and play no part in any rule, so they are not kept. */
  datatype Category = Category(id: CategoryId, name: string, slug: string, sortOrder: int, active: bool)

  /** What the category queries read of a product row. */
  datatype ProductRef = ProductRef(category: Option<CategoryId>, active: bool)

  datatype CategoryError =
    | ValidationFailed   // 400 "Validation failed"
    | SlugTaken          // 409 "Category with this slug already exists"
    | NoFieldsToUpdate   // 400 "No fields to update"
    | HasProducts        // 400 "Cannot delete category that contains products"
    | CategoryNotFound   // 404 "Category not found"

  // ---------------------------------------------------------------------------
  // The categories table

  /** Ids are positions: rows are never removed, so row i has id i + 1. */
  predicate IdsInOrder(rows: seq<Category>)
  {
    forall i :: 0 <= i < |rows| ==> rows[i].id == i + 1
  }

  /** The UNIQUE constraint on slug. */
  predicate SlugsUnique(rows: seq<Category>)
  {
    forall i, j :: 0 <= i < j < |rows| ==> rows[i].slug != rows[j].slug
  }

  /** `SELECT id FROM categories WHERE slug = $1` finds a row, active or not. */
  predicate SlugInUse(rows: seq<Category>, slug: string)
  {
    exists i :: 0 <= i < |rows| && rows[i].slug == slug
  }

  /** `SELECT id FROM categories WHERE slug = $1 AND id != $2` finds a row. */
  predicate SlugHeldByOther(rows: seq<Category>, slug: string, id: CategoryId)
  {
    exists i :: 0 <= i < |rows| && rows[i].slug == slug && rows[i].id != id
  }

  /** `WHERE id = $n AND is_active = true` matches a row. */
  predicate IsActive(rows: seq<Category>, id: CategoryId)
  {
    exists i :: 0 <= i < |rows| && rows[i].id == id && rows[i].active
  }

  /** With ids in order, the row of id `id` is at position id - 1. */
  lemma ActiveAt(rows: seq<Category>, id: CategoryId)
    requires IdsInOrder(rows)
    ensures IsActive(rows, id) <==> 1 <= id <= |rows| && rows[id - 1].active
  {
    if IsActive(rows, id) {
      var i :| 0 <= i < |rows| && rows[i].id == id && rows[i].active;
      assert i == id - 1;
    }
  }

  /** The route's rules for a new category: name and slug of 2 to 100
      characters, a slug of [a-z0-9-] only, a description of at most 1000. */
  predicate ValidInput(name: string, slug: string, description: Option<string>)
  {
    && 2 <= |name| <= 100
    && 2 <= |slug| <= 100
    && (forall i :: 0 <= i < |slug| ==> SlugChar(slug[i]))
    && (description.None? || |description.value| <= 1000)
  }

  // ---------------------------------------------------------------------------
  // Active products per category

  /** `SELECT COUNT(*) FROM products WHERE category_id = $1 AND is_active = true` */
  function ActiveProductCount(products: map<ProductId, ProductRef>, id: CategoryId): nat
  {
    |ActiveProducts(products, id)|
  }

  /** The count is positive exactly when some active product is in the category. */
  lemma {:induction false} CountPositive(products: map<ProductId, ProductRef>, id: CategoryId)
    ensures ActiveProductCount(products, id) > 0 <==>
            exists p :: p in products && products[p].category == Some(id) && products[p].active
  {
    var s := ActiveProducts(products, id);
    if p :| p in products && products[p].category == Some(id) && products[p].active {
      assert p in s;
    } else {
      assert s == {};
    }
  }

  /** The products an ActiveProductCount counts. */
  function ActiveProducts(products: map<ProductId, ProductRef>, id: CategoryId): set<ProductId>
  {
    set p | p in products && products[p].category == Some(id) && products[p].active
  }

  /** Soft-deleting an active product of the category lowers its count by one, so
      deleting its last active product lets the category be deleted. */
  lemma {:induction false} DeactivateLowersCount(products: map<ProductId, ProductRef>, id: CategoryId, p: ProductId)
    requires p in products && products[p].category == Some(id) && products[p].active
    ensures ActiveProductCount(products[p := products[p].(active := false)], id) + 1
            == ActiveProductCount(products, id)
  {
    var after := products[p := products[p].(active := false)];
    var s, s' := ActiveProducts(products, id), ActiveProducts(after, id);
    assert s == s' + {p};
    assert p !in s';
    assert |s| == |s'| + 1;
  }

  /** Writing an inactive product over an inactive or missing one never changes
      a count, whatever the categories involved. */
  lemma {:induction false} InactiveNotCounted(products: map<ProductId, ProductRef>, id: CategoryId,
                                              p: ProductId, r: ProductRef)
    requires !r.active
    requires p !in products || !products[p].active
    ensures ActiveProductCount(products[p := r], id) == ActiveProductCount(products, id)
  {
    assert ActiveProducts(products[p := r], id) == ActiveProducts(products, id);
  }

  // ---------------------------------------------------------------------------
  // updateCategory's slug check

  /** A truthy string slug in the patch that a different category holds. A falsy
      slug ("" or null or 0) skips the check altogether. */
  predicate SlugConflict(rows: seq<Category>, fields: seq<Field>, id: CategoryId)
  {
    match Get(fields, "slug")
    case Some(Some(v)) => Truthy(v) && v.JString? && SlugHeldByOther(rows, v.s, id)
    case _ => false
  }

  /** Sending a category its own slug again is never a conflict. */
  lemma OwnSlugNoConflict(rows: seq<Category>, id: CategoryId, fields: seq<Field>)
    requires IdsInOrder(rows) && SlugsUnique(rows) && 1 <= id <= |rows|
    requires Get(fields, "slug") == Some(Some(JString(rows[id - 1].slug)))
    ensures !SlugConflict(rows, fields, id)
  {
  }

  /** A slug that only some other category holds is a conflict, even when the
      category being updated does not exist: the 409 comes before the 404. */
  lemma ConflictForMissingCategory(rows: seq<Category>, id: CategoryId, fields: seq<Field>, s: string)
    requires IdsInOrder(rows) && !(1 <= id <= |rows|)
    requires s != [] && SlugInUse(rows, s)
    requires Get(fields, "slug") == Some(Some(JString(s)))
    ensures SlugConflict(rows, fields, id)
  {
    var i :| 0 <= i < |rows| && rows[i].slug == s;
    assert rows[i].id != id;
  }

  // ---------------------------------------------------------------------------
  // getAllCategories

  /** Code-point order on names, a prefix first. */
  predicate NameLeq(a: string, b: string)
  {
    a == [] || (b != [] && (a[0] < b[0] || (a[0] == b[0] && NameLeq(a[1..], b[1..]))))
  }

  lemma {:induction false} NameLeqTotal(a: string, b: string)
    ensures NameLeq(a, b) || NameLeq(b, a)
  {
    if a != [] && b != [] && a[0] == b[0] {
      NameLeqTotal(a[1..], b[1..]);
    }
  }

  lemma {:induction false} NameLeqTransitive(a: string, b: string, c: string)
    requires NameLeq(a, b) && NameLeq(b, c)
    ensures NameLeq(a, c)
  {
    if a != [] && b != [] && c != [] && a[0] == b[0] && b[0] == c[0] {
      NameLeqTransitive(a[1..], b[1..], c[1..]);
    }
  }

  /** `ORDER BY c.sort_order ASC, c.name ASC` */
  predicate Before(a: Category, b: Category)
  {
    a.sortOrder < b.sortOrder || (a.sortOrder == b.sortOrder && NameLeq(a.name, b.name))
  }

  lemma BeforeTotal(a: Category, b: Category)
    ensures Before(a, b) || Before(b, a)
  {
    NameLeqTotal(a.name, b.name);
  }

  lemma BeforeTransitive(a: Category, b: Category, c: Category)
    requires Before(a, b) && Before(b, c)
    ensures Before(a, c)
  {
    if a.sortOrder == b.sortOrder == c.sortOrder {
      NameLeqTransitive(a.name, b.name, c.name);
    }
  }

  predicate Sorted(s: seq<Category>)
  {
    forall i, j :: 0 <= i < j < |s| ==> Before(s[i], s[j])
  }

  /** The active categories, in table order. */
  function ActiveRows(rows: seq<Category>): (r: seq<Category>)
    ensures forall c :: c in r <==> c in rows && c.active
  {
    if rows == [] then []
    else ActiveRows(rows[..|rows| - 1]) + (if rows[|rows| - 1].active then [rows[|rows| - 1]] else [])
  }

  /** One category put into an ordered list, after the ones that come before it. */
  function Insert(c: Category, s: seq<Category>): (r: seq<Category>)
    ensures |r| == |s| + 1
    ensures multiset(r) == multiset(s) + multiset{c}
  {
    if s == [] || Before(c, s[0]) then [c] + s
    else
      assert s == [s[0]] + s[1..];
      [s[0]] + Insert(c, s[1..])
  }

  lemma {:induction false} InsertSorted(c: Category, s: seq<Category>)
    requires Sorted(s)
    ensures Sorted(Insert(c, s))
  {
    if s != [] && !Before(c, s[0]) {
      var rest := Insert(c, s[1..]);
      InsertSorted(c, s[1..]);
      BeforeTotal(c, s[0]);
      forall j | 0 <= j < |rest|
        ensures Before(s[0], rest[j])
      {
        assert rest[j] in multiset(rest);
        if rest[j] != c {
          var k :| 1 <= k < |s| && s[k] == rest[j];
        }
      }
    } else if s != [] {
      forall j | 1 <= j < |s|
        ensures Before(c, s[j])
      {
        BeforeTransitive(c, s[0], s[j]);
      }
    }
  }

  /** The categories in listing order. */
  function SortCategories(s: seq<Category>): (r: seq<Category>)
    ensures |r| == |s|
    ensures multiset(r) == multiset(s)
  {
    if s == [] then []
    else
      assert s == [s[0]] + s[1..];
      Insert(s[0], SortCategories(s[1..]))
  }

  lemma {:induction false} SortSorted(s: seq<Category>)
    ensures Sorted(SortCategories(s))
  {
    if s != [] {
      SortSorted(s[1..]);
      InsertSorted(s[0], SortCategories(s[1..]));
    }
  }

  datatype ListedCategory = ListedCategory(category: Category, productCount: nat)

  /** getAllCategories: the active categories in listing order, each with its
      count of active products. */
  function ListCategories(rows: seq<Category>, products: map<ProductId, ProductRef>): seq<ListedCategory>
  {
    var sorted := SortCategories(ActiveRows(rows));
    seq(|sorted|, i requires 0 <= i < |sorted| => ListedCategory(sorted[i], ActiveProductCount(products, sorted[i].id)))
  }

  /** Every active category is listed once with its count of active products,
      no inactive one is, and the listing is ordered by sort order and then name. */
  lemma ListingShape(rows: seq<Category>, products: map<ProductId, ProductRef>)
    ensures var listing := ListCategories(rows, products);
            && (forall c :: (exists i :: 0 <= i < |listing| && listing[i].category == c) <==> c in rows && c.active)
            && |listing| == |ActiveRows(rows)|
            && (forall i, j :: 0 <= i < j < |listing| ==> Before(listing[i].category, listing[j].category))
            && forall i :: 0 <= i < |listing| ==> listing[i].productCount == ActiveProductCount(products, listing[i].category.id)
  {
    SortSorted(ActiveRows(rows));
    ListedExactlyActive(rows, products);
  }

  lemma ListedExactlyActive(rows: seq<Category>, products: map<ProductId, ProductRef>)
    ensures var listing := ListCategories(rows, products);
            forall c :: (exists i :: 0 <= i < |listing| && listing[i].category == c) <==> c in rows && c.active
  {
    var active := ActiveRows(rows);
    var sorted := SortCategories(active);
    var listing := ListCategories(rows, products);
    assert |listing| == |sorted|;
    forall c
      ensures (exists i :: 0 <= i < |listing| && listing[i].category == c) <==> c in rows && c.active
    {
      if c in rows && c.active {
        assert c in multiset(sorted) by {
          assert c in active;
        }
        var i :| 0 <= i < |sorted| && sorted[i] == c;
        assert listing[i].category == c;
      }
      if exists i :: 0 <= i < |listing| && listing[i].category == c {
        var i :| 0 <= i < |listing| && listing[i].category == c;
        assert sorted[i] == c;
        assert c in multiset(active);
      }
    }
  }


  // ---------------------------------------------------------------------------
  // The handlers that write, over the table held by a CategoryTable

  class CategoryTable {
    var rows: seq<Category>

    ghost predicate Valid()
      reads this
    {
      IdsInOrder(rows) && SlugsUnique(rows)
    }

    constructor ()
      ensures Valid() && rows == []
    {
      rows := [];
    }

    /** createCategory: validation, then the slug check over every row, active or
        not, then the INSERT with `sortOrder || 0` and the next id. */
    method CreateCategory(name: string, slug: string, description: Option<string>, sortOrder: Option<int>)
      returns (r: Result<Category, CategoryError>)
      requires Valid()
      modifies this
      ensures Valid()
      ensures r == Err(ValidationFailed) <==> !ValidInput(name, slug, description)
      ensures r == Err(SlugTaken) <==> ValidInput(name, slug, description) && SlugInUse(old(rows), slug)
      ensures r.Ok? <==> ValidInput(name, slug, description) && !SlugInUse(old(rows), slug)
      ensures r.Ok? ==> r.value == Category(|old(rows)| + 1, name, slug, sortOrder.GetOr(0), true)
                        && rows == old(rows) + [r.value]
      ensures r.Err? ==> rows == old(rows)
    {
      if !ValidInput(name, slug, description) {
        return Err(ValidationFailed);
      }
      if SlugInUse(rows, slug) {
        return Err(SlugTaken);
      }
      var category := Category(|rows| + 1, name, slug, sortOrder.GetOr(0), true);
      rows := rows + [category];
      r := Ok(category);
    }

    /** updateCategory: the statement it sends, or the first failure. The slug
        check runs before the UPDATE, whose WHERE matches only an active row;
        its SET list is not applied here. */
    method UpdateCategory(id: CategoryId, body: seq<Field>) returns (r: Result<UpdateStatement, CategoryError>)
      ensures r == Err(NoFieldsToUpdate) <==> Defined(body) == []
      ensures r == Err(SlugTaken) <==> Defined(body) != [] && SlugConflict(rows, Defined(body), id)
      ensures r == Err(CategoryNotFound) <==>
                Defined(body) != [] && !SlugConflict(rows, Defined(body), id) && !IsActive(rows, id)
      ensures r.Ok? <==> Defined(body) != [] && !SlugConflict(rows, Defined(body), id) && IsActive(rows, id)
      ensures r.Ok? ==> Binds(r.value, Defined(body), id)
    {
      var updateData := DropUndefined(body);
      if updateData == [] {
        return Err(NoFieldsToUpdate);
      }
      if SlugConflict(rows, updateData, id) {
        return Err(SlugTaken);
      }
      var stmt := BuildUpdate(updateData, id);
      if !IsActive(rows, id) {
        return Err(CategoryNotFound);
      }
      r := Ok(stmt);
    }

    /** deleteCategory: the active-product guard first, then the soft delete of an
        active row. */
    method DeleteCategory(id: CategoryId, products: map<ProductId, ProductRef>) returns (r: Result<(), CategoryError>)
      requires Valid()
      modifies this
      ensures Valid()
      ensures r == Err(HasProducts) <==> ActiveProductCount(products, id) > 0
      ensures r == Err(CategoryNotFound) <==> ActiveProductCount(products, id) == 0 && !IsActive(old(rows), id)
      ensures r.Ok? <==> ActiveProductCount(products, id) == 0 && IsActive(old(rows), id)
      ensures r.Ok? ==> 1 <= id <= |old(rows)| && rows == old(rows)[id - 1 := old(rows)[id - 1].(active := false)]
      ensures r.Err? ==> rows == old(rows)
    {
      if ActiveProductCount(products, id) > 0 {
        return Err(HasProducts);
      }
      ActiveAt(rows, id);
      if !(1 <= id <= |rows| && rows[id - 1].active) {
        return Err(CategoryNotFound);
      }
      rows := rows[id - 1 := rows[id - 1].(active := false)];
      r := Ok(());
    }
  }

  /** Create two categories, refuse a duplicate slug, refuse to delete a category
      that holds an active product, delete it once its product is gone, and fail
      the second delete. */
  method CategoryScenario()
  {
    var table := new CategoryTable();
    var books := table.CreateCategory("Kitap", "kitap", None, None);
    assert books == Ok(Category(1, "Kitap", "kitap", 0, true));
    var sports := table.CreateCategory("Spor", "spor", None, Some(2));
    assert sports.Ok? && sports.value.sortOrder == 2;
    ghost var both := table.rows;
    assert both[0] == books.value;
    var again := table.CreateCategory("Kitaplar", "kitap", None, None);
    assert again == Err(SlugTaken) by {
      assert both[0].slug == "kitap";
    }
    var products := map[7 := ProductRef(Some(1), true)];
    var refused := table.DeleteCategory(1, products);
    assert refused == Err(HasProducts) by {
      CountPositive(products, 1);
      assert 7 in products;
    }
    products := products[7 := products[7].(active := false)];
    assert table.rows == both;
    var deleted := table.DeleteCategory(1, products);
    assert deleted.Ok? by {
      CountPositive(products, 1);
      assert both[0].id == 1 && both[0].active;
    }
    var second := table.DeleteCategory(1, products);
    assert second == Err(CategoryNotFound) by {
      ActiveAt(table.rows, 1);
    }
  }
}
