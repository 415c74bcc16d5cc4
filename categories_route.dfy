/** `/api/categories`: creating a category (POST) and the category list with the number of
    menu items in each (GET). */
module CategoriesRoute {
  import opened Common
  import opened Types
  import opened Db
  import opened Http
  import opened Seqs
  import opened Groups

  // ---------------------------------------------------------------------------
  // POST /api/categories

  /** The JSON body; an absent field is `None`. */
  datatype CategoryRequest = CategoryRequest(name: Option<string>, description: Option<string>)

  const CategoryNameRequired := "Category name is required"

  /** The answer of POST and the database after it. */
  datatype CategoryCreation = CategoryCreation(response: Response<Category>, after: DbState)

  /** POST /api/categories: a missing or empty name is refused; otherwise the row is inserted
      with `description || null` and answered with 201. Categories reference nothing, so the
      insert cannot be refused by a foreign key. */
  function AddCategory(s: DbState, req: CategoryRequest): (r: CategoryCreation)
    ensures r.response.Created? <==> TruthyString(req.name)
    ensures r.response.BadRequest? <==> !TruthyString(req.name)
    ensures r.response.BadRequest? ==> r.response.error == CategoryNameRequired && r.after == s
    ensures r.response.Created? ==>
      && r.response.data == Category(s.next.category, req.name.value, OrNull(req.description), s.clock)
      && r.after.tables == s.tables.(categories := s.tables.categories + [r.response.data])
      && r.after.next == s.next.(category := s.next.category + 1)
    ensures WellFormed(s) ==> WellFormed(r.after)
  {
    if !TruthyString(req.name) then
      CategoryCreation(BadRequest(CategoryNameRequired), s)
    else
      var ins := AppendCategory(s, req.name.value, OrNull(req.description));
      CategoryCreation(Created(ins.row.value), ins.after)
  }

  /** The handler: the name check, then the insert. */
  method CreateCategory(db: Database, req: CategoryRequest) returns (resp: Response<Category>)
    modifies db
    ensures CategoryCreation(resp, db.State()) == AddCategory(old(db.State()), req)
    ensures db.savepoint == old(db.savepoint)
    ensures old(db.Valid()) ==> db.Valid()
  {
    if !TruthyString(req.name) {
      return BadRequest(CategoryNameRequired);
    }
    var row := db.InsertCategory(req.name.value, OrNull(req.description));
    resp := Created(row);
  }

  // ---------------------------------------------------------------------------
  // GET /api/categories

  /** One answer row: the category's columns and `COUNT(mi.menu_item_id)`. */
  datatype CategoryRow = CategoryRow(category: Category, itemCount: nat)

  /** The menu items of one category, in table order (its LEFT JOIN partners). */
  function ItemsOf(ms: seq<MenuItem>, categoryId: int): (r: seq<MenuItem>)
    ensures forall m :: m in r <==> m in ms && m.categoryId == categoryId
    ensures |r| <= |ms|
  {
    Select(ms, CategoryOf, categoryId)
  }

  function CategoryOf(m: MenuItem): int { m.categoryId }

  /** `LEFT JOIN ... GROUP BY c.category_id` in table order: every category once, with the
      number of its items (zero when it has none). */
  function JoinCategories(cs: seq<Category>, ms: seq<MenuItem>): (r: seq<CategoryRow>)
    ensures |r| == |cs|
    ensures forall k :: 0 <= k < |cs| ==> r[k] == CategoryRow(cs[k], |ItemsOf(ms, cs[k].categoryId)|)
  {
    if cs == [] then []
    else [CategoryRow(cs[0], |ItemsOf(ms, cs[0].categoryId)|)] + JoinCategories(cs[1..], ms)
  }

  /** `ORDER BY c.name`, by code point. */
  predicate ByName(a: CategoryRow, b: CategoryRow)
  {
    StrLe(a.category.name, b.category.name)
  }

  lemma ByNameOrders()
    ensures Total(ByName) && Transitive(ByName)
  {
    forall a, b ensures ByName(a, b) || ByName(b, a) {
      StrLeTotal(a.category.name, b.category.name);
    }
    forall a, b, c | ByName(a, b) && ByName(b, c) ensures ByName(a, c) {
      StrLeTrans(a.category.name, b.category.name, c.category.name);
    }
  }

  /** GET /api/categories: the grouped rows, by name. */
  function ListCategories(t: Tables): (r: seq<CategoryRow>)
    ensures multiset(r) == multiset(JoinCategories(t.categories, t.menuItems))
    ensures SortedBy(r, ByName)
  {
    ByNameOrders();
    SortBySorted(JoinCategories(t.categories, t.menuItems), ByName);
    SortBy(JoinCategories(t.categories, t.menuItems), ByName)
  }

  /** GET /api/categories answers every category exactly as often as the table holds it, each
      with the number of menu items that reference it, in name order. */
  lemma ListCategoriesRows(t: Tables)
    ensures var r := ListCategories(t);
      && |r| == |t.categories|
      && (forall x :: x in r ==> x.category in t.categories && x.itemCount == |ItemsOf(t.menuItems, x.category.categoryId)|)
      && (forall c :: c in t.categories ==> CategoryRow(c, |ItemsOf(t.menuItems, c.categoryId)|) in r)
      && (forall i, j :: 0 <= i < j < |r| ==> StrLe(r[i].category.name, r[j].category.name))
  {
    var r := ListCategories(t);
    var joined := JoinCategories(t.categories, t.menuItems);
    assert |r| == |multiset(r)| == |multiset(joined)| == |joined|;
    forall x | x in r ensures x in joined {
      assert x in multiset(r);
    }
    forall c | c in t.categories ensures CategoryRow(c, |ItemsOf(t.menuItems, c.categoryId)|) in r {
      var k :| 0 <= k < |t.categories| && t.categories[k] == c;
      assert joined[k] in multiset(joined);
    }
  }

  /** A category that was just created is listed with no items: no menu item can already
      reference the id its SERIAL handed out. */
  lemma NewCategoryIsEmpty(s: DbState, req: CategoryRequest)
    requires WellFormed(s)
    requires AddCategory(s, req).response.Created?
    ensures var r := AddCategory(s, req);
      CategoryRow(r.response.data, 0) in ListCategories(r.after.tables)
  {
    var r := AddCategory(s, req);
    var c := r.response.data;
    var ms := r.after.tables.menuItems;
    assert ms == s.tables.menuItems;
    forall m | m in ms ensures m.categoryId != c.categoryId {
      var d :| d in s.tables.categories && d.categoryId == m.categoryId;
      assert d.categoryId < s.next.category;
    }
    SelectNone(ms, CategoryOf, c.categoryId);
    assert c in r.after.tables.categories;
    ListCategoriesRows(r.after.tables);
  }

  // ---------------------------------------------------------------------------
  // The item counts add up

  function ItemCount(x: CategoryRow): int
  {
    x.itemCount
  }

  /** The menu items whose category is one of `cs`, in table order. */
  function ItemsOfAny(ms: seq<MenuItem>, cs: seq<Category>): seq<MenuItem>
  {
    if ms == [] then []
    else (if HasCategory(cs, ms[0].categoryId) then [ms[0]] else []) + ItemsOfAny(ms[1..], cs)
  }

  /** With well-formed tables the item counts of GET /api/categories add up to the number of
      menu items: every item references exactly one listed category. */
  lemma ItemCountsAddUp(s: DbState)
    requires WellFormed(s)
    ensures SumBy(ListCategories(s.tables), ItemCount) == |s.tables.menuItems|
  {
    var t := s.tables;
    forall i, j | 0 <= i < j < |t.categories| ensures t.categories[i].categoryId != t.categories[j].categoryId {
    }
    CountsAddUp(t.categories, t.menuItems);
    ItemsOfAllCategories(t.menuItems, t.categories);
    ByNameOrders();
    SumBySort(JoinCategories(t.categories, t.menuItems), ByName, ItemCount);
  }

  /** The counts of the table-order join add up to the items that reference one of the
      categories, when category ids are distinct. */
  lemma {:induction false} CountsAddUp(cs: seq<Category>, ms: seq<MenuItem>)
    requires forall i, j :: 0 <= i < j < |cs| ==> cs[i].categoryId != cs[j].categoryId
    ensures SumBy(JoinCategories(cs, ms), ItemCount) == |ItemsOfAny(ms, cs)|
  {
    if cs != [] {
      var c, rest := cs[0], cs[1..];
      assert cs == [c] + rest;
      forall i, j | 0 <= i < j < |rest| ensures rest[i].categoryId != rest[j].categoryId {
        assert rest[i] == cs[i + 1] && rest[j] == cs[j + 1];
      }
      forall d | d in rest ensures d.categoryId != c.categoryId {
        var k :| 0 <= k < |rest| && rest[k] == d;
        assert cs[k + 1] == d;
      }
      CountsAddUp(rest, ms);
      ItemsOfAnySplit(ms, c, rest);
      assert JoinCategories(cs, ms)[1..] == JoinCategories(rest, ms);
    } else {
      NoCategoryNoItems(ms);
    }
  }

  lemma {:induction false} NoCategoryNoItems(ms: seq<MenuItem>)
    ensures ItemsOfAny(ms, []) == []
  {
    if ms != [] {
      NoCategoryNoItems(ms[1..]);
    }
  }

  /** Items of `c` and items of the rest are counted apart when `c`'s id is not among the
      rest's ids. */
  lemma {:induction false} ItemsOfAnySplit(ms: seq<MenuItem>, c: Category, rest: seq<Category>)
    requires forall d :: d in rest ==> d.categoryId != c.categoryId
    ensures |ItemsOfAny(ms, [c] + rest)| == |ItemsOf(ms, c.categoryId)| + |ItemsOfAny(ms, rest)|
  {
    if ms != [] {
      ItemsOfAnySplit(ms[1..], c, rest);
      var m := ms[0];
      if m.categoryId == c.categoryId {
        assert c in [c] + rest;
      } else if HasCategory([c] + rest, m.categoryId) {
        var d :| d in [c] + rest && d.categoryId == m.categoryId;
        assert d in rest;
      }
    }
  }

  /** When every item references one of `cs`, no item is left out. */
  lemma {:induction false} ItemsOfAllCategories(ms: seq<MenuItem>, cs: seq<Category>)
    requires forall m :: m in ms ==> HasCategory(cs, m.categoryId)
    ensures ItemsOfAny(ms, cs) == ms
  {
    if ms != [] {
      assert ms[0] in ms;
      ItemsOfAllCategories(ms[1..], cs);
      assert ms == [ms[0]] + ms[1..];
    }
  }
}
