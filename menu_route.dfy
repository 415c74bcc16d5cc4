/** `/api/menu`: adding a menu item (POST) and the menu with each item's category name and
    optional category and availability filters (GET). */
module MenuRoute {
  import opened Common
  import opened Types
  import opened Db
  import opened Http
  import opened Seqs
  import opened Sql
  import opened JsNumbers

  // ---------------------------------------------------------------------------
  // POST /api/menu

  /** A JSON value given as price: a number (in paise), or any other value with its JavaScript
      truthiness (a non-empty string, `true`, an object are truthy). */
  datatype PriceValue = Number(paise: int) | Other(truthy: bool)

  /** The JSON body; an absent field is `None`. */
  datatype MenuItemRequest = MenuItemRequest(categoryId: Option<int>, name: Option<string>,
                                             description: Option<string>, price: Option<PriceValue>,
                                             isAvailable: Option<bool>)

  const MissingMenuFields := "Missing required fields: category_id, name, price"
  const PriceNotPositive := "Price must be a positive number"
  const MenuItemFailed := "Failed to create menu item"

  /** JavaScript truthiness of the price field. */
  predicate PriceTruthy(p: Option<PriceValue>)
  {
    p.Some? && match p.value
               case Number(n) => n != 0
               case Other(t) => t
  }

  predicate HasMenuFields(req: MenuItemRequest)
  {
    TruthyInt(req.categoryId) && TruthyString(req.name) && PriceTruthy(req.price)
  }

  /** `typeof price === 'number' && price > 0`. */
  predicate PricePositive(p: Option<PriceValue>)
  {
    p.Some? && p.value.Number? && p.value.paise > 0
  }

  /** `is_available = true` in the destructuring: an absent field means available. */
  function Availability(req: MenuItemRequest): bool
  {
    if req.isAvailable.Some? then req.isAvailable.value else true
  }

  datatype MenuCreation = MenuCreation(response: Response<MenuItem>, after: DbState)

  /** POST /api/menu: presence checks, the price check, then the insert, which the database
      refuses when the category does not exist. */
  function AddMenuItem(s: DbState, req: MenuItemRequest): (r: MenuCreation)
    ensures r.response == BadRequest(MissingMenuFields) <==> !HasMenuFields(req)
    ensures r.response == BadRequest(PriceNotPositive) <==> HasMenuFields(req) && !PricePositive(req.price)
    ensures r.response.Created? <==>
      HasMenuFields(req) && PricePositive(req.price) && HasCategory(s.tables.categories, req.categoryId.value)
    ensures r.response.Status() in {201, 400, 500}
    ensures !r.response.Created? ==> r.after.tables == s.tables
    ensures r.response.Status() == 400 ==> r.after == s
    ensures r.response.ServerError? ==> r.after.next.menuItem == s.next.menuItem + 1
    ensures r.response.Created? ==>
      && r.response.data == MenuItem(s.next.menuItem, req.categoryId.value, req.name.value, OrNull(req.description),
                                     req.price.value.paise, Availability(req), s.clock, s.clock)
      && r.after.tables == s.tables.(menuItems := s.tables.menuItems + [r.response.data])
    ensures WellFormed(s) ==> WellFormed(r.after)
  {
    if !HasMenuFields(req) then MenuCreation(BadRequest(MissingMenuFields), s)
    else if !PricePositive(req.price) then MenuCreation(BadRequest(PriceNotPositive), s)
    else
      var ins := AppendMenuItem(s, req.categoryId.value, req.name.value, OrNull(req.description),
                                req.price.value.paise, Availability(req));
      if ins.row.None? then MenuCreation(ServerError(MenuItemFailed, ForeignKeyViolation("menu_items")), ins.after)
      else MenuCreation(Created(ins.row.value), ins.after)
  }

  /** Every menu item costs more than nothing. */
  ghost predicate PricesPositive(ms: seq<MenuItem>)
  {
    forall m :: m in ms ==> m.price > 0
  }

  /** POST /api/menu never adds a free or negatively priced item. */
  lemma AddMenuItemKeepsPricesPositive(s: DbState, req: MenuItemRequest)
    requires PricesPositive(s.tables.menuItems)
    ensures PricesPositive(AddMenuItem(s, req).after.tables.menuItems)
  {
    var r := AddMenuItem(s, req);
    if r.response.Created? {
      forall m | m in r.after.tables.menuItems ensures m.price > 0 {
        if m !in s.tables.menuItems {
          assert m == r.response.data;
        }
      }
    }
  }

  /** The handler. */
  method CreateMenuItem(db: Database, req: MenuItemRequest) returns (resp: Response<MenuItem>)
    modifies db
    ensures MenuCreation(resp, db.State()) == AddMenuItem(old(db.State()), req)
    ensures db.savepoint == old(db.savepoint)
    ensures old(db.Valid()) ==> db.Valid()
  {
    if !TruthyInt(req.categoryId) || !TruthyString(req.name) || !PriceTruthy(req.price) {
      return BadRequest(MissingMenuFields);
    }
    if !req.price.value.Number? || req.price.value.paise <= 0 {
      return BadRequest(PriceNotPositive);
    }
    var row := db.InsertMenuItem(req.categoryId.value, req.name.value, OrNull(req.description),
                                 req.price.value.paise, Availability(req));
    if row.None? {
      return ServerError(MenuItemFailed, ForeignKeyViolation("menu_items"));
    }
    resp := Created(row.value);
  }

  // ---------------------------------------------------------------------------
  // GET /api/menu

  /** One answer row: the item and its category's name. */
  datatype MenuRow = MenuRow(item: MenuItem, categoryName: string)

  const MenuFetchFailed := "Failed to fetch menu items"

  /** The filters: `category_id` when non-empty (read with parseInt), `available` whenever it
      is present (`"true"` selects available items, any other text unavailable ones). */
  predicate MenuMatches(m: MenuItem, categoryId: Option<string>, available: Option<string>)
  {
    (TruthyString(categoryId) ==> ParseInt(categoryId.value) == Some(m.categoryId))
    && (available.Some? ==> m.isAvailable == (available.value == "true"))
  }

  function MenuColumns(m: MenuItem): Row
  {
    map["mi.category_id" := Int(m.categoryId), "mi.is_available" := Bool(m.isAvailable)]
  }

  /** Builds the WHERE conditions with a placeholder counter: category first, then availability. */
  method BuildMenuFilter(categoryId: Option<string>, available: Option<string>)
    returns (conds: seq<Condition>, params: seq<Value>)
    ensures Numbered(conds, params)
    ensures |conds| == (if TruthyString(categoryId) then 1 else 0) + (if available.Some? then 1 else 0)
    ensures TruthyString(categoryId) ==>
      conds[0] == AnyOf([Comparison("mi.category_id", Equals, 1)]) && params[0] == IntParam(categoryId.value)
    ensures available.Some? ==>
      && conds[|conds| - 1] == AnyOf([Comparison("mi.is_available", Equals, |conds|)])
      && params[|conds| - 1] == Bool(available.value == "true")
    ensures forall m :: Holds(conds, params, MenuColumns(m)) <==> MenuMatches(m, categoryId, available)
  {
    conds, params := [], [];
    var paramCount := 1;
    if TruthyString(categoryId) {
      conds := conds + [AnyOf([Comparison("mi.category_id", Equals, paramCount)])];
      params := params + [IntParam(categoryId.value)];
      paramCount := paramCount + 1;
    }
    if available.Some? {
      conds := conds + [AnyOf([Comparison("mi.is_available", Equals, paramCount)])];
      params := params + [Bool(available.value == "true")];
      paramCount := paramCount + 1;
    }
    forall m ensures Holds(conds, params, MenuColumns(m)) <==> MenuMatches(m, categoryId, available) {
      var row := MenuColumns(m);
      if TruthyString(categoryId) {
        assert CompareHolds(conds[0].alternatives[0], params, row) <==> ParseInt(categoryId.value) == Some(m.categoryId);
      }
      if available.Some? {
        var c := conds[|conds| - 1].alternatives[0];
        assert CompareHolds(c, params, row) <==> m.isAvailable == (available.value == "true");
      }
    }
  }

  /** The items the join keeps, in table order: those that pass the filters and whose
      category exists (the inner join drops the others). */
  function MatchingItems(ms: seq<MenuItem>, cs: seq<Category>, categoryId: Option<string>, available: Option<string>)
    : (r: seq<MenuItem>)
    ensures forall m :: m in r <==> m in ms && MenuMatches(m, categoryId, available) && HasCategory(cs, m.categoryId)
  {
    if ms == [] then []
    else
      var m := ms[0];
      (if MenuMatches(m, categoryId, available) && HasCategory(cs, m.categoryId) then [m] else [])
      + MatchingItems(ms[1..], cs, categoryId, available)
  }

  function RowItem(x: MenuRow): MenuItem { x.item }

  /** The answer row of an item whose category exists: the item and its category's name. */
  function MenuRowFor(m: MenuItem, cs: seq<Category>): (x: MenuRow)
    requires HasCategory(cs, m.categoryId)
    ensures x.item == m && x.categoryName == FindCategory(cs, m.categoryId).value.name
  {
    MenuRow(m, FindCategory(cs, m.categoryId).value.name)
  }

  /** The joined rows in table order: one row per item the join keeps, with its category's
      name. */
  function JoinMenu(ms: seq<MenuItem>, cs: seq<Category>, categoryId: Option<string>, available: Option<string>)
    : (r: seq<MenuRow>)
    ensures |r| == |MatchingItems(ms, cs, categoryId, available)|
    ensures forall i :: 0 <= i < |r| ==> r[i].item == MatchingItems(ms, cs, categoryId, available)[i]
    ensures forall x :: x in r ==>
      HasCategory(cs, x.item.categoryId) && x.categoryName == FindCategory(cs, x.item.categoryId).value.name
  {
    var kept := MatchingItems(ms, cs, categoryId, available);
    seq(|kept|, i requires 0 <= i < |kept| => MenuRowFor(kept[i], cs))
  }

  /** `ORDER BY c.category_id, mi.name`. */
  predicate ByCategoryThenName(a: MenuRow, b: MenuRow)
  {
    a.item.categoryId < b.item.categoryId
    || (a.item.categoryId == b.item.categoryId && StrLe(a.item.name, b.item.name))
  }

  lemma ByCategoryThenNameOrders()
    ensures Total(ByCategoryThenName) && Transitive(ByCategoryThenName)
  {
    forall a, b ensures ByCategoryThenName(a, b) || ByCategoryThenName(b, a) {
      StrLeTotal(a.item.name, b.item.name);
    }
    forall a, b, c | ByCategoryThenName(a, b) && ByCategoryThenName(b, c) ensures ByCategoryThenName(a, c) {
      if a.item.categoryId == b.item.categoryId == c.item.categoryId {
        StrLeTrans(a.item.name, b.item.name, c.item.name);
      }
    }
  }

  /** GET /api/menu: a category filter without digits makes the query fail (500); otherwise
      the joined rows, by category id and then name. */
  function ListMenu(t: Tables, categoryId: Option<string>, available: Option<string>): (r: Response<seq<MenuRow>>)
    ensures r.ServerError? <==> TruthyString(categoryId) && ParseInt(categoryId.value).None?
    ensures r.Ok? ==> multiset(r.data) == multiset(JoinMenu(t.menuItems, t.categories, categoryId, available))
    ensures r.Ok? ==> SortedBy(r.data, ByCategoryThenName)
  {
    if TruthyString(categoryId) && ParseInt(categoryId.value).None? then
      ServerError(MenuFetchFailed, InvalidParameter("category_id"))
    else
      var joined := JoinMenu(t.menuItems, t.categories, categoryId, available);
      ByCategoryThenNameOrders();
      SortBySorted(joined, ByCategoryThenName);
      Ok(SortBy(joined, ByCategoryThenName))
  }

  /** GET /api/menu answers each item that passes the filters and has a category exactly as
      often as the table holds it (once, as item ids are keys), each with its category's name,
      ordered by category id and then by name. */
  lemma ListMenuRows(t: Tables, categoryId: Option<string>, available: Option<string>)
    requires !TruthyString(categoryId) || ParseInt(categoryId.value).Some?
    ensures ListMenu(t, categoryId, available).Ok?
    ensures multiset(Map(ListMenu(t, categoryId, available).data, RowItem))
         == multiset(MatchingItems(t.menuItems, t.categories, categoryId, available))
    ensures |ListMenu(t, categoryId, available).data| == |MatchingItems(t.menuItems, t.categories, categoryId, available)|
    ensures forall x :: x in ListMenu(t, categoryId, available).data ==>
      && x.item in t.menuItems && MenuMatches(x.item, categoryId, available)
      && HasCategory(t.categories, x.item.categoryId)
      && x.categoryName == FindCategory(t.categories, x.item.categoryId).value.name
    ensures SortedBy(ListMenu(t, categoryId, available).data, ByCategoryThenName)
  {
    var r := ListMenu(t, categoryId, available);
    var joined := JoinMenu(t.menuItems, t.categories, categoryId, available);
    var kept := MatchingItems(t.menuItems, t.categories, categoryId, available);
    assert Map(joined, RowItem) == kept;
    MapPermutation(r.data, joined, RowItem);
    forall x | x in r.data ensures x in joined && x.item in kept {
      assert x in multiset(r.data);
      var i :| 0 <= i < |joined| && joined[i] == x;
    }
  }


  /** Filtering by the id a client writes into the query string selects exactly that
      category's items. */
  lemma CategoryFilterByShownId(t: Tables, id: int, available: Option<string>)
    ensures ParseInt(Show(id)).Some?
    ensures forall m :: MenuMatches(m, Some(Show(id)), available) ==> m.categoryId == id
  {
    ParseShow(id, []);
    assert Show(id) + [] == Show(id);
  }
}
