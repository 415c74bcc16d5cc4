/** The PostgreSQL database the routes talk to, as in-memory tables. It keeps what the routes
    rely on: SERIAL primary keys handed out by counters that never go back (not even on
    ROLLBACK), the foreign keys that refuse a dangling reference, DEFAULT timestamps from a
    clock, and a transaction snapshot that ROLLBACK restores. Connections and the pool are
    not modelled: a query is a direct read or write of these tables. */
module Db {
  import opened Common
  import opened Types

  /** The five tables, each in insertion order. */
  datatype Tables = Tables(
    categories: seq<Category>,
    menuItems: seq<MenuItem>,
    customers: seq<Customer>,
    orders: seq<Order>,
    orderItems: seq<OrderItem>)

  /** The next value of each SERIAL sequence. */
  datatype Serials = Serials(category: nat, menuItem: nat, customer: nat, order: nat, orderItem: nat)

  /** Everything the database holds outside an open transaction. */
  datatype DbState = DbState(tables: Tables, next: Serials, clock: Timestamp)

  /** The outcome of one INSERT: the state afterwards and the row, or no row when a foreign
      key refused it (the SERIAL value is spent either way). */
  datatype Inserted<+T> = Inserted(after: DbState, row: Option<T>)

  const Empty := DbState(Tables([], [], [], [], []), Serials(1, 1, 1, 1, 1), 0)

  // ---------------------------------------------------------------------------
  // Lookups by primary key

  predicate HasCategory(cs: seq<Category>, id: int)
  {
    exists c :: c in cs && c.categoryId == id
  }

  predicate HasCustomer(cs: seq<Customer>, id: int)
  {
    exists c :: c in cs && c.customerId == id
  }

  predicate HasOrder(os: seq<Order>, id: int)
  {
    exists o :: o in os && o.orderId == id
  }

  /** `SELECT ... FROM menu_items WHERE menu_item_id = id`: the first such row, if any. */
  function FindMenuItem(ms: seq<MenuItem>, id: int): (r: Option<MenuItem>)
    ensures r.Some? ==> r.value in ms && r.value.menuItemId == id
    ensures r.None? <==> forall m :: m in ms ==> m.menuItemId != id
  {
    if ms == [] then None
    else if ms[0].menuItemId == id then Some(ms[0])
    else FindMenuItem(ms[1..], id)
  }

  /** `SELECT name FROM categories WHERE category_id = id`. */
  function FindCategory(cs: seq<Category>, id: int): (r: Option<Category>)
    ensures r.Some? ==> r.value in cs && r.value.categoryId == id
    ensures r.None? <==> !HasCategory(cs, id)
  {
    if cs == [] then None
    else if cs[0].categoryId == id then Some(cs[0])
    else FindCategory(cs[1..], id)
  }

  function FindCustomer(cs: seq<Customer>, id: int): (r: Option<Customer>)
    ensures r.Some? ==> r.value in cs && r.value.customerId == id
    ensures r.None? <==> !HasCustomer(cs, id)
  {
    if cs == [] then None
    else if cs[0].customerId == id then Some(cs[0])
    else FindCustomer(cs[1..], id)
  }

  // ---------------------------------------------------------------------------
  // What the schema guarantees

  /** Primary keys are positive, below their sequence's next value, and strictly increase in
      insertion order; foreign keys point at existing rows. */
  ghost predicate WellFormed(s: DbState)
  {
    var t, n := s.tables, s.next;
    && 1 <= n.category && 1 <= n.menuItem && 1 <= n.customer && 1 <= n.order && 1 <= n.orderItem
    && (forall i, j :: 0 <= i < j < |t.categories| ==> t.categories[i].categoryId < t.categories[j].categoryId)
    && (forall i, j :: 0 <= i < j < |t.menuItems| ==> t.menuItems[i].menuItemId < t.menuItems[j].menuItemId)
    && (forall i, j :: 0 <= i < j < |t.customers| ==> t.customers[i].customerId < t.customers[j].customerId)
    && (forall i, j :: 0 <= i < j < |t.orders| ==> t.orders[i].orderId < t.orders[j].orderId)
    && (forall i, j :: 0 <= i < j < |t.orderItems| ==> t.orderItems[i].orderItemId < t.orderItems[j].orderItemId)
    && (forall c :: c in t.categories ==> 1 <= c.categoryId < n.category)
    && (forall m :: m in t.menuItems ==> 1 <= m.menuItemId < n.menuItem)
    && (forall c :: c in t.customers ==> 1 <= c.customerId < n.customer)
    && (forall o :: o in t.orders ==> 1 <= o.orderId < n.order)
    && (forall oi :: oi in t.orderItems ==> 1 <= oi.orderItemId < n.orderItem)
    && (forall m :: m in t.menuItems ==> HasCategory(t.categories, m.categoryId))
    && (forall o :: o in t.orders ==> HasCustomer(t.customers, o.customerId))
    && (forall oi :: oi in t.orderItems ==>
          HasOrder(t.orders, oi.orderId) && FindMenuItem(t.menuItems, oi.menuItemId).Some?)
  }

  /** Sequences only move forward. */
  predicate SerialsGrow(a: Serials, b: Serials)
  {
    a.category <= b.category && a.menuItem <= b.menuItem && a.customer <= b.customer
    && a.order <= b.order && a.orderItem <= b.orderItem
  }

  lemma WellFormedLaterSerials(t: Tables, a: Serials, b: Serials, c0: Timestamp, c1: Timestamp)
    requires WellFormed(DbState(t, a, c0)) && SerialsGrow(a, b)
    ensures WellFormed(DbState(t, b, c1))
  {
  }

  // ---------------------------------------------------------------------------
  // The INSERT statements, as state transformers

  /** `INSERT INTO categories (name, description)`: a fresh id and `created_at = now`. */
  function AppendCategory(s: DbState, name: string, description: Option<string>): (r: Inserted<Category>)
    ensures r.row == Some(Category(s.next.category, name, description, s.clock))
    ensures r.after.tables == s.tables.(categories := s.tables.categories + [r.row.value])
    ensures r.after.next == s.next.(category := s.next.category + 1) && r.after.clock == s.clock + 1
    ensures WellFormed(s) ==> WellFormed(r.after)
  {
    var row := Category(s.next.category, name, description, s.clock);
    var t := s.tables.(categories := s.tables.categories + [row]);
    var r := Inserted(DbState(t, s.next.(category := s.next.category + 1), s.clock + 1), Some(row));
    assert WellFormed(s) ==> WellFormed(r.after) by {
      if WellFormed(s) {
        forall m | m in t.menuItems ensures HasCategory(t.categories, m.categoryId) {
          assert HasCategory(s.tables.categories, m.categoryId);
        }
      }
    }
    r
  }

  /** `INSERT INTO menu_items (...)`; refused unless `category_id` names a category. */
  function AppendMenuItem(s: DbState, categoryId: int, name: string, description: Option<string>,
                          price: Paise, isAvailable: bool): (r: Inserted<MenuItem>)
    ensures r.after.next == s.next.(menuItem := s.next.menuItem + 1)
    ensures r.row.Some? <==> HasCategory(s.tables.categories, categoryId)
    ensures r.row.Some? ==>
      && r.row.value == MenuItem(s.next.menuItem, categoryId, name, description, price, isAvailable, s.clock, s.clock)
      && r.after.tables == s.tables.(menuItems := s.tables.menuItems + [r.row.value])
      && r.after.clock == s.clock + 1
    ensures r.row.None? ==> r.after.tables == s.tables && r.after.clock == s.clock
    ensures WellFormed(s) ==> WellFormed(r.after)
  {
    var next := s.next.(menuItem := s.next.menuItem + 1);
    if !HasCategory(s.tables.categories, categoryId) then
      Inserted(s.(next := next), None)
    else
      var row := MenuItem(s.next.menuItem, categoryId, name, description, price, isAvailable, s.clock, s.clock);
      var t := s.tables.(menuItems := s.tables.menuItems + [row]);
      var r := Inserted(DbState(t, next, s.clock + 1), Some(row));
      assert WellFormed(s) ==> WellFormed(r.after) by {
        if WellFormed(s) {
          forall oi | oi in t.orderItems ensures FindMenuItem(t.menuItems, oi.menuItemId).Some? {
            var m := FindMenuItem(s.tables.menuItems, oi.menuItemId).value;
            assert m in t.menuItems;
          }
        }
      }
      r
  }

  /** `INSERT INTO customers (name, phone, email)`. */
  function AppendCustomer(s: DbState, name: string, phone: string, email: Option<string>): (r: Inserted<Customer>)
    ensures r.row == Some(Customer(s.next.customer, name, phone, email, s.clock))
    ensures r.after.tables == s.tables.(customers := s.tables.customers + [r.row.value])
    ensures r.after.next == s.next.(customer := s.next.customer + 1) && r.after.clock == s.clock + 1
    ensures WellFormed(s) ==> WellFormed(r.after)
  {
    var row := Customer(s.next.customer, name, phone, email, s.clock);
    var t := s.tables.(customers := s.tables.customers + [row]);
    var r := Inserted(DbState(t, s.next.(customer := s.next.customer + 1), s.clock + 1), Some(row));
    assert WellFormed(s) ==> WellFormed(r.after) by {
      if WellFormed(s) {
        forall o | o in t.orders ensures HasCustomer(t.customers, o.customerId) {
          assert HasCustomer(s.tables.customers, o.customerId);
        }
      }
    }
    r
  }

  /** `INSERT INTO orders (...)`, `order_date` defaulting to now; refused unless `customer_id`
      names a customer. */
  function AppendOrder(s: DbState, customerId: int, total: Paise, status: OrderStatus,
                       orderType: string, notes: Option<string>): (r: Inserted<Order>)
    ensures r.after.next == s.next.(order := s.next.order + 1)
    ensures r.row.Some? <==> HasCustomer(s.tables.customers, customerId)
    ensures r.row.Some? ==>
      && r.row.value == Order(s.next.order, customerId, s.clock, total, status, orderType, notes, s.clock, s.clock)
      && r.after.tables == s.tables.(orders := s.tables.orders + [r.row.value])
      && r.after.clock == s.clock + 1
    ensures r.row.None? ==> r.after.tables == s.tables && r.after.clock == s.clock
    ensures WellFormed(s) ==> WellFormed(r.after)
  {
    var next := s.next.(order := s.next.order + 1);
    if !HasCustomer(s.tables.customers, customerId) then
      Inserted(s.(next := next), None)
    else
      var row := Order(s.next.order, customerId, s.clock, total, status, orderType, notes, s.clock, s.clock);
      var t := s.tables.(orders := s.tables.orders + [row]);
      var r := Inserted(DbState(t, next, s.clock + 1), Some(row));
      assert WellFormed(s) ==> WellFormed(r.after) by {
        if WellFormed(s) {
          forall oi | oi in t.orderItems ensures HasOrder(t.orders, oi.orderId) {
            assert HasOrder(s.tables.orders, oi.orderId);
          }
        }
      }
      r
  }

  /** `INSERT INTO order_items (...)`; refused unless both the order and the menu item exist. */
  function AppendOrderItem(s: DbState, orderId: int, menuItemId: int, quantity: int,
                           unitPrice: Paise, subtotal: Paise): (r: Inserted<OrderItem>)
    ensures r.after.next == s.next.(orderItem := s.next.orderItem + 1) && r.after.clock == s.clock
    ensures r.row.Some? <==> HasOrder(s.tables.orders, orderId) && FindMenuItem(s.tables.menuItems, menuItemId).Some?
    ensures r.row.Some? ==>
      && r.row.value == OrderItem(s.next.orderItem, orderId, menuItemId, quantity, unitPrice, subtotal)
      && r.after.tables == s.tables.(orderItems := s.tables.orderItems + [r.row.value])
    ensures r.row.None? ==> r.after.tables == s.tables
    ensures WellFormed(s) ==> WellFormed(r.after)
  {
    var next := s.next.(orderItem := s.next.orderItem + 1);
    if !(HasOrder(s.tables.orders, orderId) && FindMenuItem(s.tables.menuItems, menuItemId).Some?) then
      Inserted(s.(next := next), None)
    else
      var row := OrderItem(s.next.orderItem, orderId, menuItemId, quantity, unitPrice, subtotal);
      Inserted(DbState(s.tables.(orderItems := s.tables.orderItems + [row]), next, s.clock), Some(row))
  }

  // ---------------------------------------------------------------------------
  // The database object the routes share

  class Database {
    var categories: seq<Category>
    var menuItems: seq<MenuItem>
    var customers: seq<Customer>
    var orders: seq<Order>
    var orderItems: seq<OrderItem>
    var next: Serials
    var clock: Timestamp
    /** The tables as they were at BEGIN, while a transaction is open. */
    var savepoint: Option<Tables>

    function Snapshot(): Tables
      reads this
    {
      Tables(categories, menuItems, customers, orders, orderItems)
    }

    function State(): DbState
      reads this
    {
      DbState(Snapshot(), next, clock)
    }

    ghost predicate Valid()
      reads this
    {
      && WellFormed(State())
      && (savepoint.Some? ==> WellFormed(DbState(savepoint.value, next, clock)))
    }

    constructor ()
      ensures Valid() && State() == Empty && savepoint == None
    {
      categories, menuItems, customers, orders, orderItems := [], [], [], [], [];
      next := Serials(1, 1, 1, 1, 1);
      clock := 0;
      savepoint := None;
      new;
      assert State() == Empty;
    }

    method Load(s: DbState)
      modifies this
      ensures State() == s && savepoint == None
      ensures WellFormed(s) ==> Valid()
    {
      categories, menuItems, customers := s.tables.categories, s.tables.menuItems, s.tables.customers;
      orders, orderItems := s.tables.orders, s.tables.orderItems;
      next, clock, savepoint := s.next, s.clock, None;
    }

    /** BEGIN */
    method Begin()
      requires Valid() && savepoint == None
      modifies this`savepoint
      ensures Valid() && savepoint == Some(Snapshot())
    {
      savepoint := Some(Snapshot());
    }

    /** COMMIT */
    method Commit()
      requires Valid()
      modifies this`savepoint
      ensures Valid() && savepoint == None
    {
      savepoint := None;
    }

    /** ROLLBACK: every table goes back to its state at BEGIN; sequences and clock do not. */
    method Rollback()
      requires Valid() && savepoint.Some?
      modifies this
      ensures Valid() && savepoint == None
      ensures State() == DbState(old(savepoint.value), old(next), old(clock))
    {
      var t := savepoint.value;
      categories, menuItems, customers, orders, orderItems :=
        t.categories, t.menuItems, t.customers, t.orders, t.orderItems;
      savepoint := None;
    }

    /** Stores the outcome of an INSERT. Any state accepts it; the invariant survives when the
        new state is well formed and no sequence went backwards. */
    method Apply<T>(r: Inserted<T>)
      modifies this
      ensures State() == r.after && savepoint == old(savepoint)
      ensures old(Valid()) && WellFormed(r.after) && SerialsGrow(old(next), r.after.next) ==> Valid()
    {
      if Valid() && savepoint.Some? && SerialsGrow(next, r.after.next) {
        WellFormedLaterSerials(savepoint.value, next, r.after.next, clock, r.after.clock);
      }
      var t := r.after.tables;
      categories, menuItems, customers, orders, orderItems :=
        t.categories, t.menuItems, t.customers, t.orders, t.orderItems;
      next, clock := r.after.next, r.after.clock;
    }

    method InsertCategory(name: string, description: Option<string>) returns (row: Category)
      modifies this
      ensures old(Valid()) ==> Valid()
      ensures savepoint == old(savepoint)
      ensures Inserted(State(), Some(row)) == AppendCategory(old(State()), name, description)
    {
      var r := AppendCategory(State(), name, description);
      Apply(r);
      row := r.row.value;
    }

    method InsertMenuItem(categoryId: int, name: string, description: Option<string>,
                          price: Paise, isAvailable: bool) returns (row: Option<MenuItem>)
      modifies this
      ensures old(Valid()) ==> Valid()
      ensures savepoint == old(savepoint)
      ensures Inserted(State(), row) == AppendMenuItem(old(State()), categoryId, name, description, price, isAvailable)
    {
      var r := AppendMenuItem(State(), categoryId, name, description, price, isAvailable);
      Apply(r);
      row := r.row;
    }

    method InsertCustomer(name: string, phone: string, email: Option<string>) returns (row: Customer)
      modifies this
      ensures old(Valid()) ==> Valid()
      ensures savepoint == old(savepoint)
      ensures Inserted(State(), Some(row)) == AppendCustomer(old(State()), name, phone, email)
    {
      var r := AppendCustomer(State(), name, phone, email);
      Apply(r);
      row := r.row.value;
    }

    method InsertOrder(customerId: int, total: Paise, status: OrderStatus, orderType: string,
                       notes: Option<string>) returns (row: Option<Order>)
      modifies this
      ensures old(Valid()) ==> Valid()
      ensures savepoint == old(savepoint)
      ensures Inserted(State(), row) == AppendOrder(old(State()), customerId, total, status, orderType, notes)
    {
      var r := AppendOrder(State(), customerId, total, status, orderType, notes);
      Apply(r);
      row := r.row;
    }

    method InsertOrderItem(orderId: int, menuItemId: int, quantity: int, unitPrice: Paise,
                           subtotal: Paise) returns (row: Option<OrderItem>)
      modifies this
      ensures old(Valid()) ==> Valid()
      ensures savepoint == old(savepoint)
      ensures Inserted(State(), row) == AppendOrderItem(old(State()), orderId, menuItemId, quantity, unitPrice, subtotal)
    {
      var r := AppendOrderItem(State(), orderId, menuItemId, quantity, unitPrice, subtotal);
      Apply(r);
      row := r.row;
    }
  }
}
