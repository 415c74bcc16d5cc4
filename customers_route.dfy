/** `/api/customers`: registering a customer (POST) and the customer list with each customer's
    number of orders and total spent (GET). */
module CustomersRoute {
  import opened Common
  import opened Types
  import opened Db
  import opened Http
  import opened Seqs
  import opened Sql
  import opened Groups

  // ---------------------------------------------------------------------------
  // POST /api/customers

  /** The JSON body; an absent field is `None`. */
  datatype CustomerRequest = CustomerRequest(name: Option<string>, phone: Option<string>, email: Option<string>)

  const NameAndPhoneRequired := "Name and phone are required"
  const PhoneFormat := "Phone must be a 10-digit number"
  const PhoneTaken := "Phone number already registered"

  /** `/^\d{10}$/`: exactly ten ASCII digits and nothing else. */
  predicate TenDigits(phone: string)
  {
    |phone| == 10 && forall i :: 0 <= i < |phone| ==> '0' <= phone[i] <= '9'
  }

  /** `SELECT customer_id FROM customers WHERE phone = $1` returns a row. */
  predicate PhoneRegistered(cs: seq<Customer>, phone: string)
  {
    exists c :: c in cs && c.phone == phone
  }

  /** No two customers share a phone number. */
  ghost predicate PhonesUnique(cs: seq<Customer>)
  {
    forall i, j :: 0 <= i < j < |cs| ==> cs[i].phone != cs[j].phone
  }

  /** The request passes every check of the handler. */
  predicate Accepted(cs: seq<Customer>, req: CustomerRequest)
  {
    && TruthyString(req.name) && TruthyString(req.phone)
    && TenDigits(req.phone.value)
    && !PhoneRegistered(cs, req.phone.value)
  }

  /** The answer of POST and the database after it. */
  datatype Registration = Registration(response: Response<Customer>, after: DbState)

  /** POST /api/customers: the checks in the handler's order (name and phone present, phone
      format, phone not yet registered), then the insert with `email || null`. */
  function RegisterCustomer(s: DbState, req: CustomerRequest): (r: Registration)
    ensures r.response.Created? <==> Accepted(s.tables.customers, req)
    ensures !r.response.Created? ==> r.after == s
    ensures r.response == BadRequest(NameAndPhoneRequired) <==> !TruthyString(req.name) || !TruthyString(req.phone)
    ensures r.response == BadRequest(PhoneFormat) <==>
      TruthyString(req.name) && TruthyString(req.phone) && !TenDigits(req.phone.value)
    ensures r.response == Conflict(PhoneTaken) <==>
      TruthyString(req.name) && TruthyString(req.phone) && TenDigits(req.phone.value)
      && PhoneRegistered(s.tables.customers, req.phone.value)
    ensures r.response.Created? ==>
      && r.response.data == Customer(s.next.customer, req.name.value, req.phone.value, OrNull(req.email), s.clock)
      && r.after.tables == s.tables.(customers := s.tables.customers + [r.response.data])
    ensures WellFormed(s) ==> WellFormed(r.after)
  {
    if !TruthyString(req.name) || !TruthyString(req.phone) then
      Registration(BadRequest(NameAndPhoneRequired), s)
    else if !TenDigits(req.phone.value) then
      Registration(BadRequest(PhoneFormat), s)
    else if PhoneRegistered(s.tables.customers, req.phone.value) then
      Registration(Conflict(PhoneTaken), s)
    else
      var ins := AppendCustomer(s, req.name.value, req.phone.value, OrNull(req.email));
      Registration(Created(ins.row.value), ins.after)
  }

  /** The handler keeps phone numbers unique: it never inserts a phone that is already there. */
  lemma RegisterKeepsPhonesUnique(s: DbState, req: CustomerRequest)
    requires PhonesUnique(s.tables.customers)
    ensures PhonesUnique(RegisterCustomer(s, req).after.tables.customers)
  {
    var r := RegisterCustomer(s, req);
    if r.response.Created? {
      var cs := s.tables.customers;
      var all := r.after.tables.customers;
      forall i, j | 0 <= i < j < |all| ensures all[i].phone != all[j].phone {
        if j == |cs| {
          assert all[i] in cs;
        }
      }
    }
  }

  /** Registering the same phone a second time is refused with 409, whatever the name. */
  lemma SecondRegistrationConflicts(s: DbState, req: CustomerRequest, again: CustomerRequest)
    requires RegisterCustomer(s, req).response.Created?
    requires TruthyString(again.name) && again.phone == req.phone
    ensures RegisterCustomer(RegisterCustomer(s, req).after, again).response == Conflict(PhoneTaken)
  {
    var r := RegisterCustomer(s, req);
    assert r.response.data in r.after.tables.customers;
  }

  /** The handler: the checks, the phone lookup, then the insert. */
  method CreateCustomer(db: Database, req: CustomerRequest) returns (resp: Response<Customer>)
    modifies db
    ensures Registration(resp, db.State()) == RegisterCustomer(old(db.State()), req)
    ensures db.savepoint == old(db.savepoint)
    ensures old(db.Valid()) ==> db.Valid()
  {
    if !TruthyString(req.name) || !TruthyString(req.phone) {
      return BadRequest(NameAndPhoneRequired);
    }
    var phone := req.phone.value;
    if !TenDigits(phone) {
      return BadRequest(PhoneFormat);
    }
    if PhoneRegistered(db.customers, phone) {
      return Conflict(PhoneTaken);
    }
    var row := db.InsertCustomer(req.name.value, phone, OrNull(req.email));
    resp := Created(row);
  }

  // ---------------------------------------------------------------------------
  // GET /api/customers

  /** One answer row: the customer, how many orders it has and their summed totals. */
  datatype CustomerRow = CustomerRow(customer: Customer, orderCount: nat, totalSpent: Paise)

  /** The `search` filter: when non-empty, the name or the e-mail contains it ignoring case, or
      the phone contains it exactly. */
  predicate CustomerMatches(c: Customer, search: Option<string>)
  {
    TruthyString(search) ==>
      || Contains(Lower(c.name), Lower(search.value))
      || Contains(c.phone, search.value)
      || (c.email.Some? && Contains(Lower(c.email.value), Lower(search.value)))
  }

  /** The columns the filter reads; a missing e-mail is NULL. */
  function CustomerColumns(c: Customer): Row
  {
    map["c.name" := Text(c.name), "c.phone" := Text(c.phone),
        "c.email" := if c.email.Some? then Text(c.email.value) else Null]
  }

  /** Builds the WHERE clause: with a search term, one conjunct `(name ILIKE $1 OR phone LIKE
      $1 OR email ILIKE $1)` bound to `%term%`. */
  method BuildCustomerFilter(search: Option<string>) returns (conds: seq<Condition>, params: seq<Value>)
    ensures Numbered(conds, params)
    ensures |conds| == if TruthyString(search) then 1 else 0
    ensures TruthyString(search) ==>
      && conds[0] == AnyOf([Comparison("c.name", ILike, 1), Comparison("c.phone", Like, 1), Comparison("c.email", ILike, 1)])
      && params[0] == Text(Wrapped(search.value))
    ensures forall c :: Holds(conds, params, CustomerColumns(c)) <==> CustomerMatches(c, search)
  {
    conds, params := [], [];
    var paramCount := 1;
    if TruthyString(search) {
      conds := conds + [AnyOf([Comparison("c.name", ILike, paramCount), Comparison("c.phone", Like, paramCount),
                               Comparison("c.email", ILike, paramCount)])];
      params := params + [Text(Wrapped(search.value))];
      paramCount := paramCount + 1;
    }
    forall c ensures Holds(conds, params, CustomerColumns(c)) <==> CustomerMatches(c, search) {
      if TruthyString(search) {
        assert conds == [AnyOf([Comparison("c.name", ILike, 1), Comparison("c.phone", Like, 1), Comparison("c.email", ILike, 1)])];
        assert params == [Text(Wrapped(search.value))];
        SearchMeaning(c, search.value);
      }
    }
  }

  /** The three-way search conjunct bound to `%term%` holds exactly when the customer matches. */
  lemma SearchMeaning(c: Customer, term: string)
    requires term != ""
    ensures var alts := [Comparison("c.name", ILike, 1), Comparison("c.phone", Like, 1), Comparison("c.email", ILike, 1)];
      Holds([AnyOf(alts)], [Text(Wrapped(term))], CustomerColumns(c)) <==> CustomerMatches(c, Some(term))
  {
    var alts := [Comparison("c.name", ILike, 1), Comparison("c.phone", Like, 1), Comparison("c.email", ILike, 1)];
    var row, params := CustomerColumns(c), [Text(Wrapped(term))];
    ILikeWrapped("c.name", c.name, term, row);
    LikeWrapped("c.phone", c.phone, term, row);
    if c.email.Some? {
      ILikeWrapped("c.email", c.email.value, term, row);
    } else {
      assert row["c.email"] == Null;
    }
    HoldsSingle(AnyOf(alts), params, row);
    assert (exists a :: a in alts && CompareHolds(a, params, row))
      <==> CompareHolds(alts[0], params, row) || CompareHolds(alts[1], params, row) || CompareHolds(alts[2], params, row);
  }

  function CustomerOf(o: Order): int { o.customerId }

  /** The orders of one customer, in table order (the LEFT JOIN partners of that customer). */
  function OrdersOf(orders: seq<Order>, customerId: int): (r: seq<Order>)
    ensures forall o :: o in r <==> o in orders && o.customerId == customerId
    ensures |r| <= |orders|
  {
    Select(orders, CustomerOf, customerId)
  }

  function Amounts(os: seq<Order>): (r: seq<Paise>)
    ensures |r| == |os| && forall k :: 0 <= k < |os| ==> r[k] == os[k].totalAmount
  {
    seq(|os|, k requires 0 <= k < |os| => os[k].totalAmount)
  }

  /** `COUNT(o.order_id)` and `COALESCE(SUM(o.total_amount), 0)` for one customer, over its
      orders of every status. */
  function Aggregate(c: Customer, orders: seq<Order>): CustomerRow
  {
    var mine := OrdersOf(orders, c.customerId);
    CustomerRow(c, |mine|, Sum(Amounts(mine)))
  }

  /** The customers that pass the filter, in table order. */
  function MatchingCustomers(cs: seq<Customer>, search: Option<string>): (r: seq<Customer>)
    ensures forall c :: c in r <==> c in cs && CustomerMatches(c, search)
    ensures |r| <= |cs|
  {
    if cs == [] then []
    else (if CustomerMatches(cs[0], search) then [cs[0]] else []) + MatchingCustomers(cs[1..], search)
  }

  function RowCustomer(x: CustomerRow): Customer { x.customer }

  /** The grouped rows in table order: every customer that passes the filter, with its totals. */
  function JoinCustomers(cs: seq<Customer>, orders: seq<Order>, search: Option<string>): (r: seq<CustomerRow>)
    ensures |r| <= |cs|
  {
    if cs == [] then []
    else
      var rest := JoinCustomers(cs[1..], orders, search);
      if CustomerMatches(cs[0], search) then [Aggregate(cs[0], orders)] + rest else rest
  }

  /** The totals of each of `ks`, in order. */
  function AggregateAll(ks: seq<Customer>, orders: seq<Order>): (r: seq<CustomerRow>)
    ensures |r| == |ks| && forall i :: 0 <= i < |ks| ==> r[i] == Aggregate(ks[i], orders)
  {
    if ks == [] then [] else [Aggregate(ks[0], orders)] + AggregateAll(ks[1..], orders)
  }

  /** `GROUP BY c.customer_id` makes exactly one row per customer that passes the filter, in
      table order, with its totals. */
  lemma {:induction false} JoinCustomersRows(cs: seq<Customer>, orders: seq<Order>, search: Option<string>)
    ensures JoinCustomers(cs, orders, search) == AggregateAll(MatchingCustomers(cs, search), orders)
  {
    if cs != [] {
      JoinCustomersRows(cs[1..], orders, search);
      var kept := MatchingCustomers(cs[1..], search);
      if CustomerMatches(cs[0], search) {
        var ks := [cs[0]] + kept;
        assert MatchingCustomers(cs, search) == ks;
        assert ks[0] == cs[0] && ks[1..] == kept;
      } else {
        assert MatchingCustomers(cs, search) == [] + kept;
      }
    }
  }

  /** `ORDER BY c.name`, by code point. */
  predicate ByName(a: CustomerRow, b: CustomerRow)
  {
    StrLe(a.customer.name, b.customer.name)
  }

  lemma ByNameOrders()
    ensures Total(ByName) && Transitive(ByName)
  {
    forall a, b ensures ByName(a, b) || ByName(b, a) {
      StrLeTotal(a.customer.name, b.customer.name);
    }
    forall a, b, c | ByName(a, b) && ByName(b, c) ensures ByName(a, c) {
      StrLeTrans(a.customer.name, b.customer.name, c.customer.name);
    }
  }

  /** GET /api/customers: the grouped rows, by name. */
  function ListCustomers(t: Tables, search: Option<string>): (r: seq<CustomerRow>)
    ensures multiset(r) == multiset(JoinCustomers(t.customers, t.orders, search))
    ensures SortedBy(r, ByName)
  {
    ByNameOrders();
    SortBySorted(JoinCustomers(t.customers, t.orders, search), ByName);
    SortBy(JoinCustomers(t.customers, t.orders, search), ByName)
  }

  /** GET /api/customers answers each customer that passes the filter exactly as often as the
      table holds it (once, as customer ids are keys), in name order, each with the number and
      the summed totals of all its orders. */
  lemma ListCustomersRows(t: Tables, search: Option<string>)
    ensures multiset(Map(ListCustomers(t, search), RowCustomer)) == multiset(MatchingCustomers(t.customers, search))
    ensures |ListCustomers(t, search)| == |MatchingCustomers(t.customers, search)|
    ensures forall x :: x in ListCustomers(t, search) ==>
      && x.customer in t.customers && CustomerMatches(x.customer, search)
      && x.orderCount == |OrdersOf(t.orders, x.customer.customerId)|
      && x.totalSpent == Sum(Amounts(OrdersOf(t.orders, x.customer.customerId)))
    ensures SortedBy(ListCustomers(t, search), ByName)
  {
    var r := ListCustomers(t, search);
    var joined := JoinCustomers(t.customers, t.orders, search);
    JoinedCustomers(t.customers, t.orders, search);
    MapPermutation(r, joined, RowCustomer);
    forall x | x in r
      ensures x.customer in t.customers && CustomerMatches(x.customer, search) && x == Aggregate(x.customer, t.orders)
    {
      assert x in multiset(r);
      JoinedCustomerRow(t.customers, t.orders, search, x);
    }
  }

  /** The customers of the joined rows are the matching customers, in order. */
  lemma JoinedCustomers(cs: seq<Customer>, orders: seq<Order>, search: Option<string>)
    ensures Map(JoinCustomers(cs, orders, search), RowCustomer) == MatchingCustomers(cs, search)
  {
    JoinCustomersRows(cs, orders, search);
  }

  /** A joined row is the totals row of a matching customer. */
  lemma JoinedCustomerRow(cs: seq<Customer>, orders: seq<Order>, search: Option<string>, x: CustomerRow)
    requires x in JoinCustomers(cs, orders, search)
    ensures x.customer in cs && CustomerMatches(x.customer, search) && x == Aggregate(x.customer, orders)
  {
    JoinCustomersRows(cs, orders, search);
    var kept := MatchingCustomers(cs, search);
    var i :| 0 <= i < |kept| && JoinCustomers(cs, orders, search)[i] == x;
    assert kept[i] in kept;
  }



  /** The order counts of the unfiltered join add up to the number of orders whose customer
      is listed, when customer ids are distinct: the LEFT JOIN counts every order once. */
  lemma {:induction false} OrderCountsAddUp(cs: seq<Customer>, orders: seq<Order>)
    requires forall i, j :: 0 <= i < j < |cs| ==> cs[i].customerId != cs[j].customerId
    ensures Sum(Counts(JoinCustomers(cs, orders, None))) == |OrdersOfAny(orders, cs)|
  {
    if cs != [] {
      var c, rest := cs[0], cs[1..];
      assert cs == [c] + rest;
      forall i, j | 0 <= i < j < |rest| ensures rest[i].customerId != rest[j].customerId {
        assert rest[i] == cs[i + 1] && rest[j] == cs[j + 1];
      }
      forall d | d in rest ensures d.customerId != c.customerId {
        var k :| 0 <= k < |rest| && rest[k] == d;
        assert cs[k + 1] == d;
      }
      OrderCountsAddUp(rest, orders);
      OrdersOfAnySplit(orders, c, rest);
      CountsCons(c, rest, orders);
    } else {
      OrdersOfNoCustomer(orders);
      assert Counts(JoinCustomers(cs, orders, None)) == [];
    }
  }

  lemma CountsCons(c: Customer, rest: seq<Customer>, orders: seq<Order>)
    ensures Sum(Counts(JoinCustomers([c] + rest, orders, None)))
         == |OrdersOf(orders, c.customerId)| + Sum(Counts(JoinCustomers(rest, orders, None)))
  {
    var cs := [c] + rest;
    assert cs[0] == c && cs[1..] == rest;
    var tailRows := JoinCustomers(rest, orders, None);
    CountsPrepend(Aggregate(c, orders), tailRows);
    var tail := Counts(tailRows);
    assert ([|OrdersOf(orders, c.customerId)|] + tail)[1..] == tail;
  }

  lemma CountsPrepend(x: CustomerRow, rows: seq<CustomerRow>)
    ensures Counts([x] + rows) == [x.orderCount] + Counts(rows)
  {
  }

  function Counts(rows: seq<CustomerRow>): (r: seq<int>)
    ensures |r| == |rows| && forall k :: 0 <= k < |rows| ==> r[k] == rows[k].orderCount
  {
    seq(|rows|, k requires 0 <= k < |rows| => rows[k].orderCount)
  }

  /** The orders whose customer is one of `cs`, in table order. */
  function OrdersOfAny(orders: seq<Order>, cs: seq<Customer>): seq<Order>
  {
    if orders == [] then []
    else (if exists c :: c in cs && c.customerId == orders[0].customerId then [orders[0]] else [])
         + OrdersOfAny(orders[1..], cs)
  }

  lemma {:induction false} OrdersOfNoCustomer(orders: seq<Order>)
    ensures OrdersOfAny(orders, []) == []
  {
    if orders != [] {
      OrdersOfNoCustomer(orders[1..]);
    }
  }

  /** Orders of `c` and orders of the rest are counted apart when `c`'s id is not among the
      rest's ids. */
  lemma {:induction false} OrdersOfAnySplit(orders: seq<Order>, c: Customer, rest: seq<Customer>)
    requires forall d :: d in rest ==> d.customerId != c.customerId
    ensures |OrdersOfAny(orders, [c] + rest)| == |OrdersOf(orders, c.customerId)| + |OrdersOfAny(orders, rest)|
  {
    if orders != [] {
      OrdersOfAnySplit(orders[1..], c, rest);
      var o := orders[0];
      if o.customerId == c.customerId {
        assert c in [c] + rest;
      } else if exists d :: d in [c] + rest && d.customerId == o.customerId {
        var d :| d in [c] + rest && d.customerId == o.customerId;
        assert d in rest;
      }
    }
  }
}
