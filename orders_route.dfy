/** `POST /api/orders` and `GET /api/orders`.

    POST validates the body, opens a transaction, prices every requested line from the
    menu's current price (a missing menu item aborts and rolls back), inserts one `pending`
    order carrying the total, inserts one order item per line with the price snapshot and
    the subtotal, and commits. GET lists orders, optionally filtered by status and customer,
    newest first, each with its customer's name and phone and its number of items. */
module OrdersRoute {
  import opened Common
  import opened Types
  import opened Db
  import opened Http
  import opened Seqs
  import opened Sql
  import opened Groups
  import opened JsNumbers

  // ---------------------------------------------------------------------------
  // Request and answer

  /** One element of the body's `items`: quantities are taken as given (never checked). */
  datatype LineRequest = LineRequest(menuItemId: int, quantity: int)

  /** The body of POST /api/orders; `None` is an absent or null field. */
  datatype OrderRequest = OrderRequest(
    customerId: Option<int>,
    orderType: Option<string>,
    items: Option<seq<LineRequest>>,
    notes: Option<string>)

  /** The created order with its items, as the 201 answer carries them. */
  datatype PlacedOrder = PlacedOrder(order: Order, items: seq<OrderItem>)

  /** The answer and the database state that POST leaves behind. */
  datatype Placement = Placement(response: Response<PlacedOrder>, after: DbState)

  const MissingFields := "Missing required fields: customer_id, order_type, items"
  const CreateFailed := "Failed to create order"

  /** `customer_id`, `order_type` and a non-empty `items` are present and truthy. */
  predicate HasRequiredFields(req: OrderRequest)
  {
    TruthyInt(req.customerId) && TruthyString(req.orderType)
    && req.items.Some? && |req.items.value| > 0
  }

  // ---------------------------------------------------------------------------
  // Pricing

  /** The outcome of the pricing loop: the running total, or the first menu item id that has
      no menu row. */
  datatype Quote = Quoted(total: Paise) | Unknown(menuItemId: int)

  /** Every requested menu item has a menu row. */
  predicate AllPriced(menu: seq<MenuItem>, items: seq<LineRequest>)
  {
    forall k :: 0 <= k < |items| ==> FindMenuItem(menu, items[k].menuItemId).Some?
  }

  /** The current menu price of a menu item known to exist. */
  function PriceOf(menu: seq<MenuItem>, id: int): Paise
    requires FindMenuItem(menu, id).Some?
  {
    FindMenuItem(menu, id).value.price
  }

  /** The pricing loop, line by line from the first: add price × quantity, stop at the first
      line whose menu item is missing. */
  function QuoteOf(menu: seq<MenuItem>, items: seq<LineRequest>): Quote
    decreases |items|
  {
    if items == [] then Quoted(0)
    else
      var last := items[|items| - 1];
      match QuoteOf(menu, items[..|items| - 1])
      case Unknown(id) => Unknown(id)
      case Quoted(total) =>
        match FindMenuItem(menu, last.menuItemId)
        case None => Unknown(last.menuItemId)
        case Some(m) => Quoted(total + m.price * last.quantity)
  }

  /** The order-item row for one priced line: id `id`, the current price as unit price and
      price × quantity as subtotal. */
  function LineRow(menu: seq<MenuItem>, item: LineRequest, orderId: int, id: nat): OrderItem
    requires FindMenuItem(menu, item.menuItemId).Some?
  {
    OrderItem(id, orderId, item.menuItemId, item.quantity,
              PriceOf(menu, item.menuItemId), PriceOf(menu, item.menuItemId) * item.quantity)
  }

  /** The order-item rows for the lines: row k is line k of the request, for order `orderId`,
      with id `firstId + k`. */
  function OrderLines(menu: seq<MenuItem>, items: seq<LineRequest>, orderId: int, firstId: nat): (r: seq<OrderItem>)
    requires AllPriced(menu, items)
    ensures |r| == |items|
  {
    seq(|items|, k requires 0 <= k < |items| =>
      OrderItem(firstId + k, orderId, items[k].menuItemId, items[k].quantity,
                PriceOf(menu, items[k].menuItemId),
                PriceOf(menu, items[k].menuItemId) * items[k].quantity))
  }

  /** The rows for the first `n` lines, built one line at a time as the insertion loop does. */
  function LinesUpTo(menu: seq<MenuItem>, items: seq<LineRequest>, n: nat, orderId: int, firstId: nat): (r: seq<OrderItem>)
    requires n <= |items| && AllPriced(menu, items)
    ensures |r| == n
  {
    if n == 0 then [] else LinesUpTo(menu, items, n - 1, orderId, firstId) + [LineRow(menu, items[n - 1], orderId, firstId + n - 1)]
  }

  lemma {:induction false} LinesUpToAll(menu: seq<MenuItem>, items: seq<LineRequest>, n: nat, orderId: int, firstId: nat)
    requires n <= |items| && AllPriced(menu, items)
    ensures forall k :: 0 <= k < n ==>
      LinesUpTo(menu, items, n, orderId, firstId)[k] == OrderLines(menu, items, orderId, firstId)[k]
  {
    if n > 0 {
      LinesUpToAll(menu, items, n - 1, orderId, firstId);
    }
  }

  function Subtotals(rows: seq<OrderItem>): (r: seq<Paise>)
    ensures |r| == |rows| && forall k :: 0 <= k < |rows| ==> r[k] == rows[k].subtotal
  {
    seq(|rows|, k requires 0 <= k < |rows| => rows[k].subtotal)
  }

  /** A quote that failed on a prefix fails the same way on the whole request. */
  lemma {:induction false} UnknownSticks(menu: seq<MenuItem>, items: seq<LineRequest>, n: nat)
    requires n <= |items| && QuoteOf(menu, items[..n]).Unknown?
    ensures QuoteOf(menu, items) == QuoteOf(menu, items[..n])
    decreases |items| - n
  {
    if n < |items| {
      var m := items[..|items| - 1];
      assert m[..n] == items[..n];
      UnknownSticks(menu, m, n);
    } else {
      assert items[..n] == items;
    }
  }

  /** Pricing fails exactly when some requested menu item is missing, and it then names the
      first missing one in request order; otherwise its total is the sum of the subtotals of
      the order lines it leads to. */
  lemma {:induction false} QuoteCorrect(menu: seq<MenuItem>, items: seq<LineRequest>)
    ensures QuoteOf(menu, items).Quoted? <==> AllPriced(menu, items)
    ensures QuoteOf(menu, items).Unknown? ==>
      exists k :: 0 <= k < |items| && items[k].menuItemId == QuoteOf(menu, items).menuItemId
        && FindMenuItem(menu, items[k].menuItemId).None?
        && AllPriced(menu, items[..k])
    ensures AllPriced(menu, items) ==>
      forall orderId: int, firstId: nat :: QuoteOf(menu, items).total == Sum(Subtotals(OrderLines(menu, items, orderId, firstId)))
    decreases |items|
  {
    if items != [] {
      var n := |items| - 1;
      var init, last := items[..n], items[n];
      QuoteCorrect(menu, init);
      assert forall k :: 0 <= k < n ==> init[k] == items[k];
      if QuoteOf(menu, init).Unknown? {
        var k :| 0 <= k < |init| && init[k].menuItemId == QuoteOf(menu, init).menuItemId
          && FindMenuItem(menu, init[k].menuItemId).None? && AllPriced(menu, init[..k]);
        assert init[..k] == items[..k];
      } else if FindMenuItem(menu, last.menuItemId).None? {
        assert items[..n] == init;
      } else {
        forall orderId: int, firstId: nat
          ensures QuoteOf(menu, items).total == Sum(Subtotals(OrderLines(menu, items, orderId, firstId)))
        {
          SubtotalsSnoc(menu, items, orderId, firstId);
        }
      }
    }
  }

  /** The last line adds its subtotal to those of the lines before it. */
  lemma SubtotalsSnoc(menu: seq<MenuItem>, items: seq<LineRequest>, orderId: int, firstId: nat)
    requires items != [] && AllPriced(menu, items)
    ensures AllPriced(menu, items[..|items| - 1])
    ensures Sum(Subtotals(OrderLines(menu, items, orderId, firstId)))
         == Sum(Subtotals(OrderLines(menu, items[..|items| - 1], orderId, firstId)))
            + PriceOf(menu, items[|items| - 1].menuItemId) * items[|items| - 1].quantity
  {
    var n := |items| - 1;
    var init, last := items[..n], items[n];
    assert forall k :: 0 <= k < n ==> init[k] == items[k];
    var all := Subtotals(OrderLines(menu, items, orderId, firstId));
    var front := Subtotals(OrderLines(menu, init, orderId, firstId));
    assert all == front + [PriceOf(menu, last.menuItemId) * last.quantity];
    SumAppend(front, [PriceOf(menu, last.menuItemId) * last.quantity]);
  }

  /** The pricing loop of the handler (lines priced one at a time, first missing item aborts). */
  method PriceItems(menu: seq<MenuItem>, items: seq<LineRequest>) returns (q: Quote)
    ensures q == QuoteOf(menu, items)
  {
    var total := 0;
    for i := 0 to |items|
      invariant QuoteOf(menu, items[..i]) == Quoted(total)
    {
      assert items[..i + 1][..i] == items[..i];
      var m := FindMenuItem(menu, items[i].menuItemId);
      if m.None? {
        UnknownSticks(menu, items, i + 1);
        return Unknown(items[i].menuItemId);
      }
      total := total + m.value.price * items[i].quantity;
    }
    assert items[..|items|] == items;
    q := Quoted(total);
  }

  // ---------------------------------------------------------------------------
  // The order total invariant

  function OrderOf(x: OrderItem): int { x.orderId }

  /** The items of one order, in insertion order. */
  function ItemsOf(rows: seq<OrderItem>, orderId: int): (r: seq<OrderItem>)
    ensures forall x :: x in r <==> x in rows && x.orderId == orderId
    ensures |r| <= |rows|
  {
    Select(rows, OrderOf, orderId)
  }

  /** Every order item's subtotal is unit price × quantity, and every order's total is the sum
      of its items' subtotals. */
  ghost predicate TotalsAgree(t: Tables)
  {
    && (forall oi :: oi in t.orderItems ==> oi.subtotal == oi.unitPrice * oi.quantity)
    && (forall o :: o in t.orders ==> o.totalAmount == Sum(Subtotals(ItemsOf(t.orderItems, o.orderId))))
  }

  // ---------------------------------------------------------------------------
  // POST /api/orders, as a specification

  /** What POST /api/orders answers and leaves behind. A missing field is refused before the
      transaction starts; a missing menu item or a customer id the orders table refuses ends
      in ROLLBACK, which restores every table (only the spent order id remains spent). */
  function PlaceOrder(s: DbState, req: OrderRequest): (p: Placement)
    ensures p.response.Status() in {201, 400, 500}
    ensures p.response.Status() != 201 ==> p.after.tables == s.tables
    ensures p.response.Status() == 400 <==> !HasRequiredFields(req)
    ensures !HasRequiredFields(req) ==> p == Placement(BadRequest(MissingFields), s)
    ensures WellFormed(s) ==> WellFormed(p.after)
  {
    if !HasRequiredFields(req) then Placement(BadRequest(MissingFields), s)
    else
      var items := req.items.value;
      match QuoteOf(s.tables.menuItems, items)
      case Unknown(id) => Placement(ServerError(CreateFailed, MenuItemNotFound(id)), s)
      case Quoted(total) =>
        var ins := AppendOrder(s, req.customerId.value, total, Pending, req.orderType.value, OrNull(req.notes));
        if ins.row.None? then
          Placement(ServerError(CreateFailed, ForeignKeyViolation("orders")), ins.after)
        else
          QuoteCorrect(s.tables.menuItems, items);
          var order := ins.row.value;
          var lines := OrderLines(s.tables.menuItems, items, order.orderId, s.next.orderItem);
          var after := DbState(
            ins.after.tables.(orderItems := s.tables.orderItems + lines),
            ins.after.next.(orderItem := s.next.orderItem + |items|),
            ins.after.clock);
          assert WellFormed(s) ==> WellFormed(after) by {
            if WellFormed(s) {
              assert ins.after.tables.menuItems == s.tables.menuItems && order in ins.after.tables.orders;
              assert ins.after.tables.orderItems == s.tables.orderItems && ins.after.next.orderItem == s.next.orderItem;
              LinesWellFormed(ins.after, order, items, after);
            }
          }
          Placement(Created(PlacedOrder(order, lines)), after)
  }

  /** Adding the rows of a fully priced request for an order that is in the table keeps the
      database well formed. */
  lemma LinesWellFormed(mid: DbState, order: Order, items: seq<LineRequest>, after: DbState)
    requires WellFormed(mid) && order in mid.tables.orders && AllPriced(mid.tables.menuItems, items)
    requires after == DbState(mid.tables.(orderItems := mid.tables.orderItems
                                + OrderLines(mid.tables.menuItems, items, order.orderId, mid.next.orderItem)),
                              mid.next.(orderItem := mid.next.orderItem + |items|), mid.clock)
    ensures WellFormed(after)
  {
    var lines := OrderLines(mid.tables.menuItems, items, order.orderId, mid.next.orderItem);
    var t := after.tables;
    assert t.orderItems == mid.tables.orderItems + lines;
    NewIdsIncrease(mid.tables.orderItems, lines, mid.next.orderItem);
    assert HasOrder(t.orders, order.orderId);
    NewLinesReferToRows(mid, order, items, t);
  }

  /** Rows with the ids `next`, `next + 1`, ... appended after rows whose ids increase and stay
      below `next` keep the ids increasing and below the advanced sequence. */
  lemma NewIdsIncrease(old_: seq<OrderItem>, lines: seq<OrderItem>, next: nat)
    requires forall i, j :: 0 <= i < j < |old_| ==> old_[i].orderItemId < old_[j].orderItemId
    requires forall oi :: oi in old_ ==> 1 <= oi.orderItemId < next
    requires 1 <= next && forall k :: 0 <= k < |lines| ==> lines[k].orderItemId == next + k
    ensures forall i, j :: 0 <= i < j < |old_ + lines| ==> (old_ + lines)[i].orderItemId < (old_ + lines)[j].orderItemId
    ensures forall oi :: oi in old_ + lines ==> 1 <= oi.orderItemId < next + |lines|
  {
    var all := old_ + lines;
    forall i, j | 0 <= i < j < |all| ensures all[i].orderItemId < all[j].orderItemId {
      if j >= |old_| && i < |old_| {
        assert all[i] in old_;
      }
    }
    forall oi | oi in all ensures 1 <= oi.orderItemId < next + |lines| {
      if oi !in old_ {
        var k :| 0 <= k < |lines| && lines[k] == oi;
      }
    }
  }

  /** Every appended row refers to the order and to a menu item that has a row. */
  lemma NewLinesReferToRows(mid: DbState, order: Order, items: seq<LineRequest>, t: Tables)
    requires WellFormed(mid) && AllPriced(mid.tables.menuItems, items)
    requires t.orders == mid.tables.orders && t.menuItems == mid.tables.menuItems && HasOrder(t.orders, order.orderId)
    requires t.orderItems == mid.tables.orderItems + OrderLines(mid.tables.menuItems, items, order.orderId, mid.next.orderItem)
    ensures forall oi :: oi in t.orderItems ==> HasOrder(t.orders, oi.orderId) && FindMenuItem(t.menuItems, oi.menuItemId).Some?
  {
    var lines := OrderLines(mid.tables.menuItems, items, order.orderId, mid.next.orderItem);
    forall oi | oi in t.orderItems
      ensures HasOrder(t.orders, oi.orderId) && FindMenuItem(t.menuItems, oi.menuItemId).Some?
    {
      if oi !in mid.tables.orderItems {
        var k :| 0 <= k < |lines| && lines[k] == oi;
      }
    }
  }

  /** A request without customer_id, order_type or a non-empty items list gets 400 with the
      source's message and changes no table. */
  lemma MissingFieldsRejected(s: DbState, req: OrderRequest)
    requires !TruthyInt(req.customerId) || !TruthyString(req.orderType) || req.items.None? || req.items.value == []
    ensures PlaceOrder(s, req).response == BadRequest("Missing required fields: customer_id, order_type, items")
    ensures PlaceOrder(s, req).after == s
  {
  }

  /** A request naming a menu item that has no row fails with 500, reports the first such id
      in request order, and leaves every table as it was: no order and no order item. */
  lemma UnknownMenuItemRollsBack(s: DbState, req: OrderRequest, k: nat)
    requires HasRequiredFields(req)
    requires k < |req.items.value| && FindMenuItem(s.tables.menuItems, req.items.value[k].menuItemId).None?
    ensures var p := PlaceOrder(s, req);
      && p.response.ServerError? && p.response.error == "Failed to create order"
      && p.response.cause.MenuItemNotFound?
      && p.after == s
      && exists j :: 0 <= j <= k && req.items.value[j].menuItemId == p.response.cause.menuItemId
           && AllPriced(s.tables.menuItems, req.items.value[..j])
  {
    var items := req.items.value;
    QuoteCorrect(s.tables.menuItems, items);
    var id := QuoteOf(s.tables.menuItems, items).menuItemId;
    var j :| 0 <= j < |items| && items[j].menuItemId == id
      && FindMenuItem(s.tables.menuItems, items[j].menuItemId).None? && AllPriced(s.tables.menuItems, items[..j]);
  }

  /** An order for a customer id with no customer row is refused by the orders table's
      foreign key: 500 and, after ROLLBACK, unchanged tables. */
  lemma UnknownCustomerRollsBack(s: DbState, req: OrderRequest)
    requires HasRequiredFields(req) && AllPriced(s.tables.menuItems, req.items.value)
    requires !HasCustomer(s.tables.customers, req.customerId.value)
    ensures var p := PlaceOrder(s, req);
      p.response == ServerError("Failed to create order", ForeignKeyViolation("orders"))
      && p.after.tables == s.tables
  {
    QuoteCorrect(s.tables.menuItems, req.items.value);
  }

  /** A successful order: exactly one new order row, status `pending`, notes NULL when absent
      or empty, for the requested customer and order type; exactly one new order-item row per
      requested line, in request order, each for the new order, with the menu price at this
      moment as unit price and unit price × quantity as subtotal; and the total is the sum of
      those subtotals. Nothing else changes. */
  lemma PlacedOrderContents(s: DbState, req: OrderRequest)
    requires PlaceOrder(s, req).response.Created?
    ensures var p := PlaceOrder(s, req);
      var order, lines := p.response.data.order, p.response.data.items;
      var items := req.items.value;
      && HasRequiredFields(req)
      && p.after.tables.orders == s.tables.orders + [order]
      && p.after.tables.orderItems == s.tables.orderItems + lines
      && p.after.tables.categories == s.tables.categories
      && p.after.tables.menuItems == s.tables.menuItems
      && p.after.tables.customers == s.tables.customers
      && order.orderId == s.next.order
      && order.status == Pending && order.customerId == req.customerId.value
      && order.orderType == req.orderType.value && order.notes == OrNull(req.notes)
      && |lines| == |items|
      && (forall k :: 0 <= k < |lines| ==>
            && lines[k].orderId == order.orderId
            && lines[k].menuItemId == items[k].menuItemId
            && lines[k].quantity == items[k].quantity
            && FindMenuItem(s.tables.menuItems, items[k].menuItemId).Some?
            && lines[k].unitPrice == FindMenuItem(s.tables.menuItems, items[k].menuItemId).value.price
            && lines[k].subtotal == lines[k].unitPrice * lines[k].quantity)
      && order.totalAmount == Sum(Subtotals(lines))
  {
    QuoteCorrect(s.tables.menuItems, req.items.value);
  }

  /** Appending rows that all belong to order `id` leaves the items of every other order as
      they were, and gives order `id` (which had none) exactly those rows. */
  lemma ItemsAfterAppend(rows: seq<OrderItem>, lines: seq<OrderItem>, id: int, other: int)
    requires forall x :: x in lines ==> x.orderId == id
    requires forall x :: x in rows ==> x.orderId != id
    ensures ItemsOf(rows + lines, id) == lines
    ensures other != id ==> ItemsOf(rows + lines, other) == ItemsOf(rows, other)
  {
    SelectAppend(rows, lines, OrderOf, id);
    SelectNone(rows, OrderOf, id);
    SelectEvery(lines, OrderOf, id);
    assert [] + lines == lines;
    if other != id {
      SelectAppend(rows, lines, OrderOf, other);
      SelectNone(lines, OrderOf, other);
      assert ItemsOf(rows, other) + [] == ItemsOf(rows, other);
    }
  }

  /** Adding an order together with its own item rows, whose subtotals sum to its total,
      keeps TotalsAgree, provided its id is new to both tables. */
  lemma TotalsAfterNewOrder(t: Tables, order: Order, lines: seq<OrderItem>)
    requires TotalsAgree(t)
    requires forall o :: o in t.orders ==> o.orderId != order.orderId
    requires forall x :: x in t.orderItems ==> x.orderId != order.orderId
    requires forall x :: x in lines ==> x.orderId == order.orderId && x.subtotal == x.unitPrice * x.quantity
    requires order.totalAmount == Sum(Subtotals(lines))
    ensures TotalsAgree(t.(orders := t.orders + [order], orderItems := t.orderItems + lines))
  {
    var t' := t.(orders := t.orders + [order], orderItems := t.orderItems + lines);
    forall o | o in t'.orders
      ensures o.totalAmount == Sum(Subtotals(ItemsOf(t'.orderItems, o.orderId)))
    {
      ItemsAfterAppend(t.orderItems, lines, order.orderId, o.orderId);
      if o != order {
        assert o in t.orders;
      }
    }
  }

  /** Every order id, and every order id an item refers to, is below the next order id. */
  predicate OrderIdsBelowNext(s: DbState)
  {
    && (forall o :: o in s.tables.orders ==> o.orderId < s.next.order)
    && (forall x :: x in s.tables.orderItems ==> x.orderId < s.next.order)
  }

  lemma WellFormedOrderIds(s: DbState)
    requires WellFormed(s)
    ensures OrderIdsBelowNext(s)
  {
    forall x | x in s.tables.orderItems ensures x.orderId < s.next.order {
      var o :| o in s.tables.orders && o.orderId == x.orderId;
    }
  }

  lemma PlaceOrderKeepsTotalsBelow(s: DbState, req: OrderRequest)
    requires OrderIdsBelowNext(s) && TotalsAgree(s.tables)
    ensures TotalsAgree(PlaceOrder(s, req).after.tables)
  {
    var p := PlaceOrder(s, req);
    if p.response.Created? {
      PlacedOrderContents(s, req);
      var order, lines := p.response.data.order, p.response.data.items;
      forall x | x in lines ensures x.orderId == order.orderId && x.subtotal == x.unitPrice * x.quantity {
        var k :| 0 <= k < |lines| && lines[k] == x;
      }
      TotalsAfterNewOrder(s.tables, order, lines);
      assert p.after.tables == s.tables.(orders := s.tables.orders + [order], orderItems := s.tables.orderItems + lines);
    }
  }

  /** Creating an order keeps every order's total equal to the sum of its items' subtotals. */
  lemma PlaceOrderKeepsTotals(s: DbState, req: OrderRequest)
    requires WellFormed(s) && TotalsAgree(s.tables)
    ensures TotalsAgree(PlaceOrder(s, req).after.tables)
  {
    WellFormedOrderIds(s);
    PlaceOrderKeepsTotalsBelow(s, req);
  }

  // ---------------------------------------------------------------------------
  // POST /api/orders, the handler

  /** One step of the second loop: read the menu price of line `i` again and insert its order
      item with that unit price and price × quantity as subtotal. */
  method InsertNextLine(db: Database, order: Order, items: seq<LineRequest>, i: nat, lines: seq<OrderItem>,
                        ghost menu: seq<MenuItem>, ghost firstId: nat) returns (lines': seq<OrderItem>)
    requires order in db.orders && i < |items| && db.menuItems == menu && AllPriced(menu, items)
    requires db.next.orderItem == firstId + i && lines == LinesUpTo(menu, items, i, order.orderId, firstId)
    modifies db
    ensures lines' == LinesUpTo(menu, items, i + 1, order.orderId, firstId)
    ensures db.Snapshot() == old(db.Snapshot()).(orderItems := old(db.orderItems) + [lines'[i]])
    ensures db.next == old(db.next).(orderItem := old(db.next.orderItem) + 1)
    ensures db.clock == old(db.clock) && db.savepoint == old(db.savepoint)
  {
    var item := items[i];
    var menuItem := FindMenuItem(db.menuItems, item.menuItemId);
    var unitPrice := menuItem.value.price;
    assert HasOrder(db.orders, order.orderId);
    var inserted := db.InsertOrderItem(order.orderId, item.menuItemId, item.quantity, unitPrice, unitPrice * item.quantity);
    lines' := lines + [inserted.value];
  }

  /** The second loop of the handler: one order item per requested line, in request order. */
  method InsertEachLine(db: Database, order: Order, items: seq<LineRequest>) returns (lines: seq<OrderItem>)
    requires order in db.orders && AllPriced(db.menuItems, items)
    modifies db
    ensures lines == OrderLines(old(db.menuItems), items, order.orderId, old(db.next.orderItem))
    ensures db.Snapshot() == old(db.Snapshot()).(orderItems := old(db.orderItems) + lines)
    ensures db.next == old(db.next).(orderItem := old(db.next.orderItem) + |items|)
    ensures db.clock == old(db.clock) && db.savepoint == old(db.savepoint)
  {
    ghost var start := db.State();
    ghost var menu, firstId := db.menuItems, db.next.orderItem;
    lines := [];
    var i := 0;
    while i < |items|
      invariant 0 <= i <= |items| && db.savepoint == old(db.savepoint)
      invariant db.Snapshot() == start.tables.(orderItems := start.tables.orderItems + lines)
      invariant db.next == start.next.(orderItem := firstId + i) && db.clock == start.clock
      invariant lines == LinesUpTo(menu, items, i, order.orderId, firstId)
    {
      lines := InsertNextLine(db, order, items, i, lines, menu, firstId);
      i := i + 1;
    }
    LinesUpToAll(menu, items, i, order.orderId, firstId);
  }

  /** The loop over the lines keeps the database valid. */
  method InsertLines(db: Database, order: Order, items: seq<LineRequest>) returns (lines: seq<OrderItem>)
    requires db.Valid() && order in db.orders && AllPriced(db.menuItems, items)
    modifies db
    ensures db.Valid() && db.savepoint == old(db.savepoint)
    ensures lines == OrderLines(old(db.menuItems), items, order.orderId, old(db.next.orderItem))
    ensures db.Snapshot() == old(db.Snapshot()).(orderItems := old(db.orderItems) + lines)
    ensures db.next == old(db.next).(orderItem := old(db.next.orderItem) + |items|)
    ensures db.clock == old(db.clock)
  {
    ghost var start := db.State();
    lines := InsertEachLine(db, order, items);
    ghost var after := DbState(start.tables.(orderItems := start.tables.orderItems + lines),
                               start.next.(orderItem := start.next.orderItem + |items|), start.clock);
    LinesKeepValid(start, db.savepoint, order, items, after);
    assert db.State() == after;
  }

  /** The database holding the new order's items is as well-formed as before, and so is the
      savepoint seen with the advanced sequences. */
  lemma LinesKeepValid(start: DbState, savepoint: Option<Tables>, order: Order, items: seq<LineRequest>, after: DbState)
    requires WellFormed(start) && order in start.tables.orders && AllPriced(start.tables.menuItems, items)
    requires savepoint.Some? ==> WellFormed(DbState(savepoint.value, start.next, start.clock))
    requires after == DbState(start.tables.(orderItems := start.tables.orderItems
                                + OrderLines(start.tables.menuItems, items, order.orderId, start.next.orderItem)),
                              start.next.(orderItem := start.next.orderItem + |items|), start.clock)
    ensures WellFormed(after)
    ensures savepoint.Some? ==> WellFormed(DbState(savepoint.value, after.next, after.clock))
  {
    LinesWellFormed(start, order, items, after);
    if savepoint.Some? {
      WellFormedLaterSerials(savepoint.value, start.next, after.next, start.clock, after.clock);
    }
  }

  /** What POST answers once the order row for a fully priced request is in. */
  lemma PlaceOrderWhenInserted(s: DbState, req: OrderRequest, total: Paise, ins: Inserted<Order>)
    requires HasRequiredFields(req) && QuoteOf(s.tables.menuItems, req.items.value) == Quoted(total)
    requires ins == AppendOrder(s, req.customerId.value, total, Pending, req.orderType.value, OrNull(req.notes))
    requires ins.row.Some?
    ensures AllPriced(s.tables.menuItems, req.items.value)
    ensures var lines := OrderLines(s.tables.menuItems, req.items.value, ins.row.value.orderId, s.next.orderItem);
      PlaceOrder(s, req) == Placement(Created(PlacedOrder(ins.row.value, lines)),
        DbState(ins.after.tables.(orderItems := s.tables.orderItems + lines),
                ins.after.next.(orderItem := s.next.orderItem + |req.items.value|), ins.after.clock))
  {
    QuoteCorrect(s.tables.menuItems, req.items.value);
  }

  /** The handler once the order row is in: insert its items and commit. */
  method InsertItemsAndCommit(db: Database, req: OrderRequest, ghost s: DbState, total: Paise,
                              ghost ins: Inserted<Order>, order: Order) returns (resp: Response<PlacedOrder>)
    requires HasRequiredFields(req) && db.Valid() && db.savepoint == Some(s.tables)
    requires QuoteOf(s.tables.menuItems, req.items.value) == Quoted(total)
    requires ins == AppendOrder(s, req.customerId.value, total, Pending, req.orderType.value, OrNull(req.notes))
    requires ins.row == Some(order) && db.State() == ins.after
    modifies db
    ensures db.Valid() && db.savepoint == None
    ensures Placement(resp, db.State()) == PlaceOrder(s, req)
  {
    var items := req.items.value;
    PlaceOrderWhenInserted(s, req, total, ins);
    assert order in db.orders;
    // Second pass: one order item per line, priced again from the menu.
    var lines := InsertLines(db, order, items);
    db.Commit();
    assert db.Snapshot() == ins.after.tables.(orderItems := s.tables.orderItems + lines);
    resp := Created(PlacedOrder(order, lines));
  }

  /** The handler once every line is priced: insert the order, then its items, and commit;
      roll back when the orders table refuses the customer id. */
  method SaveOrder(db: Database, req: OrderRequest, ghost s: DbState, total: Paise) returns (resp: Response<PlacedOrder>)
    requires HasRequiredFields(req) && db.Valid() && db.State() == s && db.savepoint == Some(s.tables)
    requires QuoteOf(s.tables.menuItems, req.items.value) == Quoted(total)
    modifies db
    ensures db.Valid() && db.savepoint == None
    ensures Placement(resp, db.State()) == PlaceOrder(s, req)
  {
    var items := req.items.value;
    QuoteCorrect(s.tables.menuItems, items);
    var inserted := db.InsertOrder(req.customerId.value, total, Pending, req.orderType.value, OrNull(req.notes));
    ghost var ins := AppendOrder(s, req.customerId.value, total, Pending, req.orderType.value, OrNull(req.notes));
    assert inserted == ins.row && db.State() == ins.after;
    if inserted.None? {
      db.Rollback();
      resp := ServerError(CreateFailed, ForeignKeyViolation("orders"));
      assert db.State() == ins.after;
      return;
    }
    resp := InsertItemsAndCommit(db, req, s, total, ins, inserted.value);
  }

  method CreateOrder(db: Database, req: OrderRequest) returns (resp: Response<PlacedOrder>)
    requires db.Valid() && db.savepoint == None
    modifies db
    ensures db.Valid() && db.savepoint == None
    ensures Placement(resp, db.State()) == PlaceOrder(old(db.State()), req)
  {
    if !TruthyInt(req.customerId) || !TruthyString(req.orderType) || req.items.None? || |req.items.value| == 0 {
      return BadRequest(MissingFields);
    }
    var items := req.items.value;
    ghost var s := db.State();
    db.Begin();
    // First pass: price every line, failing on the first unknown menu item.
    var quote := PriceItems(db.menuItems, items);
    if quote.Unknown? {
      db.Rollback();
      resp := ServerError(CreateFailed, MenuItemNotFound(quote.menuItemId));
      assert db.State() == s;
      return;
    }
    assert db.State() == s;
    resp := SaveOrder(db, req, s, quote.total);
  }

  // ---------------------------------------------------------------------------
  // GET /api/orders

  /** One answer row: the order, its customer's name and phone, and its number of items. */
  datatype OrderRow = OrderRow(order: Order, customerName: string, customerPhone: string, itemCount: nat)

  const OrdersFetchFailed := "Failed to fetch orders"

  /** The filters of the query string: `status` when non-empty, and `customer_id` when
      non-empty, read with parseInt. */
  predicate OrderMatches(o: Order, status: Option<string>, customerId: Option<string>)
  {
    (TruthyString(status) ==> StatusName(o.status) == status.value)
    && (TruthyString(customerId) ==> ParseInt(customerId.value) == Some(o.customerId))
  }

  /** The columns the filters read. */
  function OrderColumns(o: Order): Row
  {
    map["o.status" := Text(StatusName(o.status)), "o.customer_id" := Int(o.customerId)]
  }

  /** Builds the WHERE conditions and their parameters, numbering placeholders from `$1` with a
      counter: status first, then customer id. */
  method BuildOrderFilter(status: Option<string>, customerId: Option<string>)
    returns (conds: seq<Condition>, params: seq<Value>)
    ensures Numbered(conds, params)
    ensures |conds| == (if TruthyString(status) then 1 else 0) + (if TruthyString(customerId) then 1 else 0)
    ensures TruthyString(status) ==>
      conds[0] == AnyOf([Comparison("o.status", Equals, 1)]) && params[0] == Text(status.value)
    ensures TruthyString(customerId) ==>
      conds[|conds| - 1] == AnyOf([Comparison("o.customer_id", Equals, |conds|)])
      && params[|conds| - 1] == IntParam(customerId.value)
    ensures forall o :: Holds(conds, params, OrderColumns(o)) <==> OrderMatches(o, status, customerId)
  {
    conds, params := [], [];
    var paramCount := 1;
    if TruthyString(status) {
      conds := conds + [AnyOf([Comparison("o.status", Equals, paramCount)])];
      params := params + [Text(status.value)];
      paramCount := paramCount + 1;
    }
    if TruthyString(customerId) {
      conds := conds + [AnyOf([Comparison("o.customer_id", Equals, paramCount)])];
      params := params + [IntParam(customerId.value)];
      paramCount := paramCount + 1;
    }
    forall o ensures Holds(conds, params, OrderColumns(o)) <==> OrderMatches(o, status, customerId) {
      var row := OrderColumns(o);
      if TruthyString(status) {
        assert CompareHolds(conds[0].alternatives[0], params, row) <==> StatusName(o.status) == status.value;
      }
      if TruthyString(customerId) {
        var c := conds[|conds| - 1].alternatives[0];
        assert CompareHolds(c, params, row) <==> ParseInt(customerId.value) == Some(o.customerId);
      }
    }
  }

  /** Newest first (`ORDER BY o.order_date DESC`). */
  predicate NewerFirst(a: OrderRow, b: OrderRow)
  {
    a.order.orderDate >= b.order.orderDate
  }

  /** The orders the join keeps, in table order: those that pass the filters and whose customer
      exists (the inner join drops the others). */
  function MatchingOrders(orders: seq<Order>, cs: seq<Customer>, status: Option<string>, customerId: Option<string>)
    : (r: seq<Order>)
    ensures forall o :: o in r <==> o in orders && OrderMatches(o, status, customerId) && HasCustomer(cs, o.customerId)
  {
    if orders == [] then []
    else
      var o := orders[0];
      (if OrderMatches(o, status, customerId) && HasCustomer(cs, o.customerId) then [o] else [])
      + MatchingOrders(orders[1..], cs, status, customerId)
  }

  function RowOrder(x: OrderRow): Order { x.order }

  /** The answer row of an order whose customer exists: the customer's name and phone, and
      the order's item count (0 when it has none, as with the LEFT JOIN). */
  function RowFor(o: Order, t: Tables): (x: OrderRow)
    requires HasCustomer(t.customers, o.customerId)
    ensures x.order == o
    ensures x.customerName == FindCustomer(t.customers, o.customerId).value.name
    ensures x.customerPhone == FindCustomer(t.customers, o.customerId).value.phone
    ensures x.itemCount == |ItemsOf(t.orderItems, o.orderId)|
  {
    var c := FindCustomer(t.customers, o.customerId).value;
    OrderRow(o, c.name, c.phone, |ItemsOf(t.orderItems, o.orderId)|)
  }

  /** The joined rows in table order: `GROUP BY o.order_id` makes exactly one row per order
      the join keeps, carrying its customer's name and phone and its item count. */
  function JoinOrders(orders: seq<Order>, t: Tables, status: Option<string>, customerId: Option<string>): (r: seq<OrderRow>)
    ensures |r| == |MatchingOrders(orders, t.customers, status, customerId)|
    ensures forall i :: 0 <= i < |r| ==> r[i].order == MatchingOrders(orders, t.customers, status, customerId)[i]
    ensures forall x :: x in r ==>
      && HasCustomer(t.customers, x.order.customerId)
      && x.customerName == FindCustomer(t.customers, x.order.customerId).value.name
      && x.customerPhone == FindCustomer(t.customers, x.order.customerId).value.phone
      && x.itemCount == |ItemsOf(t.orderItems, x.order.orderId)|
  {
    var kept := MatchingOrders(orders, t.customers, status, customerId);
    seq(|kept|, i requires 0 <= i < |kept| => RowFor(kept[i], t))
  }

  /** GET /api/orders: a `customer_id` without digits binds NaN, which the database refuses
      (500); otherwise the joined rows, newest first. */
  function ListOrders(t: Tables, status: Option<string>, customerId: Option<string>): (r: Response<seq<OrderRow>>)
    ensures r.ServerError? <==> TruthyString(customerId) && ParseInt(customerId.value).None?
    ensures r.Ok? ==> multiset(r.data) == multiset(JoinOrders(t.orders, t, status, customerId))
    ensures r.Ok? ==> SortedBy(r.data, NewerFirst)
  {
    if TruthyString(customerId) && ParseInt(customerId.value).None? then
      ServerError(OrdersFetchFailed, InvalidParameter("customer_id"))
    else
      var joined := JoinOrders(t.orders, t, status, customerId);
      SortBySorted(joined, NewerFirst);
      Ok(SortBy(joined, NewerFirst))
  }

  /** GET /api/orders answers each order that passes the filters and has a customer exactly as
      often as the table holds it (once, as order ids are keys), newest first, each with its
      customer's name and phone and its item count. */
  lemma ListOrdersRows(t: Tables, status: Option<string>, customerId: Option<string>)
    requires !TruthyString(customerId) || ParseInt(customerId.value).Some?
    ensures ListOrders(t, status, customerId).Ok?
    ensures multiset(Map(ListOrders(t, status, customerId).data, RowOrder))
         == multiset(MatchingOrders(t.orders, t.customers, status, customerId))
    ensures |ListOrders(t, status, customerId).data| == |MatchingOrders(t.orders, t.customers, status, customerId)|
    ensures forall x :: x in ListOrders(t, status, customerId).data ==>
      && x.order in t.orders && OrderMatches(x.order, status, customerId)
      && HasCustomer(t.customers, x.order.customerId)
      && x.customerName == FindCustomer(t.customers, x.order.customerId).value.name
      && x.customerPhone == FindCustomer(t.customers, x.order.customerId).value.phone
      && x.itemCount == |ItemsOf(t.orderItems, x.order.orderId)|
    ensures forall i, j :: 0 <= i < j < |ListOrders(t, status, customerId).data| ==>
      ListOrders(t, status, customerId).data[i].order.orderDate >= ListOrders(t, status, customerId).data[j].order.orderDate
  {
    var r := ListOrders(t, status, customerId).data;
    var joined := JoinOrders(t.orders, t, status, customerId);
    var kept := MatchingOrders(t.orders, t.customers, status, customerId);
    assert Map(joined, RowOrder) == kept;
    MapPermutation(r, joined, RowOrder);
    forall x | x in r ensures x.order in kept {
      assert x in multiset(r);
      var i :| 0 <= i < |joined| && joined[i] == x;
    }
  }
}
