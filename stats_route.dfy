/** `/api/stats`: the dashboard figures, all read from the tables by counting, summing,
    grouping, ordering and limiting. Nothing here writes: every figure is a function of the
    tables. */
module StatsRoute {
  import opened Common
  import opened Types
  import opened Db
  import opened Seqs
  import opened Groups

  // ---------------------------------------------------------------------------
  // Row keys and measures

  function StatusOf(o: Order): OrderStatus { o.status }
  function TypeOf(o: Order): string { o.orderType }
  function AmountOf(o: Order): int { o.totalAmount }
  function OneOrder(o: Order): int { 1 }
  function AvailabilityOf(m: MenuItem): bool { m.isAvailable }
  function MenuItemOf(oi: OrderItem): int { oi.menuItemId }
  function QuantityOf(oi: OrderItem): int { oi.quantity }
  function SubtotalOf(oi: OrderItem): int { oi.subtotal }

  /** `WHERE status = 'delivered'`. */
  function DeliveredOrders(orders: seq<Order>): (r: seq<Order>)
    ensures forall o :: o in r <==> o in orders && o.status == Delivered
  {
    Select(orders, StatusOf, Delivered)
  }

  // ---------------------------------------------------------------------------
  // The summary counts

  datatype Summary = Summary(totalOrders: nat, totalRevenue: Paise, totalCustomers: nat, totalMenuItems: nat)

  /** `COUNT(*)` of orders and of customers, the delivered orders' summed totals (0 when there
      are none), and the number of available menu items. */
  function Summarize(t: Tables): (r: Summary)
    ensures r.totalOrders == |t.orders| && r.totalCustomers == |t.customers|
    ensures r.totalMenuItems == |Select(t.menuItems, AvailabilityOf, true)|
    ensures r.totalRevenue == SumBy(DeliveredOrders(t.orders), AmountOf)
    ensures r.totalMenuItems <= |t.menuItems|
    ensures r.totalMenuItems == |t.menuItems| <==> forall m :: m in t.menuItems ==> m.isAvailable
    ensures DeliveredOrders(t.orders) == [] ==> r.totalRevenue == 0
  {
    var available := Select(t.menuItems, AvailabilityOf, true);
    assert |available| == |t.menuItems| <==> forall m :: m in t.menuItems ==> m.isAvailable by {
      SelectAll(t.menuItems, AvailabilityOf, true);
    }
    Summary(|t.orders|, SumBy(DeliveredOrders(t.orders), AmountOf), |t.customers|, |available|)
  }

  // ---------------------------------------------------------------------------
  // Orders by status

  datatype StatusCount = StatusCount(status: OrderStatus, count: nat)

  function CountOf(x: StatusCount): int { x.count }

  /** `ORDER BY status` on the status text: alphabetical. */
  const StatusOrder: seq<OrderStatus> := [Cancelled, Delivered, Pending, Preparing, Ready]

  /** A status's place in StatusOrder. */
  function AlphaRank(s: OrderStatus): nat
  {
    match s
    case Cancelled => 0
    case Delivered => 1
    case Pending => 2
    case Preparing => 3
    case Ready => 4
  }

  /** Rank order is the text order of the status names. */
  lemma AlphaRankIsTextOrder(a: OrderStatus, b: OrderStatus)
    requires AlphaRank(a) < AlphaRank(b)
    ensures StrLe(StatusName(a), StatusName(b)) && StatusName(a) != StatusName(b)
  {
    var x, y := StatusName(a), StatusName(b);
    if x[0] == y[0] {
      assert x[1..] == "ending" && y[1..] == "reparing";
      assert StrLe(x[1..], y[1..]);
    }
  }

  /** StatusOrder lists every status once, by increasing rank. */
  lemma StatusOrderRanks()
    ensures forall s: OrderStatus :: s in StatusOrder
    ensures forall i, j :: 0 <= i < j < |StatusOrder| ==> AlphaRank(StatusOrder[i]) < AlphaRank(StatusOrder[j])
    ensures Distinct(StatusOrder)
  {
    forall s: OrderStatus ensures s in StatusOrder {
      assert StatusOrder[AlphaRank(s)] == s;
    }
  }

  /** `GROUP BY status` over the statuses `sts`, in that order: one row per status with at
      least one order (GROUP BY makes no empty groups). */
  function CountsFor(orders: seq<Order>, sts: seq<OrderStatus>): (r: seq<StatusCount>)
    ensures |r| <= |sts|
    ensures forall x :: x in r ==> x.status in sts && x.count > 0 && x.count == |Select(orders, StatusOf, x.status)|
    ensures forall st :: st in sts && Select(orders, StatusOf, st) != [] ==> exists x :: x in r && x.status == st
  {
    if sts == [] then []
    else
      var rest := CountsFor(orders, sts[1..]);
      var n := |Select(orders, StatusOf, sts[0])|;
      if n > 0 then [StatusCount(sts[0], n)] + rest else rest
  }

  function OrdersByStatus(orders: seq<Order>): seq<StatusCount>
  {
    CountsFor(orders, StatusOrder)
  }

  /** Rows strictly increasing by status rank. */
  ghost predicate Ranked(r: seq<StatusCount>)
  {
    forall i, j :: 0 <= i < j < |r| ==> AlphaRank(r[i].status) < AlphaRank(r[j].status)
  }

  /** The rows keep the order of `sts`: when its ranks strictly increase, so do the rows'. */
  lemma {:induction false} CountsForOrdered(orders: seq<Order>, sts: seq<OrderStatus>)
    requires forall i, j :: 0 <= i < j < |sts| ==> AlphaRank(sts[i]) < AlphaRank(sts[j])
    ensures Ranked(CountsFor(orders, sts))
  {
    if sts != [] {
      var rest := CountsFor(orders, sts[1..]);
      CountsForOrdered(orders, sts[1..]);
      var r := CountsFor(orders, sts);
      if |r| > |rest| {
        var head := StatusCount(sts[0], |Select(orders, StatusOf, sts[0])|);
        assert r == [head] + rest;
        RanksAbove(orders, sts);
        forall i, j | 0 <= i < j < |r| ensures AlphaRank(r[i].status) < AlphaRank(r[j].status) {
          if i == 0 {
            assert AlphaRank(sts[0]) < AlphaRank(rest[j - 1].status);
          } else {
            assert AlphaRank(rest[i - 1].status) < AlphaRank(rest[j - 1].status);
          }
        }
      } else {
        assert r == rest;
      }
    }
  }

  lemma RanksAbove(orders: seq<Order>, sts: seq<OrderStatus>)
    requires sts != []
    requires forall i, j :: 0 <= i < j < |sts| ==> AlphaRank(sts[i]) < AlphaRank(sts[j])
    ensures forall k :: 0 <= k < |CountsFor(orders, sts[1..])| ==>
      AlphaRank(sts[0]) < AlphaRank(CountsFor(orders, sts[1..])[k].status)
  {
    var rest := CountsFor(orders, sts[1..]);
    forall k | 0 <= k < |rest| ensures AlphaRank(sts[0]) < AlphaRank(rest[k].status) {
      assert rest[k] in rest;
      var m :| 0 <= m < |sts[1..]| && sts[1..][m] == rest[k].status;
      assert sts[m + 1] == rest[k].status;
    }
  }

  /** Dropping the empty groups leaves the count sum unchanged. */
  lemma {:induction false} CountsForTotal(orders: seq<Order>, sts: seq<OrderStatus>)
    ensures SumBy(CountsFor(orders, sts), CountOf) == GroupTotal(orders, StatusOf, OneOrder, sts)
  {
    if sts != [] {
      CountsForTotal(orders, sts[1..]);
      var sel := Select(orders, StatusOf, sts[0]);
      SumByOnes(sel, OneOrder);
      var rest := CountsFor(orders, sts[1..]);
      if |sel| > 0 {
        SumByCons(StatusCount(sts[0], |sel|), rest, CountOf);
      }
    }
  }

  /** ordersByStatus lists, in alphabetical order of status, every status that some order
      has, each with its number of orders; and the counts add up to the number of orders. */
  lemma OrdersByStatusRows(orders: seq<Order>)
    ensures var r := OrdersByStatus(orders);
      && (forall x :: x in r ==> x.count > 0 && x.count == |Select(orders, StatusOf, x.status)|)
      && (forall o :: o in orders ==> exists x :: x in r && x.status == o.status)
      && (forall i, j :: 0 <= i < j < |r| ==> StrLe(StatusName(r[i].status), StatusName(r[j].status)) && r[i].status != r[j].status)
      && SumBy(r, CountOf) == |orders|
  {
    var r := OrdersByStatus(orders);
    StatusOrderRanks();
    CountsForOrdered(orders, StatusOrder);
    forall i, j | 0 <= i < j < |r|
      ensures StrLe(StatusName(r[i].status), StatusName(r[j].status)) && r[i].status != r[j].status
    {
      AlphaRankIsTextOrder(r[i].status, r[j].status);
    }
    forall o | o in orders ensures exists x :: x in r && x.status == o.status {
      assert o in Select(orders, StatusOf, o.status);
    }
    CountsForTotal(orders, StatusOrder);
    GroupTotalCovers(orders, StatusOf, OneOrder, StatusOrder);
    SumByOnes(orders, OneOrder);
  }

  // ---------------------------------------------------------------------------
  // Revenue by order type

  datatype TypeRevenue = TypeRevenue(orderType: string, count: nat, revenue: Paise)

  function TypeCountOf(x: TypeRevenue): int { x.count }
  function RevenueOf(x: TypeRevenue): int { x.revenue }

  /** One row per key: `COUNT(*)` and `SUM(total_amount)` of that order type's rows. */
  function TypeRows(delivered: seq<Order>, ks: seq<string>): (r: seq<TypeRevenue>)
    ensures |r| == |ks|
    ensures forall i :: 0 <= i < |ks| ==>
      && r[i].orderType == ks[i]
      && r[i].count == |Select(delivered, TypeOf, ks[i])|
      && r[i].revenue == SumBy(Select(delivered, TypeOf, ks[i]), AmountOf)
  {
    if ks == [] then []
    else
      var sel := Select(delivered, TypeOf, ks[0]);
      [TypeRevenue(ks[0], |sel|, SumBy(sel, AmountOf))] + TypeRows(delivered, ks[1..])
  }

  /** `WHERE status = 'delivered' GROUP BY order_type`. */
  function RevenueByType(orders: seq<Order>): seq<TypeRevenue>
  {
    var delivered := DeliveredOrders(orders);
    TypeRows(delivered, Keys(delivered, TypeOf))
  }

  lemma {:induction false} TypeRowsTotals(delivered: seq<Order>, ks: seq<string>)
    ensures SumBy(TypeRows(delivered, ks), RevenueOf) == GroupTotal(delivered, TypeOf, AmountOf, ks)
    ensures SumBy(TypeRows(delivered, ks), TypeCountOf) == GroupTotal(delivered, TypeOf, OneOrder, ks)
  {
    if ks != [] {
      TypeRowsTotals(delivered, ks[1..]);
      var sel := Select(delivered, TypeOf, ks[0]);
      SumByOnes(sel, OneOrder);
      var row, rest := TypeRevenue(ks[0], |sel|, SumBy(sel, AmountOf)), TypeRows(delivered, ks[1..]);
      SumByCons(row, rest, RevenueOf);
      SumByCons(row, rest, TypeCountOf);
    }
  }

  /** Every row of revenueByType is the type of some delivered order and counts at least
      one order; no type appears twice. */
  lemma RevenueByTypeRows(orders: seq<Order>)
    ensures forall x :: x in RevenueByType(orders) ==>
      x.count > 0 && exists o :: o in orders && o.status == Delivered && o.orderType == x.orderType
    ensures forall i, j :: 0 <= i < j < |RevenueByType(orders)| ==>
      RevenueByType(orders)[i].orderType != RevenueByType(orders)[j].orderType
  {
    var delivered := DeliveredOrders(orders);
    var ks := Keys(delivered, TypeOf);
    var r := RevenueByType(orders);
    forall x | x in r ensures x.count > 0 && exists o :: o in orders && o.status == Delivered && o.orderType == x.orderType {
      var i :| 0 <= i < |r| && r[i] == x;
      assert ks[i] in ks;
      var o :| o in delivered && TypeOf(o) == ks[i];
      assert o in Select(delivered, TypeOf, ks[i]);
    }
  }

  /** Every delivered order's type has a row in revenueByType. */
  lemma RevenueByTypeCovers(orders: seq<Order>)
    ensures forall o :: o in orders && o.status == Delivered ==>
      exists x :: x in RevenueByType(orders) && x.orderType == o.orderType
  {
    var delivered := DeliveredOrders(orders);
    var ks := Keys(delivered, TypeOf);
    var r := RevenueByType(orders);
    forall o | o in orders && o.status == Delivered ensures exists x :: x in r && x.orderType == o.orderType {
      assert TypeOf(o) in ks;
      var i :| 0 <= i < |ks| && ks[i] == TypeOf(o);
      assert r[i] in r;
    }
  }

  /** The per-type revenues add up to the delivered revenue and the per-type counts to the
      number of delivered orders. */
  lemma RevenueByTypeTotals(orders: seq<Order>)
    ensures SumBy(RevenueByType(orders), RevenueOf) == SumBy(DeliveredOrders(orders), AmountOf)
    ensures SumBy(RevenueByType(orders), TypeCountOf) == |DeliveredOrders(orders)|
  {
    var delivered := DeliveredOrders(orders);
    var ks := Keys(delivered, TypeOf);
    TypeRowsTotals(delivered, ks);
    GroupTotalCovers(delivered, TypeOf, AmountOf, ks);
    GroupTotalCovers(delivered, TypeOf, OneOrder, ks);
    SumByOnes(delivered, OneOrder);
  }

  // ---------------------------------------------------------------------------
  // Top-selling items

  /** A group of order items of one menu item, joined to the item and its category. */
  datatype ItemSales = ItemSales(item: MenuItem, category: string, totalSold: int, revenue: Paise)

  /** The answer row: `mi.name, c.name AS category, SUM(quantity), SUM(subtotal)`. */
  datatype TopItem = TopItem(name: string, category: string, totalSold: int, revenue: Paise)

  /** The menu items that form a group, in table order: those with at least one order item
      and whose category exists (the inner joins drop the others). */
  function SoldItems(ms: seq<MenuItem>, cs: seq<Category>, ois: seq<OrderItem>): (r: seq<MenuItem>)
    ensures forall m :: m in r <==> m in ms && HasCategory(cs, m.categoryId) && Select(ois, MenuItemOf, m.menuItemId) != []
  {
    if ms == [] then []
    else
      var m := ms[0];
      (if HasCategory(cs, m.categoryId) && Select(ois, MenuItemOf, m.menuItemId) != [] then [m] else [])
      + SoldItems(ms[1..], cs, ois)
  }

  /** The group of one sold item: its category's name and its summed quantities and subtotals. */
  function SalesFor(m: MenuItem, cs: seq<Category>, ois: seq<OrderItem>): (x: ItemSales)
    requires HasCategory(cs, m.categoryId)
    ensures x.item == m && x.category == FindCategory(cs, m.categoryId).value.name
    ensures x.totalSold == SumBy(Select(ois, MenuItemOf, m.menuItemId), QuantityOf)
    ensures x.revenue == SumBy(Select(ois, MenuItemOf, m.menuItemId), SubtotalOf)
  {
    var sold := Select(ois, MenuItemOf, m.menuItemId);
    ItemSales(m, FindCategory(cs, m.categoryId).value.name, SumBy(sold, QuantityOf), SumBy(sold, SubtotalOf))
  }

  /** `order_items JOIN menu_items JOIN categories GROUP BY mi.menu_item_id`: exactly one group
      per menu item that has order items and whose category exists, with the item's summed
      quantities and subtotals. */
  function SalesOf(ms: seq<MenuItem>, cs: seq<Category>, ois: seq<OrderItem>): (r: seq<ItemSales>)
    ensures |r| == |SoldItems(ms, cs, ois)|
    ensures forall i :: 0 <= i < |r| ==> r[i].item == SoldItems(ms, cs, ois)[i]
    ensures forall x :: x in r ==>
      && x.item in ms && HasCategory(cs, x.item.categoryId)
      && x.category == FindCategory(cs, x.item.categoryId).value.name
      && Select(ois, MenuItemOf, x.item.menuItemId) != []
      && x.totalSold == SumBy(Select(ois, MenuItemOf, x.item.menuItemId), QuantityOf)
      && x.revenue == SumBy(Select(ois, MenuItemOf, x.item.menuItemId), SubtotalOf)
    ensures forall m :: m in ms && HasCategory(cs, m.categoryId) && Select(ois, MenuItemOf, m.menuItemId) != [] ==>
      exists x :: x in r && x.item == m
  {
    var kept := SoldItems(ms, cs, ois);
    var r := seq(|kept|, i requires 0 <= i < |kept| => SalesFor(kept[i], cs, ois));
    assert forall x :: x in r ==> x.item in kept;
    assert forall i :: 0 <= i < |kept| ==> r[i].item == kept[i];
    r
  }

  /** `ORDER BY total_sold DESC`. */
  predicate MoreSold(a: ItemSales, b: ItemSales)
  {
    a.totalSold >= b.totalSold
  }

  lemma MoreSoldOrders()
    ensures Total(MoreSold) && Transitive(MoreSold)
  {
  }

  /** The five best-selling groups (`LIMIT 5`). */
  function TopSales(t: Tables): (r: seq<ItemSales>)
    ensures |r| == Min(|SalesOf(t.menuItems, t.categories, t.orderItems)|, 5)
    ensures multiset(r) <= multiset(SalesOf(t.menuItems, t.categories, t.orderItems))
    ensures forall i, j :: 0 <= i < j < |r| ==> r[i].totalSold >= r[j].totalSold
    ensures forall x :: x in r ==> x in SalesOf(t.menuItems, t.categories, t.orderItems)
  {
    var sales := SalesOf(t.menuItems, t.categories, t.orderItems);
    var sorted := SortBy(sales, MoreSold);
    MoreSoldOrders();
    SortBySorted(sales, MoreSold);
    Limit(sorted, 5)
  }

  /** A group left out of the top five sold no more than any group kept. */
  lemma TopSalesKeepsBest(t: Tables, x: ItemSales)
    requires x in SalesOf(t.menuItems, t.categories, t.orderItems) && x !in TopSales(t)
    ensures forall k :: 0 <= k < |TopSales(t)| ==> TopSales(t)[k].totalSold >= x.totalSold
  {
    var sales := SalesOf(t.menuItems, t.categories, t.orderItems);
    var sorted := SortBy(sales, MoreSold);
    MoreSoldOrders();
    SortBySorted(sales, MoreSold);
    LimitKeepsBest(sorted, 5, MoreSold, x);
  }

  function Project(x: ItemSales): TopItem
  {
    TopItem(x.item.name, x.category, x.totalSold, x.revenue)
  }

  /** topSellingItems: the projected top five. */
  function TopSellingItems(t: Tables): (r: seq<TopItem>)
    ensures |r| == |TopSales(t)|
    ensures |r| == Min(|SalesOf(t.menuItems, t.categories, t.orderItems)|, 5)
    ensures forall i :: 0 <= i < |r| ==> r[i] == Project(TopSales(t)[i])
    ensures forall i, j :: 0 <= i < j < |r| ==> r[i].totalSold >= r[j].totalSold
  {
    var top := TopSales(t);
    var r := seq(|top|, i requires 0 <= i < |top| => Project(top[i]));
    r
  }

  // ---------------------------------------------------------------------------
  // Recent orders

  datatype RecentOrder = RecentOrder(orderId: nat, orderDate: Timestamp, totalAmount: Paise, status: OrderStatus,
                                     customerName: string)

  function RecentRow(o: Order, c: Customer): RecentOrder
  {
    RecentOrder(o.orderId, o.orderDate, o.totalAmount, o.status, c.name)
  }

  /** The orders whose customer exists, in table order. */
  function OrdersWithCustomer(os: seq<Order>, cs: seq<Customer>): (r: seq<Order>)
    ensures forall o :: o in r <==> o in os && HasCustomer(cs, o.customerId)
  {
    if os == [] then []
    else (if HasCustomer(cs, os[0].customerId) then [os[0]] else []) + OrdersWithCustomer(os[1..], cs)
  }

  /** When every order's customer exists (the foreign key), the join keeps every order. */
  lemma {:induction false} AllOrdersHaveCustomers(os: seq<Order>, cs: seq<Customer>)
    requires forall o :: o in os ==> HasCustomer(cs, o.customerId)
    ensures OrdersWithCustomer(os, cs) == os
  {
    if os != [] {
      assert os[0] in os;
      forall o | o in os[1..] ensures HasCustomer(cs, o.customerId) {
        assert o in os;
      }
      AllOrdersHaveCustomers(os[1..], cs);
      assert os == [os[0]] + os[1..];
    }
  }

  /** `orders JOIN customers`: exactly one row per order whose customer exists, with the
      customer's name. */
  function WithCustomers(os: seq<Order>, cs: seq<Customer>): (r: seq<RecentOrder>)
    ensures |r| == |OrdersWithCustomer(os, cs)|
    ensures forall i :: 0 <= i < |r| ==>
      r[i] == RecentRow(OrdersWithCustomer(os, cs)[i], FindCustomer(cs, OrdersWithCustomer(os, cs)[i].customerId).value)
    ensures forall o :: o in os && HasCustomer(cs, o.customerId) ==> RecentRow(o, FindCustomer(cs, o.customerId).value) in r
  {
    var kept := OrdersWithCustomer(os, cs);
    var r := seq(|kept|, i requires 0 <= i < |kept| => RecentRow(kept[i], FindCustomer(cs, kept[i].customerId).value));
    assert forall o :: o in kept ==> RecentRow(o, FindCustomer(cs, o.customerId).value) in r by {
      forall o | o in kept ensures RecentRow(o, FindCustomer(cs, o.customerId).value) in r {
        var i :| 0 <= i < |kept| && kept[i] == o;
        assert r[i] == RecentRow(o, FindCustomer(cs, o.customerId).value);
      }
    }
    r
  }

  /** `ORDER BY o.order_date DESC`. */
  predicate NewerFirst(a: RecentOrder, b: RecentOrder)
  {
    a.orderDate >= b.orderDate
  }

  lemma NewerFirstOrders()
    ensures Total(NewerFirst) && Transitive(NewerFirst)
  {
  }

  /** recentOrders: the ten newest joined orders (`LIMIT 10`). */
  function RecentOrders(t: Tables): (r: seq<RecentOrder>)
    ensures |r| == Min(|OrdersWithCustomer(t.orders, t.customers)|, 10)
    ensures multiset(r) <= multiset(WithCustomers(t.orders, t.customers))
    ensures forall i, j :: 0 <= i < j < |r| ==> r[i].orderDate >= r[j].orderDate
    ensures forall x :: x in r ==> x in WithCustomers(t.orders, t.customers)
  {
    var joined := WithCustomers(t.orders, t.customers);
    var sorted := SortBy(joined, NewerFirst);
    NewerFirstOrders();
    SortBySorted(joined, NewerFirst);
    Limit(sorted, 10)
  }

  /** An order left out of the recent ten is no newer than any order kept, and when there are
      at most ten joined orders none is left out. */
  lemma RecentOrdersKeepsNewest(t: Tables, x: RecentOrder)
    requires x in WithCustomers(t.orders, t.customers)
    ensures x !in RecentOrders(t) ==> forall k :: 0 <= k < |RecentOrders(t)| ==> RecentOrders(t)[k].orderDate >= x.orderDate
    ensures |WithCustomers(t.orders, t.customers)| <= 10 ==> x in RecentOrders(t)
  {
    var joined := WithCustomers(t.orders, t.customers);
    var sorted := SortBy(joined, NewerFirst);
    NewerFirstOrders();
    SortBySorted(joined, NewerFirst);
    if x !in RecentOrders(t) {
      LimitKeepsBest(sorted, 10, NewerFirst, x);
    }
  }

  /** With every order's customer present (the foreign key), recentOrders holds the ten
      newest orders, or all of them when there are at most ten. */
  lemma RecentOrdersCount(t: Tables)
    requires forall o :: o in t.orders ==> HasCustomer(t.customers, o.customerId)
    ensures |RecentOrders(t)| == Min(|t.orders|, 10)
  {
    AllOrdersHaveCustomers(t.orders, t.customers);
  }

  // ---------------------------------------------------------------------------
  // The whole answer

  datatype Dashboard = Dashboard(summary: Summary, ordersByStatus: seq<StatusCount>, topSellingItems: seq<TopItem>,
                                 recentOrders: seq<RecentOrder>, revenueByType: seq<TypeRevenue>)

  /** GET /api/stats. The figures agree with each other: the status counts add up to the
      number of orders, and the per-type revenues to the delivered revenue. */
  function GetStats(t: Tables): (r: Dashboard)
    ensures SumBy(r.ordersByStatus, CountOf) == r.summary.totalOrders
    ensures SumBy(r.revenueByType, RevenueOf) == r.summary.totalRevenue
    ensures |r.topSellingItems| <= 5 && |r.recentOrders| <= 10
  {
    OrdersByStatusRows(t.orders);
    RevenueByTypeTotals(t.orders);
    Dashboard(Summarize(t), OrdersByStatus(t.orders), TopSellingItems(t), RecentOrders(t), RevenueByType(t.orders))
  }
}
