/** The sales dashboard: a six-month sales chart, the total of all paid
    orders, the number of completed orders and the number of customers.
    The orders and users are the collections read in natural order. */
module Dashboard {
  import opened Common
  import opened Domain

  const MonthNames: seq<string> :=
    ["Jan", "Feb", "Mar", "Apr", "May", "Jun", "Jul", "Aug", "Sep", "Oct", "Nov", "Dec"]

  datatype YearMonth = YearMonth(year: int, month: Month)

  function MonthOf(d: Date): YearMonth {
    YearMonth(d.year, d.month)
  }

  /** Months counted from January of year 0; consecutive months have
      consecutive indices across year boundaries. */
  function MonthIndex(ym: YearMonth): int {
    ym.year * 12 + (ym.month - 1)
  }

  /** The month with a given index, as `new Date(year, monthIndex, 1)`
      normalises a month index outside 0..11 into the year before or after. */
  function FromIndex(n: int): (ym: YearMonth)
    ensures MonthIndex(ym) == n
  {
    YearMonth(n / 12, n % 12 + 1)
  }

  lemma FromIndexOfMonthIndex(ym: YearMonth)
    ensures FromIndex(MonthIndex(ym)) == ym
  {
    var n := MonthIndex(ym);
    assert n == ym.year * 12 + (ym.month - 1) && 0 <= ym.month - 1 < 12;
    assert n / 12 == ym.year;
  }

  /** The month `j` months before `now`, with the wrap into the previous
      year written out. */
  lemma MonthsBefore(now: YearMonth, j: int)
    requires 0 <= j < 12
    ensures FromIndex(MonthIndex(now) - j) ==
      if now.month > j then YearMonth(now.year, now.month - j)
      else YearMonth(now.year - 1, now.month - j + 12)
  {
    var expected := if now.month > j then YearMonth(now.year, now.month - j)
                    else YearMonth(now.year - 1, now.month - j + 12);
    assert MonthIndex(expected) == MonthIndex(now) - j;
    FromIndexOfMonthIndex(expected);
  }

  /** One slot of the chart's month list: year, month number and label. */
  datatype MonthEntry = MonthEntry(year: int, month: Month, name: string)

  function EntryFor(ym: YearMonth): MonthEntry {
    MonthEntry(ym.year, ym.month, MonthNames[ym.month - 1])
  }

  function EntryMonth(e: MonthEntry): YearMonth {
    YearMonth(e.year, e.month)
  }

  /** The six months ending with `now`, oldest first. */
  function Window(now: YearMonth): seq<MonthEntry> {
    seq(6, k requires 0 <= k < 6 => EntryFor(FromIndex(MonthIndex(now) - 5 + k)))
  }

  /** Entry `k` of the window is the month `5 - k` months before `now`,
      labelled with its short name. */
  lemma WindowEntry(now: YearMonth, k: nat)
    requires k < 6
    ensures var w := Window(now);
      && w[k] == EntryFor(FromIndex(MonthIndex(now) - 5 + k))
      && w[k].name == MonthNames[w[k].month - 1]
      && EntryMonth(w[k]) == if now.month > 5 - k then YearMonth(now.year, now.month - (5 - k))
                             else YearMonth(now.year - 1, now.month - (5 - k) + 12)
  {
    var ym := FromIndex(MonthIndex(now) - 5 + k);
    assert Window(now)[k] == EntryFor(ym);
    assert EntryMonth(Window(now)[k]) == ym;
    MonthsBefore(now, 5 - k);
    assert MonthIndex(now) - 5 + k == MonthIndex(now) - (5 - k);
  }

  /** The window has six consecutive months, ends at the current month,
      wraps into the previous year when needed, and labels each month with
      its short name. */
  lemma WindowShape(now: YearMonth)
    ensures var w := Window(now);
      && |w| == 6
      && (forall k :: 0 <= k < 6 ==> w[k].name == MonthNames[w[k].month - 1])
      && (forall k :: 0 <= k < 5 ==> MonthIndex(EntryMonth(w[k + 1])) == MonthIndex(EntryMonth(w[k])) + 1)
      && EntryMonth(w[5]) == now
      && (forall k :: 0 <= k < 6 ==>
            EntryMonth(w[k]) == if now.month > 5 - k then YearMonth(now.year, now.month - (5 - k))
                                else YearMonth(now.year - 1, now.month - (5 - k) + 12))
  {
    var w := Window(now);
    forall k | 0 <= k < 6
      ensures w[k].name == MonthNames[w[k].month - 1]
      ensures EntryMonth(w[k]) == if now.month > 5 - k then YearMonth(now.year, now.month - (5 - k))
                                  else YearMonth(now.year - 1, now.month - (5 - k) + 12)
    {
      WindowEntry(now, k);
    }
    forall k | 0 <= k < 5
      ensures MonthIndex(EntryMonth(w[k + 1])) == MonthIndex(EntryMonth(w[k])) + 1
    {
      WindowEntry(now, k);
      WindowEntry(now, k + 1);
    }
    WindowEntry(now, 5);
    FromIndexOfMonthIndex(now);
  }

  /** The loop that builds the month list, `i` running from 5 down to 0. */
  method TrailingMonths(now: YearMonth) returns (months: seq<MonthEntry>)
    ensures months == Window(now)
  {
    months := [];
    var i := 5;
    while i >= 0
      invariant -1 <= i <= 5
      invariant |months| == 5 - i
      invariant forall k :: 0 <= k < |months| ==> months[k] == EntryFor(FromIndex(MonthIndex(now) - 5 + k))
    {
      var date := FromIndex(MonthIndex(now) - i);
      months := months + [MonthEntry(date.year, date.month, MonthNames[date.month - 1])];
      i := i - 1;
    }
  }

  // ----- The aggregation pipeline: $match, then $group by (year, month) -----

  predicate Matches(o: Order, since: int) {
    o.paymentStatus == SUCCESS && MonthIndex(MonthOf(o.date)) >= since
  }

  /** `$match`: paid orders dated in month `since` or later. */
  function MatchStage(orders: seq<Order>, since: int): (r: seq<Order>)
    ensures |r| <= |orders|
    ensures forall k :: 0 <= k < |r| ==> Matches(r[k], since)
  {
    if orders == [] then []
    else (if Matches(orders[0], since) then [orders[0]] else []) + MatchStage(orders[1..], since)
  }

  /** `$match` keeps exactly the matching orders. */
  lemma {:induction false} MatchStageExact(orders: seq<Order>, since: int)
    ensures forall o :: o in MatchStage(orders, since) <==> o in orders && Matches(o, since)
  {
    if orders != [] {
      MatchStageExact(orders[1..], since);
      assert orders == [orders[0]] + orders[1..];
    }
  }

  /** `$sum: '$amount'` over the orders of one month. */
  function MonthSum(orders: seq<Order>, ym: YearMonth): int {
    if orders == [] then 0
    else (if MonthOf(orders[0].date) == ym then orders[0].amount else 0) + MonthSum(orders[1..], ym)
  }

  /** The group keys: each month that has an order, once. */
  function GroupKeys(orders: seq<Order>): (keys: seq<YearMonth>)
    ensures Distinct(keys)
  {
    if orders == [] then []
    else
      var rest := GroupKeys(orders[1..]);
      var ym := MonthOf(orders[0].date);
      if ym in rest then rest
      else
        DistinctCons(ym, rest);
        [ym] + rest
  }

  /** The group keys are exactly the months that have an order. */
  lemma {:induction false} GroupKeysExact(orders: seq<Order>)
    ensures forall ym :: ym in GroupKeys(orders) <==> exists k :: 0 <= k < |orders| && MonthOf(orders[k].date) == ym
  {
    if orders != [] {
      GroupKeysExact(orders[1..]);
      forall ym | (exists k :: 0 <= k < |orders| && MonthOf(orders[k].date) == ym)
        ensures ym in GroupKeys(orders)
      {
        var k :| 0 <= k < |orders| && MonthOf(orders[k].date) == ym;
        if k > 0 {
          assert orders[1..][k - 1] == orders[k];
        }
      }
      forall ym | ym in GroupKeys(orders)
        ensures exists k :: 0 <= k < |orders| && MonthOf(orders[k].date) == ym
      {
        if ym != MonthOf(orders[0].date) {
          var j :| 0 <= j < |orders[1..]| && MonthOf(orders[1..][j].date) == ym;
          assert orders[j + 1] == orders[1..][j];
        }
      }
    }
  }

  datatype Group = Group(key: YearMonth, totalSales: int)

  function GroupsFor(keys: seq<YearMonth>, orders: seq<Order>): seq<Group> {
    if keys == [] then []
    else [Group(keys[0], MonthSum(orders, keys[0]))] + GroupsFor(keys[1..], orders)
  }

  /** `$group` by year and month with the monthly sum. The `$sort` stage
      is not modelled: the chart looks groups up by key. */
  function Aggregation(orders: seq<Order>, since: int): seq<Group> {
    var matched := MatchStage(orders, since);
    GroupsFor(GroupKeys(matched), matched)
  }

  /** `Array.prototype.find` on the group keys. */
  function FindGroup(groups: seq<Group>, ym: YearMonth): Option<Group> {
    if groups == [] then None
    else if groups[0].key == ym then Some(groups[0])
    else FindGroup(groups[1..], ym)
  }

  datatype ChartItem = ChartItem(month: string, sales: int)

  /** `found ? found.totalSales : 0`. */
  function GroupSales(groups: seq<Group>, ym: YearMonth): int {
    match FindGroup(groups, ym)
    case Some(g) => g.totalSales
    case None => 0
  }

  /** Each month of the list with its group's total, or 0 without a group. */
  function ChartData(months: seq<MonthEntry>, groups: seq<Group>): seq<ChartItem> {
    seq(|months|, k requires 0 <= k < |months| => ChartItem(months[k].name, GroupSales(groups, EntryMonth(months[k]))))
  }

  /** The paid sales of one month: the reference the chart is checked against. */
  function SalesIn(orders: seq<Order>, ym: YearMonth): int {
    if orders == [] then 0
    else (if orders[0].paymentStatus == SUCCESS && MonthOf(orders[0].date) == ym then orders[0].amount else 0)
         + SalesIn(orders[1..], ym)
  }

  lemma {:induction false} FindInGroups(keys: seq<YearMonth>, orders: seq<Order>, ym: YearMonth)
    ensures FindGroup(GroupsFor(keys, orders), ym) ==
      if ym in keys then Some(Group(ym, MonthSum(orders, ym))) else None
  {
    if keys != [] {
      FindInGroups(keys[1..], orders, ym);
      assert keys == [keys[0]] + keys[1..];
    }
  }

  lemma {:induction false} NoKeyNoSales(orders: seq<Order>, ym: YearMonth)
    requires ym !in GroupKeys(orders)
    ensures MonthSum(orders, ym) == 0
  {
    if orders != [] {
      NoKeyNoSales(orders[1..], ym);
    }
  }

  lemma {:induction false} MatchedMonthSum(orders: seq<Order>, since: int, ym: YearMonth)
    requires MonthIndex(ym) >= since
    ensures MonthSum(MatchStage(orders, since), ym) == SalesIn(orders, ym)
  {
    if orders != [] {
      MatchedMonthSum(orders[1..], since, ym);
      var head := if Matches(orders[0], since) then [orders[0]] else [];
      var tail := MatchStage(orders[1..], since);
      MonthSumAppend(head, tail, ym);
    }
  }

  lemma {:induction false} MonthSumAppend(a: seq<Order>, b: seq<Order>, ym: YearMonth)
    ensures MonthSum(a + b, ym) == MonthSum(a, ym) + MonthSum(b, ym)
  {
    if a != [] {
      assert (a + b)[1..] == a[1..] + b;
      MonthSumAppend(a[1..], b, ym);
    } else {
      assert a + b == b;
    }
  }

  /** Within the window, the aggregated sales of a month are its paid
      sales, whether or not a group exists for it. */
  lemma AggregationSales(orders: seq<Order>, since: int, ym: YearMonth)
    requires MonthIndex(ym) >= since
    ensures GroupSales(Aggregation(orders, since), ym) == SalesIn(orders, ym)
  {
    var matched := MatchStage(orders, since);
    var keys := GroupKeys(matched);
    FindInGroups(keys, matched, ym);
    MatchedMonthSum(orders, since, ym);
    if ym !in keys {
      NoKeyNoSales(matched, ym);
    }
  }

  /** Chart entry `k` holds the `k`-th window month's name and its paid
      sales. */
  lemma ChartEntry(orders: seq<Order>, now: YearMonth, k: nat)
    requires k < 6
    ensures var since := MonthIndex(now) - 5;
      var ym := FromIndex(since + k);
      ChartData(Window(now), Aggregation(orders, since))[k] == ChartItem(MonthNames[ym.month - 1], SalesIn(orders, ym))
  {
    var since := MonthIndex(now) - 5;
    var ym := FromIndex(since + k);
    WindowEntry(now, k);
    AggregationSales(orders, since, ym);
  }

  /** Each chart month's sales are the paid sales of that month. */
  lemma ChartIsMonthlySales(orders: seq<Order>, now: YearMonth)
    ensures var since := MonthIndex(now) - 5;
      var chart := ChartData(Window(now), Aggregation(orders, since));
      && |chart| == 6
      && forall k :: 0 <= k < 6 ==>
           chart[k] == ChartItem(MonthNames[FromIndex(since + k).month - 1], SalesIn(orders, FromIndex(since + k)))
  {
    var since := MonthIndex(now) - 5;
    var chart := ChartData(Window(now), Aggregation(orders, since));
    forall k | 0 <= k < 6
      ensures chart[k] == ChartItem(MonthNames[FromIndex(since + k).month - 1], SalesIn(orders, FromIndex(since + k)))
    {
      ChartEntry(orders, now, k);
    }
  }

  // ----- The chart's total against a direct sum over the window -----

  function ChartTotal(chart: seq<ChartItem>): int {
    if chart == [] then 0 else ChartTotal(chart[..|chart| - 1]) + chart[|chart| - 1].sales
  }

  /** Paid sales dated in months `lo` to `lo + n - 1`. */
  function SalesBetween(orders: seq<Order>, lo: int, n: nat): int {
    if orders == [] then 0
    else
      var o := orders[0];
      var idx := MonthIndex(MonthOf(o.date));
      (if o.paymentStatus == SUCCESS && lo <= idx < lo + n then o.amount else 0) + SalesBetween(orders[1..], lo, n)
  }

  /** The sum of the monthly sales of months `lo` to `lo + n - 1`. */
  function SumMonths(orders: seq<Order>, lo: int, n: nat): int {
    if n == 0 then 0 else SumMonths(orders, lo, n - 1) + SalesIn(orders, FromIndex(lo + n - 1))
  }

  /** What one order adds to the monthly sums of `n` months. */
  lemma {:induction false} OneOrderAcrossMonths(o: Order, rest: seq<Order>, lo: int, n: nat)
    ensures SumMonths([o] + rest, lo, n) ==
      (if o.paymentStatus == SUCCESS && lo <= MonthIndex(MonthOf(o.date)) < lo + n then o.amount else 0)
      + SumMonths(rest, lo, n)
  {
    if n > 0 {
      OneOrderAcrossMonths(o, rest, lo, n - 1);
      var ym := FromIndex(lo + n - 1);
      assert ([o] + rest)[1..] == rest;
      FromIndexOfMonthIndex(MonthOf(o.date));
      assert MonthOf(o.date) == ym <==> MonthIndex(MonthOf(o.date)) == lo + n - 1;
    }
  }

  lemma {:induction false} SumMonthsIsSalesBetween(orders: seq<Order>, lo: int, n: nat)
    ensures SumMonths(orders, lo, n) == SalesBetween(orders, lo, n)
  {
    if orders == [] {
      ZeroMonths(lo, n);
    } else {
      SumMonthsIsSalesBetween(orders[1..], lo, n);
      assert orders == [orders[0]] + orders[1..];
      OneOrderAcrossMonths(orders[0], orders[1..], lo, n);
    }
  }

  lemma {:induction false} ZeroMonths(lo: int, n: nat)
    ensures SumMonths([], lo, n) == 0
  {
    if n > 0 { ZeroMonths(lo, n - 1); }
  }

  lemma {:induction false} ChartTotalIsSumMonths(chart: seq<ChartItem>, orders: seq<Order>, since: int, n: nat)
    requires n <= |chart|
    requires forall k :: 0 <= k < n ==> chart[k].sales == SalesIn(orders, FromIndex(since + k))
    ensures ChartTotal(chart[..n]) == SumMonths(orders, since, n)
  {
    if n > 0 {
      ChartTotalIsSumMonths(chart, orders, since, n - 1);
      assert chart[..n][..n - 1] == chart[..n - 1];
    }
  }

  /** The six chart values add up to the paid sales of the six months. */
  lemma ChartSumsToWindowSales(orders: seq<Order>, now: YearMonth)
    ensures var since := MonthIndex(now) - 5;
      ChartTotal(ChartData(Window(now), Aggregation(orders, since))) == SalesBetween(orders, since, 6)
  {
    var since := MonthIndex(now) - 5;
    var chart := ChartData(Window(now), Aggregation(orders, since));
    ChartIsMonthlySales(orders, now);
    ChartTotalIsSumMonths(chart, orders, since, 6);
    assert chart[..6] == chart;
    SumMonthsIsSalesBetween(orders, since, 6);
  }

  // ----- Totals and counts -----

  /** The sum of `amount` over all paid orders. */
  function SuccessTotal(orders: seq<Order>): int {
    if orders == [] then 0
    else (if orders[0].paymentStatus == SUCCESS then orders[0].amount else 0) + SuccessTotal(orders[1..])
  }

  predicate HasPaidOrder(orders: seq<Order>) {
    exists k :: 0 <= k < |orders| && orders[k].paymentStatus == SUCCESS
  }

  /** The `$group` with `_id: null`: one document when some order is paid,
      none otherwise. */
  function TotalAggregation(orders: seq<Order>): seq<int> {
    if HasPaidOrder(orders) then [SuccessTotal(orders)] else []
  }

  /** `totalSales[0]?.total || 0`. */
  function SalesCount(totals: seq<int>): int {
    if |totals| > 0 && totals[0] != 0 then totals[0] else 0
  }

  lemma {:induction false} NoPaidOrderNoSales(orders: seq<Order>)
    requires !HasPaidOrder(orders)
    ensures SuccessTotal(orders) == 0
  {
    if orders != [] {
      assert orders[0].paymentStatus != SUCCESS;
      assert !HasPaidOrder(orders[1..]) by {
        forall k | 0 <= k < |orders[1..]| ensures orders[1..][k].paymentStatus != SUCCESS {
          assert orders[1..][k] == orders[k + 1];
        }
      }
      NoPaidOrderNoSales(orders[1..]);
    }
  }

  /** The sales count is the sum over paid orders, and 0 when none is paid. */
  lemma SalesCountIsSuccessTotal(orders: seq<Order>)
    ensures SalesCount(TotalAggregation(orders)) == SuccessTotal(orders)
  {
    if !HasPaidOrder(orders) {
      NoPaidOrderNoSales(orders);
    }
  }

  /** Recording SUCCESS on an order that was not yet paid raises the sales
      total by exactly that order's amount. */
  lemma {:induction false} PaymentRaisesTotal(orders: seq<Order>, k: nat)
    requires k < |orders| && orders[k].paymentStatus != SUCCESS
    ensures SuccessTotal(orders[k := orders[k].(paymentStatus := SUCCESS)]) == SuccessTotal(orders) + orders[k].amount
  {
    var updated := orders[k := orders[k].(paymentStatus := SUCCESS)];
    if k == 0 {
      assert updated[1..] == orders[1..];
    } else {
      PaymentRaisesTotal(orders[1..], k - 1);
      assert updated[1..] == orders[1..][k - 1 := orders[k].(paymentStatus := SUCCESS)];
    }
  }

  /** `countDocuments({status: 'COMPLETED'})`. */
  function CountCompleted(orders: seq<Order>): (n: nat)
    ensures n <= |orders|
    ensures n == |orders| <==> forall k :: 0 <= k < |orders| ==> orders[k].status == COMPLETED
  {
    if orders == [] then 0
    else
      var rest := CountCompleted(orders[1..]);
      assert forall k :: 1 <= k < |orders| ==> orders[k] == orders[1..][k - 1];
      (if orders[0].status == COMPLETED then 1 else 0) + rest
  }

  /** The completed count does not look at payment status. */
  lemma {:induction false} CountCompletedIgnoresPayment(orders: seq<Order>, k: nat, p: PaymentStatus)
    requires k < |orders|
    ensures CountCompleted(orders[k := orders[k].(paymentStatus := p)]) == CountCompleted(orders)
  {
    var updated := orders[k := orders[k].(paymentStatus := p)];
    if k == 0 {
      assert updated[1..] == orders[1..];
    } else {
      CountCompletedIgnoresPayment(orders[1..], k - 1, p);
      assert updated[1..] == orders[1..][k - 1 := orders[k].(paymentStatus := p)];
    }
  }

  /** `countDocuments({role: 'USER'})`. */
  function CountCustomers(users: seq<User>): (n: nat)
    ensures n <= |users|
    ensures n == |users| <==> forall k :: 0 <= k < |users| ==> users[k].role == USER
  {
    if users == [] then 0
    else
      var rest := CountCustomers(users[1..]);
      assert forall k :: 1 <= k < |users| ==> users[k] == users[1..][k - 1];
      (if users[0].role == USER then 1 else 0) + rest
  }

  datatype DashboardData = DashboardData(
    salesCount: int,
    orderCount: nat,
    customerCount: nat,
    chartData: seq<ChartItem>)

  /** What the chart promises: six entries, one per month of the window
      ending at `current`, each with the month's short name and its paid
      sales, adding up to the paid sales of the window. */
  predicate IsMonthlyChart(chart: seq<ChartItem>, orders: seq<Order>, current: YearMonth) {
    && |chart| == 6
    && (forall k :: 0 <= k < 6 ==>
          var ym := FromIndex(MonthIndex(current) - 5 + k);
          chart[k] == ChartItem(MonthNames[ym.month - 1], SalesIn(orders, ym)))
    && ChartTotal(chart) == SalesBetween(orders, MonthIndex(current) - 5, 6)
  }

  /** The chart part of `getDashboardData`: the grouped sales of the
      window, the loop over its six months, and the lookup of each month's
      group. */
  method MonthlyChart(orders: seq<Order>, current: YearMonth) returns (chartData: seq<ChartItem>)
    ensures IsMonthlyChart(chartData, orders, current)
  {
    var since := MonthIndex(current) - 5;
    var orderAggregation := Aggregation(orders, since);
    var months := TrailingMonths(current);
    chartData := ChartData(months, orderAggregation);
    ChartIsMonthlySales(orders, current);
    ChartSumsToWindowSales(orders, current);
  }

  /** `getDashboardData`. The four calls stand for the chart aggregation,
      the total aggregation and the two counts; any failure is an
      InternalError and no dashboard is produced. */
  method GetDashboardData(
    orders: seq<Order>, users: seq<User>, now: Date,
    chartCall: Call, totalCall: Call, completedCall: Call, customersCall: Call)
    returns (r: Result<DashboardData>)
    ensures r.Success? <==>
      chartCall.Succeeds? && totalCall.Succeeds? && completedCall.Succeeds? && customersCall.Succeeds?
    ensures r.Failure? ==> r.error == InternalError
    ensures r.Success? ==>
      && r.value.salesCount == SuccessTotal(orders)
      && r.value.orderCount == CountCompleted(orders)
      && r.value.customerCount == CountCustomers(users)
    ensures r.Success? ==> IsMonthlyChart(r.value.chartData, orders, MonthOf(now))
  {
    var current := MonthOf(now);
    if chartCall.Fails? {
      return Failure(InternalError);
    }
    var chartData := MonthlyChart(orders, current);
    if totalCall.Fails? {
      return Failure(InternalError);
    }
    var totalSales := TotalAggregation(orders);
    if completedCall.Fails? {
      return Failure(InternalError);
    }
    if customersCall.Fails? {
      return Failure(InternalError);
    }
    SalesCountIsSuccessTotal(orders);
    r := Success(DashboardData(SalesCount(totalSales), CountCompleted(orders), CountCustomers(users), chartData));
  }
}
