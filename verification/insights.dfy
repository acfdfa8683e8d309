/**
 * The insights engine: aggregate metrics over one business's sales and
 * inventory rows, the endpoints that append each computed metric to the
 * insight log, the read-only comprehensive view, and the per-business listing
 * of the log. Amounts are integer cents; the average sale price is a real.
 */
module Insights {
  import opened Models
  import opened Seqs
  import opened Results

  /** The metric names written to the log and returned by the comprehensive view. */
  const RevenueMetric: string := "total_revenue"
  const ProfitMetric: string := "total_profit"
  const LossesMetric: string := "total_losses"
  const InventoryValueMetric: string := "inventory_value"
  const AverageMetric: string := "average_sales_price"

  /** The tables the insights engine reads and writes. */
  datatype Db = Db(items: seq<Item>, sales: seq<Sale>, insights: seq<Insight>)

  /** The database after a metric endpoint, and the row it appended. */
  datatype Recorded = Recorded(db: Db, row: Insight)

  /** One entry of the comprehensive view. */
  datatype MetricValue = MetricValue(metric: string, value: real)

  /** The three endpoints that log a row. */
  datatype LoggingEndpoint = RevenueEndpoint | ProfitEndpoint | InventoryValueEndpoint

  // ---------------------------------------------------------------------------
  // Row selection and aggregates
  // ---------------------------------------------------------------------------

  /** The WHERE clauses of the metric queries. */
  function SaleOf(b: int): Sale -> bool {
    (s: Sale) => s.businessId == b
  }

  function ItemOf(b: int): Item -> bool {
    (it: Item) => it.businessId == b
  }

  function InsightOf(b: int): Insight -> bool {
    (x: Insight) => x.businessId == b
  }

  /** The join condition: the item is the one the sale names. */
  function Joins(s: Sale): Item -> bool {
    (it: Item) => it.id == s.inventoryId
  }

  /** The summands of the metric queries. */
  function TotalPrice(s: Sale): Cents {
    s.totalPrice
  }

  function StockValue(it: Item): Cents {
    it.quantity * it.pricePerUnit
  }

  function SoldAtUnitPrice(s: Sale): Item -> Cents {
    (it: Item) => s.quantitySold * it.pricePerUnit
  }

  function CostAgainst(items: seq<Item>): Sale -> Cents {
    (s: Sale) => LineCost(s, items)
  }

  function SalesOf(sales: seq<Sale>, b: int): seq<Sale> {
    Filter(sales, SaleOf(b))
  }

  function ItemsOf(items: seq<Item>, b: int): seq<Item> {
    Filter(items, ItemOf(b))
  }

  /** Sum of the charged totals over the business's sales. */
  function Revenue(sales: seq<Sale>, b: int): (r: Cents)
    ensures r == Sum(sales, Masked(SaleOf(b), TotalPrice))
    ensures (forall i :: 0 <= i < |sales| && sales[i].businessId == b ==> sales[i].totalPrice >= 0) ==> r >= 0
  {
    FilterSum(sales, SaleOf(b), TotalPrice);
    Sum(SalesOf(sales, b), TotalPrice)
  }

  /**
   * The cost of one sale under the inner join of sales to inventory: one term
   * `quantitySold * pricePerUnit` per item whose id is the sale's inventory id,
   * whichever business that item belongs to.
   */
  function LineCost(s: Sale, items: seq<Item>): (r: Cents)
    ensures r == Sum(items, Masked(Joins(s), SoldAtUnitPrice(s)))
  {
    FilterSum(items, Joins(s), SoldAtUnitPrice(s));
    Sum(Filter(items, Joins(s)), SoldAtUnitPrice(s))
  }

  /** Cost of goods sold: the joined cost summed over the business's sales. */
  function Cogs(sales: seq<Sale>, items: seq<Item>, b: int): (r: Cents)
    ensures r == Sum(sales, Masked(SaleOf(b), CostAgainst(items)))
  {
    FilterSum(sales, SaleOf(b), CostAgainst(items));
    Sum(SalesOf(sales, b), CostAgainst(items))
  }

  /** Revenue minus the joined cost: the sum, over the business's sales, of what each charged above its cost. */
  function Profit(db: Db, b: int): (r: Cents)
    ensures r == Sum(SalesOf(db.sales, b), Minus(TotalPrice, CostAgainst(db.items)))
  {
    SumDifference(SalesOf(db.sales, b), TotalPrice, CostAgainst(db.items));
    Revenue(db.sales, b) - Cogs(db.sales, db.items, b)
  }

  /** Sum of `quantity * pricePerUnit` over the business's inventory rows. */
  function InventoryValue(items: seq<Item>, b: int): (r: Cents)
    ensures r == Sum(items, Masked(ItemOf(b), StockValue))
    ensures (forall i :: 0 <= i < |items| && items[i].businessId == b ==>
               items[i].quantity >= 0 && items[i].pricePerUnit >= 0) ==> r >= 0
  {
    FilterSum(items, ItemOf(b), StockValue);
    Sum(ItemsOf(items, b), StockValue)
  }

  /** The number of sales the business has. */
  function SaleCount(sales: seq<Sale>, b: int): (r: nat)
    ensures r <= |sales|
    ensures r == 0 <==> forall i :: 0 <= i < |sales| ==> sales[i].businessId != b
  {
    var count := |SalesOf(sales, b)|;
    if forall i :: 0 <= i < |sales| ==> sales[i].businessId != b then
      FilterNone(sales, SaleOf(b));
      count
    else
      SaleCounted(sales, b);
      count
  }

  /** A business with a sale in the table has a sale in its own rows. */
  lemma SaleCounted(sales: seq<Sale>, b: int)
    requires exists i :: 0 <= i < |sales| && sales[i].businessId == b
    ensures |SalesOf(sales, b)| > 0
  {
    var i :| 0 <= i < |sales| && sales[i].businessId == b;
    FilterCounts(sales, SaleOf(b));
    assert sales[i] in multiset(sales);
    assert multiset(SalesOf(sales, b))[sales[i]] > 0;
  }

  /** The loss reported for a profit: its magnitude when negative, nothing otherwise. */
  function Loss(profit: Cents): (r: Cents)
    ensures r >= 0
    ensures r > 0 <==> profit < 0
    ensures r == 0 || profit + r == 0
  {
    if profit < 0 then -profit else 0
  }

  /** `average` times `count` gives `total`, whenever there is something to count. */
  predicate Averages(average: real, count: nat, total: real) {
    count > 0 ==> average * (count as real) == total
  }

  /** Revenue per sale, the sale count replaced by 1 when there are no sales; no rounding. */
  function AverageSalePrice(sales: seq<Sale>, b: int): (r: real)
    ensures SaleCount(sales, b) == 0 ==> r == 0.0
    ensures Averages(r, SaleCount(sales, b), Revenue(sales, b) as real)
  {
    var count := SaleCount(sales, b);
    var denominator := if count == 0 then 1 else count;
    (Revenue(sales, b) as real) / (denominator as real)
  }

  // ---------------------------------------------------------------------------
  // Endpoints
  // ---------------------------------------------------------------------------

  /** Appends one insight row for business `b`. */
  function Record(db: Db, b: int, metric: string, value: Cents, now: Time): (r: Recorded)
    ensures r.row.businessId == b && r.row.metric == metric && r.row.value == value && r.row.recordedAt == now
    ensures |r.db.insights| == |db.insights| + 1
    ensures r.db.insights[..|db.insights|] == db.insights && r.db.insights[|db.insights|] == r.row
    ensures r.db.items == db.items && r.db.sales == db.sales
  {
    var row := Insight(b, metric, value, now);
    Recorded(db.(insights := db.insights + [row]), row)
  }

  /** The revenue endpoint: computes the business's revenue and logs it. */
  function RecordRevenue(db: Db, b: int, now: Time): (r: Recorded)
    ensures r.row.metric == RevenueMetric && r.row.value == Revenue(db.sales, b)
    ensures r.row.businessId == b && r.row.recordedAt == now
    ensures r.db.insights == db.insights + [r.row]
    ensures r.db.items == db.items && r.db.sales == db.sales
  {
    Record(db, b, RevenueMetric, Revenue(db.sales, b), now)
  }

  /** The profit endpoint: revenue minus the joined cost of goods sold, logged. */
  function RecordProfit(db: Db, b: int, now: Time): (r: Recorded)
    ensures r.row.metric == ProfitMetric && r.row.value == Revenue(db.sales, b) - Cogs(db.sales, db.items, b)
    ensures r.row.businessId == b && r.row.recordedAt == now
    ensures r.db.insights == db.insights + [r.row]
    ensures r.db.items == db.items && r.db.sales == db.sales
  {
    Record(db, b, ProfitMetric, Profit(db, b), now)
  }

  /** The inventory-value endpoint: computes the value of the business's stock and logs it. */
  function RecordInventoryValue(db: Db, b: int, now: Time): (r: Recorded)
    ensures r.row.metric == InventoryValueMetric && r.row.value == InventoryValue(db.items, b)
    ensures r.row.businessId == b && r.row.recordedAt == now
    ensures r.db.insights == db.insights + [r.row]
    ensures r.db.items == db.items && r.db.sales == db.sales
  {
    Record(db, b, InventoryValueMetric, InventoryValue(db.items, b), now)
  }

  /**
   * The comprehensive view: five metrics from one snapshot, in a fixed order.
   * It returns no new database: nothing is logged.
   */
  function Comprehensive(db: Db, b: int): (r: seq<MetricValue>)
    ensures |r| == 5
    ensures r[0].metric == RevenueMetric && r[1].metric == ProfitMetric && r[2].metric == LossesMetric
    ensures r[3].metric == InventoryValueMetric && r[4].metric == AverageMetric
    ensures r[2].value >= 0.0 && r[1].value + r[2].value >= 0.0
    ensures r[2].value > 0.0 <==> r[1].value < 0.0
    ensures Averages(r[4].value, SaleCount(db.sales, b), r[0].value)
    ensures SaleCount(db.sales, b) == 0 ==> r[0].value == 0.0 && r[1].value == 0.0 && r[2].value == 0.0 && r[4].value == 0.0
  {
    var profit := Profit(db, b);
    var average := AverageSalePrice(db.sales, b);
    var view := [
      MetricValue(RevenueMetric, Revenue(db.sales, b) as real),
      MetricValue(ProfitMetric, profit as real),
      MetricValue(LossesMetric, Loss(profit) as real),
      MetricValue(InventoryValueMetric, InventoryValue(db.items, b) as real),
      MetricValue(AverageMetric, average) ];
    if SaleCount(db.sales, b) == 0 then NoSalesNoFigures(db, b); view else view
  }

  /** The insight listing: the business's rows of the log, in log order. */
  function ListInsights(log: seq<Insight>, b: int): (r: seq<Insight>)
    ensures forall x :: x in r ==> x.businessId == b
    ensures forall x :: multiset(r)[x] == if x.businessId == b then multiset(log)[x] else 0
  {
    FilterCounts(log, InsightOf(b));
    Filter(log, InsightOf(b))
  }

  // ---------------------------------------------------------------------------
  // Properties
  // ---------------------------------------------------------------------------

  /** A business with no sales has no revenue, cost, profit, loss or average: no division by zero. */
  lemma NoSalesNoFigures(db: Db, b: int)
    requires SaleCount(db.sales, b) == 0
    ensures Revenue(db.sales, b) == 0 && Cogs(db.sales, db.items, b) == 0
    ensures Profit(db, b) == 0 && Loss(Profit(db, b)) == 0
    ensures AverageSalePrice(db.sales, b) == 0.0
  {
  }

  /** A business with no inventory rows has no inventory value. */
  lemma NoItemsNoValue(items: seq<Item>, b: int)
    requires forall it :: it in items ==> it.businessId != b
    ensures InventoryValue(items, b) == 0
  {
    FilterNone(items, ItemOf(b));
  }

  /** A sale whose inventory id names no item costs nothing (the inner join drops it). */
  lemma UnmatchedSaleCostsNothing(s: Sale, items: seq<Item>)
    requires forall it :: it in items ==> it.id != s.inventoryId
    ensures LineCost(s, items) == 0
  {
    FilterNone(items, Joins(s));
  }

  /** The join over rows whose last row carries the sale's id, an id no other row carries. */
  lemma JoinAtLast(s: Sale, items: seq<Item>)
    requires |items| > 0 && items[|items| - 1].id == s.inventoryId
    requires forall j :: 0 <= j < |items| - 1 ==> items[j].id != s.inventoryId
    ensures Filter(items, Joins(s)) == [items[|items| - 1]]
  {
    var n := |items| - 1;
    FilterNone(items[..n], Joins(s));
  }

  /** The join over rows whose last row does not carry the sale's id ignores that row. */
  lemma JoinSkipsLast(s: Sale, items: seq<Item>)
    requires |items| > 0 && items[|items| - 1].id != s.inventoryId
    ensures Filter(items, Joins(s)) == Filter(items[..|items| - 1], Joins(s))
  {
  }

  /** With distinct item ids, the join finds exactly the one item carrying the id. */
  lemma {:induction false} JoinFindsOne(s: Sale, items: seq<Item>, k: nat)
    requires UniqueItemIds(items)
    requires k < |items| && items[k].id == s.inventoryId
    ensures Filter(items, Joins(s)) == [items[k]]
  {
    var n := |items| - 1;
    if k == n {
      JoinAtLast(s, items);
    } else {
      JoinSkipsLast(s, items);
      assert UniqueItemIds(items[..n]);
      JoinFindsOne(s, items[..n], k);
    }
  }

  /** With distinct item ids, a sale costs its quantity times the unit price of the one item it names. */
  lemma MatchedSaleCost(s: Sale, items: seq<Item>, k: nat)
    requires UniqueItemIds(items)
    requires k < |items| && items[k].id == s.inventoryId
    ensures LineCost(s, items) == s.quantitySold * items[k].pricePerUnit
  {
    JoinFindsOne(s, items, k);
    SumSingle(items[k], SoldAtUnitPrice(s));
  }

  /** Adding a sale changes a business's revenue, cost and count only if the sale is its own. */
  lemma AddSale(db: Db, s: Sale, b: int)
    ensures var sales := db.sales + [s];
      && Revenue(sales, b) == Revenue(db.sales, b) + (if s.businessId == b then s.totalPrice else 0)
      && Cogs(sales, db.items, b) == Cogs(db.sales, db.items, b) + (if s.businessId == b then LineCost(s, db.items) else 0)
      && SaleCount(sales, b) == SaleCount(db.sales, b) + (if s.businessId == b then 1 else 0)
  {
  }

  /** Recording a sale for another business leaves every metric of `b` as it was. */
  lemma OtherBusinessSale(db: Db, s: Sale, b: int)
    requires s.businessId != b
    ensures var db' := db.(sales := db.sales + [s]);
      && Revenue(db'.sales, b) == Revenue(db.sales, b)
      && Cogs(db'.sales, db'.items, b) == Cogs(db.sales, db.items, b)
      && Profit(db', b) == Profit(db, b)
      && InventoryValue(db'.items, b) == InventoryValue(db.items, b)
      && AverageSalePrice(db'.sales, b) == AverageSalePrice(db.sales, b)
  {
  }

  /** An item that none of `b`'s sales names adds nothing to `b`'s cost of goods sold. */
  lemma UnreferencedItemCostsNothing(sales: seq<Sale>, items: seq<Item>, it: Item, b: int)
    requires forall s :: s in sales && s.businessId == b ==> s.inventoryId != it.id
    ensures Cogs(sales, items + [it], b) == Cogs(sales, items, b)
  {
    var own := SalesOf(sales, b);
    forall i | 0 <= i < |own| ensures CostAgainst(items + [it])(own[i]) == CostAgainst(items)(own[i]) {
      assert own[i] in own;
      FilterAppend(items, [it], Joins(own[i]));
      FilterNone([it], Joins(own[i]));
    }
    SumPointwise(own, CostAgainst(items + [it]), CostAgainst(items));
  }

  /**
   * Recording an inventory item for another business leaves every metric of `b`
   * as it was, provided none of `b`'s sales names the new item's id.
   */
  lemma OtherBusinessItem(db: Db, it: Item, b: int)
    requires it.businessId != b
    requires forall s :: s in db.sales && s.businessId == b ==> s.inventoryId != it.id
    ensures var db' := db.(items := db.items + [it]);
      && Revenue(db'.sales, b) == Revenue(db.sales, b)
      && Cogs(db'.sales, db'.items, b) == Cogs(db.sales, db.items, b)
      && Profit(db', b) == Profit(db, b)
      && InventoryValue(db'.items, b) == InventoryValue(db.items, b)
      && AverageSalePrice(db'.sales, b) == AverageSalePrice(db.sales, b)
  {
    UnreferencedItemCostsNothing(db.sales, db.items, it, b);
    var items' := db.items + [it];
    assert items'[..|items'| - 1] == db.items;
  }

  /**
   * Nothing ties a sale's business to its item's business: a sale of business 1
   * naming an item of business 2 is charged that item's price in business 1's cost.
   */
  lemma CrossBusinessItemCost()
    ensures var item := Item(7, 2, "router", None, 5, 1000);
      var sale := Sale(1, 1, 7, 2, 2500, 0);
      Cogs([sale], [item], 1) == 2000 && InventoryValue([item], 1) == 0
  {
  }

  /** The metrics do not depend on the order the store returns rows in. */
  lemma RowOrderIrrelevant(db: Db, db': Db, b: int)
    requires multiset(db.sales) == multiset(db'.sales) && multiset(db.items) == multiset(db'.items)
    ensures Revenue(db.sales, b) == Revenue(db'.sales, b)
    ensures Cogs(db.sales, db.items, b) == Cogs(db'.sales, db'.items, b)
    ensures InventoryValue(db.items, b) == InventoryValue(db'.items, b)
    ensures SaleCount(db.sales, b) == SaleCount(db'.sales, b)
  {
    var own, own' := SalesOf(db.sales, b), SalesOf(db'.sales, b);
    FilterPermutation(db.sales, db'.sales, SaleOf(b));
    assert |own| == |multiset(own)| == |multiset(own')| == |own'|;
    SumPermutation(own, own', TotalPrice);
    forall i | 0 <= i < |own'| ensures CostAgainst(db.items)(own'[i]) == CostAgainst(db'.items)(own'[i]) {
      var s := own'[i];
      FilterPermutation(db.items, db'.items, Joins(s));
      SumPermutation(Filter(db.items, Joins(s)), Filter(db'.items, Joins(s)), SoldAtUnitPrice(s));
    }
    SumPermutation(own, own', CostAgainst(db.items));
    SumPointwise(own', CostAgainst(db.items), CostAgainst(db'.items));
    FilterPermutation(db.items, db'.items, ItemOf(b));
    SumPermutation(ItemsOf(db.items, b), ItemsOf(db'.items, b), StockValue);
  }

  /** Two revenue requests with no write in between log two rows with the same value. */
  lemma RepeatedRevenue(db: Db, b: int, t1: Time, t2: Time)
    ensures var first := RecordRevenue(db, b, t1);
      var second := RecordRevenue(first.db, b, t2);
      && second.db.insights == db.insights + [first.row, second.row]
      && first.row.value == second.row.value
      && first.row.recordedAt == t1 && second.row.recordedAt == t2
  {
  }

  /** The same holds of the profit and inventory-value endpoints. */
  lemma RepeatedProfitAndValue(db: Db, b: int, t1: Time, t2: Time)
    ensures var first := RecordProfit(db, b, t1);
      RecordProfit(first.db, b, t2).row.value == first.row.value
    ensures var first := RecordInventoryValue(db, b, t1);
      RecordInventoryValue(first.db, b, t2).row.value == first.row.value
  {
  }

  /** The comprehensive view agrees with what the individual endpoints would log on the same snapshot. */
  lemma ComprehensiveAgrees(db: Db, b: int, now: Time)
    ensures var view := Comprehensive(db, b);
      && view[0].value == RecordRevenue(db, b, now).row.value as real
      && view[1].value == RecordProfit(db, b, now).row.value as real
      && view[2].value == Loss(RecordProfit(db, b, now).row.value) as real
      && view[3].value == RecordInventoryValue(db, b, now).row.value as real
  {
  }

  /** Serves one request to the logging endpoint `e`. */
  function Serve(db: Db, e: LoggingEndpoint, b: int, now: Time): (r: Recorded)
    ensures r.row.businessId == b && r.row.recordedAt == now
    ensures r.db.insights == db.insights + [r.row]
    ensures r.db.items == db.items && r.db.sales == db.sales
  {
    match e
    case RevenueEndpoint => RecordRevenue(db, b, now)
    case ProfitEndpoint => RecordProfit(db, b, now)
    case InventoryValueEndpoint => RecordInventoryValue(db, b, now)
  }

  /** Logging a metric for `b` adds exactly that row to `b`'s listing and nothing to any other business's. */
  lemma RecordShowsInListing(db: Db, e: LoggingEndpoint, b: int, c: int, now: Time)
    requires c != b
    ensures var r := Serve(db, e, b, now);
      && ListInsights(r.db.insights, b) == ListInsights(db.insights, b) + [r.row]
      && ListInsights(r.db.insights, c) == ListInsights(db.insights, c)
  {
    var r := Serve(db, e, b, now);
    FilterAppend(db.insights, [r.row], InsightOf(b));
    FilterAppend(db.insights, [r.row], InsightOf(c));
    assert [r.row][..0] == [];
  }

  /** The figures of one sale against one inventory item of the same business. */
  lemma OneSaleFigures(item: Item, s: Sale)
    requires item.businessId == s.businessId && item.id == s.inventoryId
    ensures var db := Db([item], [s], []);
      && Revenue(db.sales, s.businessId) == s.totalPrice
      && Cogs(db.sales, db.items, s.businessId) == s.quantitySold * item.pricePerUnit
      && InventoryValue(db.items, s.businessId) == item.quantity * item.pricePerUnit
      && SaleCount(db.sales, s.businessId) == 1
  {
    assert [item][..0] == [] && [s][..0] == [];
    assert ItemsOf([item], s.businessId) == [item];
    assert SalesOf([s], s.businessId) == [s];
    SumSingle(item, StockValue);
    MatchedSaleCost(s, [item], 0);
    SumSingle(s, TotalPrice);
    SumSingle(s, CostAgainst([item]));
  }

  /**
   * A worked example: one item worth 10.00 with 5 in stock, and one sale of 2
   * units charged 25.00.
   */
  lemma ProfitableExample()
    ensures var db := Db([Item(1, 1, "widget", None, 5, 1000)], [Sale(1, 1, 1, 2, 2500, 0)], []);
      Comprehensive(db, 1) == [
        MetricValue(RevenueMetric, 2500.0), MetricValue(ProfitMetric, 500.0), MetricValue(LossesMetric, 0.0),
        MetricValue(InventoryValueMetric, 5000.0), MetricValue(AverageMetric, 2500.0)]
  {
    OneSaleFigures(Item(1, 1, "widget", None, 5, 1000), Sale(1, 1, 1, 2, 2500, 0));
  }

  /** The same item sold at 10.00 for both units: a loss of 10.00. */
  lemma LossExample()
    ensures var db := Db([Item(1, 1, "widget", None, 5, 1000)], [Sale(1, 1, 1, 2, 1000, 0)], []);
      Profit(db, 1) == -1000 && Loss(Profit(db, 1)) == 1000
  {
    OneSaleFigures(Item(1, 1, "widget", None, 5, 1000), Sale(1, 1, 1, 2, 1000, 0));
  }
}
