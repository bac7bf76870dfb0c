/** The service facade over the repository: pass-through of the search and
    export criteria, lookups, whole-row update and delete, and the store-wide
    statistics snapshot. */
module OrderService {
  import opened Options
  import opened Orders
  import opened OrderRepository

  /** The five counters the statistics endpoint reports. CONFIRMED and SHIPPED
      have no counter of their own. */
  datatype OrderStatistics = OrderStatistics(
    totalOrders: nat,
    pendingOrders: nat,
    processingOrders: nat,
    deliveredOrders: nat,
    cancelledOrders: nat)

  /** The number of stored orders in state `st`, counted over the ids. */
  ghost function StoredWithStatus(repo: Repository, st: Status): nat {
    |set k | k in repo.rows && repo.rows[k].status == st|
  }

  /** `getOrderStatistics()`: `count()` and four `countByStatus` calls over the
      whole store, whatever criteria a caller may be searching with. */
  function GetOrderStatistics(repo: Repository): (r: OrderStatistics)
    requires Valid(repo)
    ensures r.totalOrders == |repo.rows|
    ensures r.pendingOrders == StoredWithStatus(repo, PENDING)
    ensures r.processingOrders == StoredWithStatus(repo, PROCESSING)
    ensures r.deliveredOrders == StoredWithStatus(repo, DELIVERED)
    ensures r.cancelledOrders == StoredWithStatus(repo, CANCELLED)
  {
    OrderStatistics(
      |repo.rows|,
      CountByStatus(repo, PENDING),
      CountByStatus(repo, PROCESSING),
      CountByStatus(repo, DELIVERED),
      CountByStatus(repo, CANCELLED))
  }

  /** Over a list of orders: the four tallies never exceed its length and
      reach it exactly when no element is CONFIRMED or SHIPPED. */
  lemma FourBucketsOfList(t: seq<Order>)
    ensures CountStatus(t, PENDING) + CountStatus(t, PROCESSING)
          + CountStatus(t, DELIVERED) + CountStatus(t, CANCELLED) <= |t|
    ensures (CountStatus(t, PENDING) + CountStatus(t, PROCESSING)
          + CountStatus(t, DELIVERED) + CountStatus(t, CANCELLED) == |t|)
      <==> (forall i :: 0 <= i < |t| ==> t[i].status != CONFIRMED && t[i].status != SHIPPED)
  {
    StatusPartition(t);
    CountStatusZero(t, CONFIRMED);
    CountStatusZero(t, SHIPPED);
  }

  /** The four buckets never exceed the total, and they add up to it exactly
      when no stored order is CONFIRMED or SHIPPED. */
  lemma StatisticsBucketsBound(repo: Repository)
    requires Valid(repo)
    ensures var s := GetOrderStatistics(repo);
      s.pendingOrders + s.processingOrders + s.deliveredOrders + s.cancelledOrders <= s.totalOrders
    ensures var s := GetOrderStatistics(repo);
      (s.pendingOrders + s.processingOrders + s.deliveredOrders + s.cancelledOrders == s.totalOrders)
      <==> (forall k :: k in repo.rows ==> repo.rows[k].status != CONFIRMED && repo.rows[k].status != SHIPPED)
  {
    var t := Table(repo);
    FourBucketsOfList(t);
    TableLength(repo);
    ScanIsKeys(repo);
    var none := forall i :: 0 <= i < |t| ==> t[i].status != CONFIRMED && t[i].status != SHIPPED;
    if none {
      forall k | k in repo.rows ensures repo.rows[k].status != CONFIRMED && repo.rows[k].status != SHIPPED {
        var i :| 0 <= i < |repo.scan| && repo.scan[i] == k;
        assert t[i] == repo.rows[k];
      }
    } else {
      var i :| 0 <= i < |t| && (t[i].status == CONFIRMED || t[i].status == SHIPPED);
      var k := repo.scan[i];
      assert k in repo.rows && repo.rows[k] == t[i];
      assert !(repo.rows[k].status != CONFIRMED && repo.rows[k].status != SHIPPED);
      assert CountStatus(t, PENDING) + CountStatus(t, PROCESSING)
           + CountStatus(t, DELIVERED) + CountStatus(t, CANCELLED) != |t|;
    }
  }

  /** `searchOrders(...)`: the criteria reach the repository unchanged. */
  function SearchOrders(repo: Repository, c: Criteria, p: Pageable): (r: Page)
    requires Valid(repo) && p.size >= 1
    ensures r == FindOrdersWithFilters(repo, c, p)
  {
    FindOrdersWithFilters(repo, c, p)
  }

  /** `getOrdersForExport(...)`: the criteria reach the repository unchanged. */
  function GetOrdersForExport(repo: Repository, c: Criteria): (r: seq<Order>)
    requires Valid(repo)
    ensures r == FindOrdersForExport(repo, c)
  {
    FindOrdersForExport(repo, c)
  }
}
