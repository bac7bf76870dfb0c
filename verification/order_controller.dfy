/** The `/api/orders` handlers that do more than wrap a service result: the
    not-found mapping of the two lookups, the existence guards in front of
    update and delete, and the page request of the search endpoint. A handler
    that changes the store returns the new store with its response. */
module OrderController {
  import opened Options
  import opened Http
  import opened Orders
  import opened OrderRepository
  import OrderService

  /** The store after a request, and the response sent for it. */
  datatype Handled<+T> = Handled(repo: Repository, response: Response<T>)

  /** `GET /api/orders/{id}`. */
  function GetOrderById(repo: Repository, id: int): (r: Response<Order>)
    ensures r.Ok? <==> id in repo.rows
    ensures r.Ok? ==> r.body == repo.rows[id]
    ensures !r.Ok? ==> r == NotFound
  {
    match FindById(repo, id)
    case Some(o) => Ok(o)
    case None => NotFound
  }

  /** `GET /api/orders/number/{orderNumber}`. A stored order number that is
      not unique makes the repository call fail, which surfaces as a server
      error. */
  function GetOrderByNumber(repo: Repository, orderNumber: string): (r: Response<Order>)
    requires Valid(repo)
    ensures r.Ok? <==> |IdsWithNumber(repo, orderNumber)| == 1
    ensures r == NotFound <==> |IdsWithNumber(repo, orderNumber)| == 0
    ensures r.ServerError? <==> |IdsWithNumber(repo, orderNumber)| > 1
    ensures r.Ok? ==> r.body in Table(repo) && r.body.orderNumber == orderNumber
    ensures r == NotFound ==>
      forall i :: 0 <= i < |Table(repo)| ==> Table(repo)[i].orderNumber != orderNumber
    ensures r.Ok? || r == NotFound || r.ServerError?
  {
    match FindByOrderNumber(repo, orderNumber)
    case Success(Some(o)) => Ok(o)
    case Success(None) => NotFound
    case Failure(e) => ServerError(e)
  }

  /** `GET /api/orders/search`: builds the page request (which rejects a
      negative page or a size below one) and forwards the five criteria. */
  function SearchOrders(repo: Repository, c: Criteria, page: int, size: int): (r: Response<Page>)
    requires Valid(repo)
    ensures r.Ok? <==> page >= 0 && size >= 1
    ensures r.Ok? ==> r.body.totalElements == |FindOrdersForExport(repo, c)|
    ensures r.Ok? ==> r.body.number == page && r.body.size == size
    ensures r.Ok? ==> r.body.totalPages == PageCount(|FindOrdersForExport(repo, c)|, size)
    ensures r.Ok? ==> |r.body.content| == PageLength(|FindOrdersForExport(repo, c)|, page, size)
    ensures r.Ok? ==> IsSliceAt(r.body.content, FindOrdersForExport(repo, c), page * size)
    ensures !r.Ok? ==> r.ServerError?
  {
    match PageRequestOf(page, size)
    case Failure(e) => ServerError(e)
    case Success(p) => Ok(OrderService.SearchOrders(repo, c, p))
  }

  /** `PUT /api/orders/{id}`: an unknown id is answered with not-found and
      nothing is written; otherwise the body, with its id replaced by the
      path id, overwrites the stored row and is returned. */
  function UpdateOrder(repo: Repository, id: int, body: Order): (r: Handled<Order>)
    requires Valid(repo)
    ensures Valid(r.repo)
    ensures r.response.Ok? <==> id in repo.rows
    ensures !r.response.Ok? ==> r.response == NotFound && r.repo == repo
    ensures r.response.Ok? ==>
      && r.response.body.id == Some(id)
      && r.response.body.(id := body.id) == body
      && r.repo.rows.Keys == repo.rows.Keys
      && r.repo.rows[id] == r.response.body
      && (forall k :: k in repo.rows && k != id ==> r.repo.rows[k] == repo.rows[k])
  {
    match FindById(repo, id)
    case None => Handled(repo, NotFound)
    case Some(_) =>
      var stored := body.(id := Some(id));
      Handled(Replace(repo, stored), Ok(stored))
  }

  /** `DELETE /api/orders/{id}`: an unknown id is answered with not-found and
      nothing is removed; otherwise exactly that row goes. */
  function DeleteOrder(repo: Repository, id: int): (r: Handled<()>)
    requires Valid(repo)
    ensures Valid(r.repo)
    ensures r.response.Ok? <==> id in repo.rows
    ensures !r.response.Ok? ==> r.response == NotFound && r.repo == repo
    ensures r.response.Ok? ==> r.repo.rows.Keys == repo.rows.Keys - {id}
    ensures forall k :: k in r.repo.rows ==> k in repo.rows && r.repo.rows[k] == repo.rows[k]
  {
    match FindById(repo, id)
    case None => Handled(repo, NotFound)
    case Some(_) => Handled(DeleteById(repo, id), Ok(()))
  }

  /** Reading an order back after updating it yields the stored body. */
  lemma UpdateThenGet(repo: Repository, id: int, body: Order)
    requires Valid(repo) && id in repo.rows
    ensures GetOrderById(UpdateOrder(repo, id, body).repo, id) == Ok(body.(id := Some(id)))
  {
  }

  /** An update reaches no other order. */
  lemma UpdateLeavesOthers(repo: Repository, id: int, body: Order, k: int)
    requires Valid(repo) && k != id
    ensures GetOrderById(UpdateOrder(repo, id, body).repo, k) == GetOrderById(repo, k)
  {
  }

  /** Sending the same update twice leaves the store as sending it once. */
  lemma UpdateIdempotent(repo: Repository, id: int, body: Order)
    requires Valid(repo)
    ensures var once := UpdateOrder(repo, id, body);
      UpdateOrder(once.repo, id, body) == once
  {
    var once := UpdateOrder(repo, id, body);
    if id in repo.rows {
      assert once.repo.rows[id := body.(id := Some(id))] == once.repo.rows;
    }
  }

  /** After a delete the id is gone, and a second delete is answered with
      not-found. */
  lemma DeleteThenGet(repo: Repository, id: int)
    requires Valid(repo)
    ensures var after := DeleteOrder(repo, id).repo;
      GetOrderById(after, id) == NotFound && DeleteOrder(after, id) == Handled(after, NotFound)
  {
  }

  /** A delete reaches no other order. */
  lemma DeleteLeavesOthers(repo: Repository, id: int, k: int)
    requires Valid(repo) && k != id
    ensures GetOrderById(DeleteOrder(repo, id).repo, k) == GetOrderById(repo, k)
  {
  }
}
