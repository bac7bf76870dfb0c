/** The frontend's order store: the list page it shows, the search filters it
    keeps, and the actions that call the HTTP API and fold the replies into
    the state. Each action is one sequential step; the API is a parameter
    whose replies (a value, or a rejected promise) the model does not choose. */
module OrderStore {
  import opened Options
  import opened Orders
  import OrderService

  // ---------------------------------------------------------------------------
  // Search parameters: a plain object, merged with the spread operator
  // ---------------------------------------------------------------------------

  /** The properties an `OrderSearchParams` object may carry. */
  datatype Key = OrderNumber | CustomerName | StatusKey | StartDate | EndDate | PageKey | SizeKey

  /** A property value as the store holds it: a string, a number, or an own
      property explicitly set to `undefined`. */
  datatype Value = Str(s: string) | Num(n: int) | Undefined

  /** An object as its own properties; a key outside the map is absent. */
  type SearchParams = map<Key, Value>

  /** JavaScript truthiness of a property value. */
  predicate Truthy(v: Value) {
    match v
    case Str(s) => s != ""
    case Num(n) => n != 0
    case Undefined => false
  }

  /** `Object.values(params).some(v => v)`. */
  predicate HasActiveFilter(params: SearchParams) {
    exists k | k in params :: Truthy(params[k])
  }

  /** The five filters, all empty: the initial value and the value after a reset. */
  const EmptySearchParams: SearchParams :=
    map[OrderNumber := Str(""), CustomerName := Str(""), StatusKey := Str(""),
        StartDate := Str(""), EndDate := Str("")]

  /** `{ ...current, ...update }`: the update's own properties win, every
      other property keeps its value, and no property is dropped. */
  function MergeParams(current: SearchParams, update: SearchParams): (r: SearchParams)
    ensures r.Keys == current.Keys + update.Keys
    ensures forall k :: k in update ==> r[k] == update[k]
    ensures forall k :: k in current && k !in update ==> r[k] == current[k]
  {
    current + update
  }

  /** Merging an empty update changes nothing; merging two updates one after
      the other is merging their own merge once. */
  lemma MergeParamsLaws(a: SearchParams, p: SearchParams, q: SearchParams)
    ensures MergeParams(a, map[]) == a
    ensures MergeParams(MergeParams(a, p), q) == MergeParams(a, MergeParams(p, q))
  {
  }

  /** The empty filters are not an active filter. */
  lemma EmptySearchParamsInactive()
    ensures !HasActiveFilter(EmptySearchParams)
  {
    forall k | k in EmptySearchParams ensures !Truthy(EmptySearchParams[k]) {
    }
  }

  /** A truthy property in an update makes the merged filter active; an
      update whose properties are all falsy keeps an inactive filter inactive. */
  lemma MergeActivates(current: SearchParams, update: SearchParams)
    ensures HasActiveFilter(update) ==> HasActiveFilter(MergeParams(current, update))
    ensures !HasActiveFilter(current) && !HasActiveFilter(update) ==> !HasActiveFilter(MergeParams(current, update))
  {
    var m := MergeParams(current, update);
    if HasActiveFilter(update) {
      var k :| k in update && Truthy(update[k]);
      assert k in m && Truthy(m[k]);
    }
    if !HasActiveFilter(current) && !HasActiveFilter(update) {
      forall k | k in m ensures !Truthy(m[k]) {
        if k in update {
          assert m[k] == update[k];
        } else {
          assert m[k] == current[k];
        }
      }
    }
  }

  // ---------------------------------------------------------------------------
  // State and replies
  // ---------------------------------------------------------------------------

  /** The JSON of a Spring `Page` as the store reads it. */
  datatype PageResponse = PageResponse(
    content: seq<Order>,
    totalElements: int,
    totalPages: int,
    size: int,
    number: int)

  datatype StoreState = StoreState(
    orders: seq<Order>,
    currentOrder: Option<Order>,
    statistics: Option<OrderService.OrderStatistics>,
    loading: bool,
    error: Option<string>,
    currentPage: int,
    pageSize: int,
    totalElements: int,
    totalPages: int,
    searchParams: SearchParams)

  /** The store as created: no data, page 0 of size 10, empty filters. */
  const InitialState: StoreState :=
    StoreState([], None, None, false, None, 0, 10, 0, 0, EmptySearchParams)

  /** A settled promise: the reply, or the rejection reason. */
  type Reply<T> = Result<T, string>

  /** The HTTP client, one function per endpoint the store calls. */
  datatype Api = Api(
    getOrders: (int, int) -> Reply<PageResponse>,
    searchOrders: SearchParams -> Reply<PageResponse>,
    getOrderById: int -> Reply<Order>,
    getOrderByNumber: string -> Reply<Order>,
    getOrderStatistics: Reply<OrderService.OrderStatistics>,
    createOrder: Order -> Reply<Order>,
    updateOrder: (int, Order) -> Reply<Order>,
    deleteOrder: int -> Reply<()>)

  /** An action's final state and the value its promise resolves to. */
  datatype Outcome<+T> = Outcome(state: StoreState, value: T)

  const FetchOrdersError := "Failed to fetch orders"
  const SearchOrdersError := "Failed to search orders"
  const FetchOrderError := "Failed to fetch order details"
  const OrderNotFoundError := "Order not found"
  const CreateOrderError := "Failed to create order"
  const UpdateOrderError := "Failed to update order"
  const DeleteOrderError := "Failed to delete order"

  /** `setOrders(response)`: the page's content and its four counters;
      loading, error, the current order, statistics and filters are kept. */
  function SetOrders(s: StoreState, response: PageResponse): (r: StoreState)
    ensures r.orders == response.content
    ensures r.totalElements == response.totalElements && r.totalPages == response.totalPages
    ensures r.currentPage == response.number && r.pageSize == response.size
    ensures r.loading == s.loading && r.error == s.error
    ensures r.currentOrder == s.currentOrder && r.statistics == s.statistics
    ensures r.searchParams == s.searchParams
  {
    s.(orders := response.content,
       totalElements := response.totalElements,
       totalPages := response.totalPages,
       currentPage := response.number,
       pageSize := response.size)
  }

  /** Loading a page twice is loading it once: only the last response shows. */
  lemma SetOrdersLastWins(s: StoreState, a: PageResponse, b: PageResponse)
    ensures SetOrders(SetOrders(s, a), b) == SetOrders(s, b)
  {
  }

  /** `updateSearchParams(params)`. */
  function UpdateSearchParams(s: StoreState, update: SearchParams): (r: StoreState)
    ensures r.searchParams == MergeParams(s.searchParams, update)
    ensures r.(searchParams := s.searchParams) == s
  {
    s.(searchParams := MergeParams(s.searchParams, update))
  }

  /** `clearSearchParams()`: all five filters back to `''`, whatever was set
      before (including a page or size merged in). */
  function ClearSearchParams(s: StoreState): (r: StoreState)
    ensures r.searchParams.Keys == {OrderNumber, CustomerName, StatusKey, StartDate, EndDate}
    ensures forall k :: k in r.searchParams ==> r.searchParams[k] == Str("")
    ensures !HasActiveFilter(r.searchParams)
    ensures r.(searchParams := s.searchParams) == s
  {
    EmptySearchParamsInactive();
    s.(searchParams := EmptySearchParams)
  }

  /** A reset undoes any sequence of updates. */
  lemma ClearAfterUpdate(s: StoreState, update: SearchParams)
    ensures ClearSearchParams(UpdateSearchParams(s, update)) == ClearSearchParams(s)
  {
  }

  // ---------------------------------------------------------------------------
  // Actions
  // ---------------------------------------------------------------------------

  /** Entry of every loading action: `setLoading(true)` and `clearError()`. */
  function Begin(s: StoreState): StoreState {
    s.(loading := true, error := None)
  }

  /** `fetchOrders(page, size)`: the reply's page on success; on a rejection
      the fetch error, the data left as it was. */
  function FetchOrders(s: StoreState, api: Api, page: int, size: int): (r: StoreState)
    ensures !r.loading
    ensures r.error == None <==> api.getOrders(page, size).Success?
    ensures api.getOrders(page, size).Success? ==> r == SetOrders(s, api.getOrders(page, size).value).(loading := false, error := None)
    ensures api.getOrders(page, size).Failure? ==> r == s.(loading := false, error := Some(FetchOrdersError))
  {
    var s1 := Begin(s);
    match api.getOrders(page, size)
    case Success(response) => SetOrders(s1, response).(loading := false)
    case Failure(_) => s1.(error := Some(FetchOrdersError), loading := false)
  }

  /** `searchOrders(params)` as written. With an argument the argument is
      sent. Without one the fallback object reads `searchParams.value`, but
      the name `searchParams` there is the block's own `const` being
      declared, still uninitialised: the read throws before any request is
      made and the catch branch stores the search error. */
  function SearchOrdersAsWritten(s: StoreState, api: Api, params: Option<SearchParams>): (r: StoreState)
    ensures !r.loading
    ensures params.None? ==> r == s.(loading := false, error := Some(SearchOrdersError))
    ensures params.Some? ==> (r.error == None <==> api.searchOrders(params.value).Success?)
  {
    var s1 := Begin(s);
    match params
    case None => s1.(error := Some(SearchOrdersError), loading := false)
    case Some(p) =>
      match api.searchOrders(p)
      case Success(response) => SetOrders(s1, response).(loading := false)
      case Failure(_) => s1.(error := Some(SearchOrdersError), loading := false)
  }

  /** Calling it without an argument never reaches the server: whatever the
      server would have answered, the result is the search error with the
      list unchanged. */
  lemma SearchWithoutArgumentAlwaysFails(s: StoreState, api: Api, api2: Api)
    ensures SearchOrdersAsWritten(s, api, None) == SearchOrdersAsWritten(s, api2, None)
    ensures SearchOrdersAsWritten(s, api, None).error == Some(SearchOrdersError)
    ensures SearchOrdersAsWritten(s, api, None).orders == s.orders
  {
  }

  /** The request the fallback was meant to build: the store's filters with
      the current page and page size merged in. */
  function StoredSearchRequest(s: StoreState): (p: SearchParams)
    ensures p.Keys == s.searchParams.Keys + {PageKey, SizeKey}
    ensures p[PageKey] == Num(s.currentPage) && p[SizeKey] == Num(s.pageSize)
    ensures forall k :: k in s.searchParams && k != PageKey && k != SizeKey ==> p[k] == s.searchParams[k]
  {
    MergeParams(s.searchParams, map[PageKey := Num(s.currentPage), SizeKey := Num(s.pageSize)])
  }

  /** `searchOrders(params)` with the fallback reading the store's filters
      (the outer binding), as evidently intended. */
  function SearchOrders(s: StoreState, api: Api, params: Option<SearchParams>): (r: StoreState)
    ensures !r.loading
    ensures var request := if params.Some? then params.value else StoredSearchRequest(s);
      && (r.error == None <==> api.searchOrders(request).Success?)
      && (api.searchOrders(request).Success? ==> r == SetOrders(s, api.searchOrders(request).value).(loading := false, error := None))
      && (api.searchOrders(request).Failure? ==> r == s.(loading := false, error := Some(SearchOrdersError)))
  {
    var s1 := Begin(s);
    var request := match params case Some(p) => p case None => StoredSearchRequest(s);
    match api.searchOrders(request)
    case Success(response) => SetOrders(s1, response).(loading := false)
    case Failure(_) => s1.(error := Some(SearchOrdersError), loading := false)
  }

  /** The two agree whenever an argument is passed; without one the
      corrected search shows the server's page for the stored filters. */
  lemma SearchOrdersCorrection(s: StoreState, api: Api, params: Option<SearchParams>)
    ensures params.Some? ==> SearchOrdersAsWritten(s, api, params) == SearchOrders(s, api, params)
    ensures params.None? && api.searchOrders(StoredSearchRequest(s)).Success? ==>
      SearchOrders(s, api, params).error == None
      && SearchOrders(s, api, params).orders == api.searchOrders(StoredSearchRequest(s)).value.content
  {
  }

  /** `fetchOrderById(id)`: the order becomes the current order and is
      returned; on a rejection the detail error and `null`. */
  function FetchOrderById(s: StoreState, api: Api, id: int): (r: Outcome<Option<Order>>)
    ensures !r.state.loading
    ensures r.value.Some? <==> api.getOrderById(id).Success?
    ensures r.value.Some? ==>
      (r.value.value == api.getOrderById(id).value && r.state == s.(currentOrder := r.value, loading := false, error := None))
    ensures r.value.None? ==> r.state == s.(loading := false, error := Some(FetchOrderError))
  {
    var s1 := Begin(s);
    match api.getOrderById(id)
    case Success(o) => Outcome(s1.(currentOrder := Some(o), loading := false), Some(o))
    case Failure(_) => Outcome(s1.(error := Some(FetchOrderError), loading := false), None)
  }

  /** `fetchOrderByNumber(orderNumber)`: as by id, with the not-found error. */
  function FetchOrderByNumber(s: StoreState, api: Api, orderNumber: string): (r: Outcome<Option<Order>>)
    ensures !r.state.loading
    ensures r.value.Some? <==> api.getOrderByNumber(orderNumber).Success?
    ensures r.value.Some? ==>
      (r.value.value == api.getOrderByNumber(orderNumber).value && r.state == s.(currentOrder := r.value, loading := false, error := None))
    ensures r.value.None? ==> r.state == s.(loading := false, error := Some(OrderNotFoundError))
  {
    var s1 := Begin(s);
    match api.getOrderByNumber(orderNumber)
    case Success(o) => Outcome(s1.(currentOrder := Some(o), loading := false), Some(o))
    case Failure(_) => Outcome(s1.(error := Some(OrderNotFoundError), loading := false), None)
  }

  /** `fetchStatistics()`: neither loading nor error is touched; a rejection
      leaves the whole state as it was. */
  function FetchStatistics(s: StoreState, api: Api): (r: StoreState)
    ensures r.loading == s.loading && r.error == s.error
    ensures api.getOrderStatistics.Success? ==> r == s.(statistics := Some(api.getOrderStatistics.value))
    ensures api.getOrderStatistics.Failure? ==> r == s
  {
    match api.getOrderStatistics
    case Success(stats) => s.(statistics := Some(stats))
    case Failure(_) => s
  }

  /** After a successful write the list is refreshed with the page and size
      the store shows; a failed refresh leaves its own error behind while
      the write still reports success. */
  function Refresh(s: StoreState, api: Api): (r: StoreState)
    ensures !r.loading
    ensures r.error == None <==> api.getOrders(s.currentPage, s.pageSize).Success?
    ensures api.getOrders(s.currentPage, s.pageSize).Success? ==>
      r == SetOrders(s, api.getOrders(s.currentPage, s.pageSize).value).(loading := false, error := None)
    ensures api.getOrders(s.currentPage, s.pageSize).Failure? ==>
      r == s.(loading := false, error := Some(FetchOrdersError))
  {
    FetchOrders(s, api, s.currentPage, s.pageSize).(loading := false)
  }

  /** `createOrder(orderData)`. */
  function CreateOrder(s: StoreState, api: Api, data: Order): (r: Outcome<Option<Order>>)
    ensures !r.state.loading
    ensures r.value.Some? <==> api.createOrder(data).Success?
    ensures r.value.Some? ==>
      (r.value.value == api.createOrder(data).value && r.state == Refresh(s, api))
    ensures r.value.None? ==> r.state == s.(loading := false, error := Some(CreateOrderError))
  {
    var s1 := Begin(s);
    match api.createOrder(data)
    case Success(created) => Outcome(Refresh(s1, api), Some(created))
    case Failure(_) => Outcome(s1.(error := Some(CreateOrderError), loading := false), None)
  }

  /** `updateOrder(id, orderData)`. */
  function UpdateOrder(s: StoreState, api: Api, id: int, data: Order): (r: Outcome<Option<Order>>)
    ensures !r.state.loading
    ensures r.value.Some? <==> api.updateOrder(id, data).Success?
    ensures r.value.Some? ==>
      (r.value.value == api.updateOrder(id, data).value && r.state == Refresh(s, api))
    ensures r.value.None? ==> r.state == s.(loading := false, error := Some(UpdateOrderError))
  {
    var s1 := Begin(s);
    match api.updateOrder(id, data)
    case Success(updated) => Outcome(Refresh(s1, api), Some(updated))
    case Failure(_) => Outcome(s1.(error := Some(UpdateOrderError), loading := false), None)
  }

  /** `deleteOrder(id)`: `true` exactly when the server accepted it. */
  function DeleteOrder(s: StoreState, api: Api, id: int): (r: Outcome<bool>)
    ensures !r.state.loading
    ensures r.value <==> api.deleteOrder(id).Success?
    ensures r.value ==> r.state == Refresh(s, api)
    ensures !r.value ==> r.state == s.(loading := false, error := Some(DeleteOrderError))
  {
    var s1 := Begin(s);
    match api.deleteOrder(id)
    case Success(_) => Outcome(Refresh(s1, api), true)
    case Failure(_) => Outcome(s1.(error := Some(DeleteOrderError), loading := false), false)
  }

  /** `changePage(page)` as written: the page is set first; with an active
      filter the search runs without an argument, which fails before any
      request is made, otherwise that page is fetched. */
  function ChangePage(s: StoreState, api: Api, page: int): (r: StoreState)
    ensures !r.loading
    ensures HasActiveFilter(s.searchParams) ==>
      r == s.(currentPage := page, loading := false, error := Some(SearchOrdersError))
    ensures !HasActiveFilter(s.searchParams) ==> r == FetchOrders(s.(currentPage := page), api, page, s.pageSize)
  {
    var s1 := s.(currentPage := page);
    if HasActiveFilter(s1.searchParams) then SearchOrdersAsWritten(s1, api, None)
    else FetchOrders(s1, api, page, s1.pageSize)
  }

  /** `changePageSize(size)` as written: the size is set and the page reset
      to 0 before the same dispatch. */
  function ChangePageSize(s: StoreState, api: Api, size: int): (r: StoreState)
    ensures !r.loading
    ensures HasActiveFilter(s.searchParams) ==>
      r == s.(pageSize := size, currentPage := 0, loading := false, error := Some(SearchOrdersError))
    ensures !HasActiveFilter(s.searchParams) ==> r == FetchOrders(s.(pageSize := size, currentPage := 0), api, 0, size)
  {
    var s1 := s.(pageSize := size, currentPage := 0);
    if HasActiveFilter(s1.searchParams) then SearchOrdersAsWritten(s1, api, None)
    else FetchOrders(s1, api, 0, size)
  }

  /** As written, page navigation under an active filter never reaches the
      server: whatever it would answer, both actions end in the search error
      with the old list kept and the requested page and size recorded. */
  lemma ChangePageWithFilterFailsAsWritten(s: StoreState, api: Api, api2: Api, page: int, size: int)
    requires HasActiveFilter(s.searchParams)
    ensures ChangePage(s, api, page) == ChangePage(s, api2, page)
    ensures ChangePageSize(s, api, size) == ChangePageSize(s, api2, size)
    ensures var r := ChangePage(s, api, page);
      r.error == Some(SearchOrdersError) && r.orders == s.orders && r.currentPage == page
    ensures var r := ChangePageSize(s, api, size);
      r.error == Some(SearchOrdersError) && r.orders == s.orders && r.currentPage == 0 && r.pageSize == size
  {
  }

  /** `changePage(page)` with the corrected search. */
  function ChangePageCorrected(s: StoreState, api: Api, page: int): (r: StoreState)
    ensures !r.loading
    ensures HasActiveFilter(s.searchParams) ==> r == SearchOrders(s.(currentPage := page), api, None)
    ensures !HasActiveFilter(s.searchParams) ==> r == FetchOrders(s.(currentPage := page), api, page, s.pageSize)
  {
    var s1 := s.(currentPage := page);
    if HasActiveFilter(s1.searchParams) then SearchOrders(s1, api, None)
    else FetchOrders(s1, api, page, s1.pageSize)
  }

  /** `changePageSize(size)` with the corrected search. */
  function ChangePageSizeCorrected(s: StoreState, api: Api, size: int): (r: StoreState)
    ensures !r.loading
    ensures HasActiveFilter(s.searchParams) ==> r == SearchOrders(s.(pageSize := size, currentPage := 0), api, None)
    ensures !HasActiveFilter(s.searchParams) ==> r == FetchOrders(s.(pageSize := size, currentPage := 0), api, 0, size)
  {
    var s1 := s.(pageSize := size, currentPage := 0);
    if HasActiveFilter(s1.searchParams) then SearchOrders(s1, api, None)
    else FetchOrders(s1, api, 0, size)
  }

  /** The corrected navigation differs from the original only under an
      active filter: without one both fetch the same page. */
  lemma ChangePageCorrection(s: StoreState, api: Api, page: int, size: int)
    ensures !HasActiveFilter(s.searchParams) ==>
      ChangePageCorrected(s, api, page) == ChangePage(s, api, page)
      && ChangePageSizeCorrected(s, api, size) == ChangePageSize(s, api, size)
    ensures HasActiveFilter(s.searchParams) ==>
      (ChangePageCorrected(s, api, page).error == None
       <==> api.searchOrders(StoredSearchRequest(s.(currentPage := page))).Success?)
  {
  }

  /** Whichever way it dispatches, the corrected navigation asks the server
      for the requested page with the store's page size, and a failed
      request keeps the requested page in the state. */
  lemma ChangePageRequestsThatPage(s: StoreState, api: Api, page: int)
    ensures var r := ChangePageCorrected(s, api, page);
      r.error.Some? ==> r.currentPage == page && r.pageSize == s.pageSize
    ensures HasActiveFilter(s.searchParams) ==>
      var request := StoredSearchRequest(s.(currentPage := page));
      request[PageKey] == Num(page) && request[SizeKey] == Num(s.pageSize)
  {
  }

  /** A new page size always restarts at page 0: the corrected search request
      carries page 0 and the new size, and a failed request leaves page 0 and
      the new size in the state. */
  lemma ChangePageSizeRestarts(s: StoreState, api: Api, size: int)
    ensures var r := ChangePageSizeCorrected(s, api, size);
      r.error.Some? ==> r.currentPage == 0 && r.pageSize == size
    ensures HasActiveFilter(s.searchParams) ==>
      var request := StoredSearchRequest(s.(pageSize := size, currentPage := 0));
      request[PageKey] == Num(0) && request[SizeKey] == Num(size)
  {
  }
}
