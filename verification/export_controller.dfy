/** The `/api/export` handlers: the single-order invoice with its not-found
    guard and file name, the batch invoice and the spreadsheet with their
    empty-result short cuts, and the ten-row preview. All three bulk
    endpoints start from the same export query. */
module ExportController {
  import opened Options
  import opened Seqs
  import opened Http
  import opened Orders
  import opened OrderRepository
  import OrderService
  import opened Rendering
  import ExportService
  import InvoiceService

  /** An attachment: the file name of the `Content-Disposition` header and
      the generated document. */
  datatype Download<+T> = Download(fileName: string, content: T)

  const PreviewLimit: nat := 10

  /** "invoice_" + order number + ".pdf". */
  function InvoiceFileName(orderNumber: string): (name: string)
    ensures |name| == |orderNumber| + 12
    ensures name[..8] == "invoice_" && name[|name| - 4..] == ".pdf"
    ensures name[8..|name| - 4] == orderNumber
  {
    "invoice_" + orderNumber + ".pdf"
  }

  /** Different order numbers give different invoice file names. */
  lemma InvoiceFileNameInjective(a: string, b: string)
    requires InvoiceFileName(a) == InvoiceFileName(b)
    ensures a == b
  {
    var na, nb := InvoiceFileName(a), InvoiceFileName(b);
    assert |a| == |b|;
    assert a == na[8..|na| - 4];
    assert b == nb[8..|nb| - 4];
  }

  /** `GET /api/export/invoice/pdf/{orderId}`: not-found for an unknown id
      (no document is generated); otherwise the order's invoice under its
      invoice file name. */
  function ExportSingleInvoicePdf(env: RenderEnv, repo: Repository, id: int): (r: Response<Download<InvoiceService.Document>>)
    ensures r == NotFound <==> id !in repo.rows
    ensures r.ServerError? <==> id in repo.rows && env.libraryFails
    ensures r.Ok? ==>
      && r.body.fileName == InvoiceFileName(repo.rows[id].orderNumber)
      && r.body.content.blocks == InvoiceService.InvoiceBlocks(env, repo.rows[id])
    ensures r.Ok? || r == NotFound || r.ServerError?
  {
    match FindById(repo, id)
    case None => NotFound
    case Some(o) =>
      match InvoiceService.GeneratePdfInvoice(env, o)
      case Failure(e) => ServerError(e)
      case Success(doc) => Ok(Download(InvoiceFileName(o.orderNumber), doc))
  }

  /** `GET /api/export/invoice/pdf/batch`: no content when nothing matches
      (no document is generated); otherwise the batch invoice of the export
      list under a time-stamped name. */
  function ExportBatchInvoicesPdf(env: RenderEnv, repo: Repository, c: Criteria): (r: Response<Download<InvoiceService.Document>>)
    requires Valid(repo)
    ensures r == NoContent <==> forall k :: k in repo.rows ==> !Matches(c, repo.rows[k])
    ensures r.ServerError? <==> (exists k :: k in repo.rows && Matches(c, repo.rows[k])) && env.libraryFails
    ensures r.Ok? ==>
      && r.body.fileName == "batch_invoices_" + env.formatFileStamp(env.now) + ".pdf"
      && r.body.content.blocks == InvoiceService.BatchBlocks(env, FindOrdersForExport(repo, c))
    ensures r.Ok? || r == NoContent || r.ServerError?
  {
    ExportEmptyIffNoMatch(repo, c);
    var orders := OrderService.GetOrdersForExport(repo, c);
    if |orders| == 0 then NoContent
    else
      match InvoiceService.GenerateBatchPdfInvoices(env, orders)
      case Failure(e) => ServerError(e)
      case Success(doc) => Ok(Download("batch_invoices_" + env.formatFileStamp(env.now) + ".pdf", doc))
  }

  /** `GET /api/export/excel`: no content when nothing matches (no workbook
      is built); otherwise the workbook of the export list under a
      time-stamped name. */
  function ExportOrdersToExcel(env: RenderEnv, repo: Repository, c: Criteria): (r: Response<Download<ExportService.Workbook>>)
    requires Valid(repo)
    ensures r == NoContent <==> forall k :: k in repo.rows ==> !Matches(c, repo.rows[k])
    ensures r.ServerError? <==> (exists k :: k in repo.rows && Matches(c, repo.rows[k])) && env.libraryFails
    ensures r.Ok? ==>
      && r.body.fileName == "orders_export_" + env.formatFileStamp(env.now) + ".xlsx"
      && ExportService.ExportOrdersToExcel(env, FindOrdersForExport(repo, c)) == Success(r.body.content)
    ensures r.Ok? || r == NoContent || r.ServerError?
  {
    ExportEmptyIffNoMatch(repo, c);
    var orders := OrderService.GetOrdersForExport(repo, c);
    if |orders| == 0 then NoContent
    else
      match ExportService.ExportOrdersToExcel(env, orders)
      case Failure(e) => ServerError(e)
      case Success(wb) => Ok(Download("orders_export_" + env.formatFileStamp(env.now) + ".xlsx", wb))
  }

  /** `GET /api/export/preview`: the first ten orders of the export list, in
      its order. */
  function GetExportPreview(repo: Repository, c: Criteria): (r: Response<seq<Order>>)
    requires Valid(repo)
    ensures r.Ok?
    ensures |r.body| == Min(PreviewLimit, |FindOrdersForExport(repo, c)|)
    ensures forall i :: 0 <= i < |r.body| ==> r.body[i] == FindOrdersForExport(repo, c)[i]
  {
    Ok(Take(PreviewLimit, OrderService.GetOrdersForExport(repo, c)))
  }

  /** The preview shows the first data rows of the spreadsheet the same
      criteria export. */
  lemma PreviewLeadsTheSpreadsheet(env: RenderEnv, repo: Repository, c: Criteria, i: nat)
    requires Valid(repo) && !env.libraryFails
    requires i < |GetExportPreview(repo, c).body|
    ensures ExportOrdersToExcel(env, repo, c).Ok?
    ensures var sheet := ExportOrdersToExcel(env, repo, c).body.content.sheets[0];
      i + 1 < |sheet.rows| && sheet.rows[i + 1] == Some(ExportService.DetailRow(env, GetExportPreview(repo, c).body[i]))
  {
    ExportEmptyIffNoMatch(repo, c);
  }

  /** The preview is empty exactly when the spreadsheet and the batch invoice
      answer with no content. */
  lemma PreviewEmptyIffNoContent(env: RenderEnv, repo: Repository, c: Criteria)
    requires Valid(repo)
    ensures |GetExportPreview(repo, c).body| == 0 <==> ExportOrdersToExcel(env, repo, c) == NoContent
    ensures |GetExportPreview(repo, c).body| == 0 <==> ExportBatchInvoicesPdf(env, repo, c) == NoContent
  {
    ExportEmptyIffNoMatch(repo, c);
  }

  /** Without criteria the spreadsheet summary states the same figures as
      the statistics endpoint. */
  lemma UnfilteredSummaryIsStoreStatistics(repo: Repository)
    requires Valid(repo)
    ensures var s := ExportService.Summarize(FindOrdersForExport(repo, NoCriteria));
      var t := OrderService.GetOrderStatistics(repo);
      && s.totalOrders == t.totalOrders
      && s.pendingOrders == t.pendingOrders
      && s.processingOrders == t.processingOrders
      && s.deliveredOrders == t.deliveredOrders
      && s.cancelledOrders == t.cancelledOrders
  {
    var all := FindOrdersForExport(repo, NoCriteria);
    ExportWithoutCriteriaIsWholeStore(repo);
    PermutationKeepsTallies(all, Table(repo));
    assert CountStatus(all, PENDING) == CountByStatus(repo, PENDING);
    assert CountStatus(all, PROCESSING) == CountByStatus(repo, PROCESSING);
    assert CountStatus(all, DELIVERED) == CountByStatus(repo, DELIVERED);
    assert CountStatus(all, CANCELLED) == CountByStatus(repo, CANCELLED);
  }
}
