# Order ticket: a verified model of the filter, export and store logic

The order-ticket system keeps customer orders in a database behind a Spring
backend and shows them in a Vue front end whose state lives in a Pinia store.
This project models its core in Dafny and proves properties of the model:

- **The query engine.** The five-criteria `WHERE` clause is shared by the
  paginated search and the unpaginated export. Results are newest first.
  Pages are cut out of the export list. The repository also has
  `countByStatus`, the date-range finder and the lookups by id and by order
  number. All of these live in `OrderRepository`.
- **The services.** `OrderService` holds the store-wide statistics and
  forwards criteria unchanged. `ExportService` builds the spreadsheet: the
  detail sheet, the column-width clamp and the summary sheet. `InvoiceService`
  lays out the single invoice and the batch invoice.
- **The controllers.** `OrderController` has the existence guards for get,
  update and delete. `ExportController` has the invoice file names, the
  no-content short cuts for an empty export and the ten-row preview.
- **The front-end store.** `OrderStore` covers the search-parameter merge and
  reset, `setOrders`, page navigation with its search-versus-fetch dispatch,
  and the loading and error bookkeeping of every action.

The model works on immutable values. The database is a
`map<int, Order>` plus the engine's scan order. A query is `FilterBy`
followed by a stable insertion sort on the order date. A rendered sheet is
a sequence of optional rows of cells, and a PDF is a sequence of blocks.
Timestamps are integers. Money is counted in integer cents.

Some things outside the code are parameters of the model rather than parts
of it, so every property holds for any value they take:

- `Rendering.RenderEnv` carries the clock, the date formatters, the
  auto-size measurement and whether the document library fails.
- `OrderStore.Api` carries the HTTP replies the store receives.

Modules: `Options`, `Seqs`, `Text` (substring search, lower-casing, decimal
numerals and their read-back), `Orders`, `OrderRepository`, `OrderService`,
`Http`, `OrderController`, `Rendering`, `ExportService`, `InvoiceService`,
`ExportController`, `OrderStore`.

## Model

| member | source | states |
|---|---|---|
| OrderRepository.MatchesMeaning | order-ticket-backend/src/main/java/com/orderticket/repository/OrderRepository.java:37-42 | An order matches iff each non-null criterion holds: the number contains the criterion as a substring, the lower-cased name contains the lower-cased criterion, the status is equal, and the date is at or after the start and at or before the end. |
| OrderRepository.Matches | order-ticket-backend/src/main/java/com/orderticket/repository/OrderRepository.java:37-42 | The shared `WHERE` clause: a conjunction of five tests, each of which a null criterion turns into true. Its meaning is stated by `OrderRepository.MatchesMeaning`. |
| OrderRepository.NoCriteriaMatchesAll | order-ticket-backend/src/main/java/com/orderticket/repository/OrderRepository.java:37-42 | With every criterion null, every order matches. |
| OrderRepository.EmptyTextCriteriaMatchAll | order-ticket-backend/src/main/java/com/orderticket/repository/OrderRepository.java:38-39 | An empty number or name criterion (`LIKE '%%'`) filters exactly as a null one. |
| OrderRepository.FilterBy | order-ticket-backend/src/main/java/com/orderticket/repository/OrderRepository.java:59-64 | The selected rows all satisfy the predicate, and each order occurs with its input multiplicity if it satisfies it and not at all otherwise. |
| OrderRepository.InsertByDateSorted | order-ticket-backend/src/main/java/com/orderticket/repository/OrderRepository.java:43 | Inserting into a newest-first list keeps it newest first. |
| OrderRepository.SortByDateDesc | order-ticket-backend/src/main/java/com/orderticket/repository/OrderRepository.java:65 | The result is a permutation of the input whose order dates never increase. |
| OrderRepository.TableLength | order-ticket-backend/src/main/java/com/orderticket/service/OrderService.java:91 | The table has one row per stored id (`count()`). |
| OrderRepository.TableMembership | order-ticket-backend/src/main/java/com/orderticket/repository/OrderRepository.java:59-70 | The rows the queries scan are exactly the stored orders. |
| OrderRepository.FindOrdersForExport | order-ticket-backend/src/main/java/com/orderticket/repository/OrderRepository.java:59-70 | The export list is sorted newest first, contains only matching orders, and holds each matching table row with its table multiplicity. |
| OrderRepository.ExportReturnsEachMatchOnce | order-ticket-backend/src/main/java/com/orderticket/repository/OrderRepository.java:59-70 | Completeness: every stored order that matches occurs exactly once in the export list. |
| OrderRepository.ExportReturnsOnlyStoredMatches | order-ticket-backend/src/main/java/com/orderticket/repository/OrderRepository.java:59-70 | Soundness: every exported order matches and is the order stored under its own id. |
| OrderRepository.ExportEmptyIffNoMatch | order-ticket-backend/src/main/java/com/orderticket/repository/OrderRepository.java:59-70 | The export list is empty iff no stored order matches. |
| OrderRepository.ExportWithoutCriteriaIsWholeStore | order-ticket-backend/src/main/java/com/orderticket/repository/OrderRepository.java:59-65 | With all five criteria null, the export list is a permutation of the whole store. |
| OrderRepository.PageRequestOf | order-ticket-backend/src/main/java/com/orderticket/controller/OrderController.java:46 | A page request is built iff the page is non-negative and the size is at least one, and it carries both unchanged. |
| OrderRepository.PageOf | order-ticket-backend/src/main/java/com/orderticket/repository/OrderRepository.java:44-49 | A page reports the total count, the page count, its number and size. Its content is the slice of the full list starting at page × size, of length min(size, rest), and empty past the end. |
| OrderRepository.PageCountBounds | order-ticket-backend/src/main/java/com/orderticket/repository/OrderRepository.java:44 | The page count is the ceiling of n / size: enough pages for all rows, and one fewer would not do. |
| OrderRepository.FindOrdersWithFilters | order-ticket-backend/src/main/java/com/orderticket/repository/OrderRepository.java:37-49 | The paginated query counts the export list and reports that count, the page count ceil(n / size), its number and its size. Its content is the slice of that same list at page × size, holding min(size, rest) rows and none past the end. |
| OrderRepository.PagesUpToIsPrefix | order-ticket-backend/src/main/java/com/orderticket/repository/OrderRepository.java:37-49 | Pages 0 to k-1 laid end to end are the first k × size rows of the list. |
| OrderRepository.PagesTileTheList | order-ticket-backend/src/main/java/com/orderticket/repository/OrderRepository.java:37-49 | Walking every page from 0 to totalPages-1 yields the whole list, in order, with nothing repeated. |
| OrderRepository.FindByOrderDateBetween | order-ticket-backend/src/main/java/com/orderticket/repository/OrderRepository.java:31-34 | `BETWEEN` with a null bound selects nothing. |
| OrderRepository.MissingBoundSelectsNothing | order-ticket-backend/src/main/java/com/orderticket/repository/OrderRepository.java:31 | Filtering with a null bound of `BETWEEN` gives the empty list. |
| OrderRepository.DateRangeIsDateCriteria | order-ticket-backend/src/main/java/com/orderticket/repository/OrderRepository.java:31-34 | With both bounds given, the range query is the five-criteria query with only the two date criteria set. |
| OrderRepository.CountByStatus | order-ticket-backend/src/main/java/com/orderticket/repository/OrderRepository.java:56 | `countByStatus(st)` is the number of stored ids whose order has status st. |
| OrderRepository.FindById | order-ticket-backend/src/main/java/com/orderticket/service/OrderService.java:28-30 | A lookup by id finds an order iff the id is stored, and then it is the stored order. |
| OrderRepository.FindByOrderNumber | order-ticket-backend/src/main/java/com/orderticket/repository/OrderRepository.java:19 | The lookup succeeds iff at most one stored id carries the number, and finds an order iff exactly one does; that order is stored and carries the number. "Not found" means no stored order carries it. |
| OrderRepository.Replace | order-ticket-backend/src/main/java/com/orderticket/service/OrderService.java:80-82 | Saving an order under a stored id overwrites that row only, keeps the set of ids, and keeps the store well formed. |
| OrderRepository.DeleteById | order-ticket-backend/src/main/java/com/orderticket/service/OrderService.java:85-87 | Deleting removes exactly that id and keeps the store well formed. |
| Orders.CountStatusIsMultiplicity | order-ticket-backend/src/main/java/com/orderticket/service/ExportService.java:98-101 | The per-status tally is the multiplicity of the status among the orders' statuses. |
| Orders.PermutationKeepsTallies | order-ticket-backend/src/main/java/com/orderticket/service/ExportService.java:97-102 | Reordering a list changes neither a per-status tally nor the amount total. |
| Orders.StatusPartition | order-ticket-frontend/src/api/orderApi.ts:20 | Every order is in exactly one of the six states: the six tallies add up to the length. |
| Orders.CountStatusZero | order-ticket-frontend/src/api/orderApi.ts:20 | A status has tally zero iff no order is in it. |
| Orders.StatusNameRoundTrip | order-ticket-frontend/src/api/orderApi.ts:20 | A status name reads back as that status, and only status names are read. |
| Orders.StatusName | order-ticket-frontend/src/api/orderApi.ts:20 | A status is written as its constant name: at least seven characters, all upper-case letters. |
| Orders.ParseStatus | order-ticket-frontend/src/api/orderApi.ts:20 | A name is read as the status whose constant name it is, and rejected iff no status has that name. |
| OrderService.GetOrderStatistics | order-ticket-backend/src/main/java/com/orderticket/service/OrderService.java:90-99 | The total is the number of stored orders. Each of the four buckets is the number of stored ids with that status, computed over the whole store with no criteria. |
| OrderService.FourBucketsOfList | order-ticket-backend/src/main/java/com/orderticket/service/OrderService.java:102-124 | Over a list, the four tallies sum to at most its length, with equality iff nothing is CONFIRMED or SHIPPED. |
| OrderService.StatisticsBucketsBound | order-ticket-backend/src/main/java/com/orderticket/service/OrderService.java:90-99 | pending + processing + delivered + cancelled ≤ total, with equality iff no stored order is CONFIRMED or SHIPPED. |
| OrderService.SearchOrders | order-ticket-backend/src/main/java/com/orderticket/service/OrderService.java:38-43 | The search passes its criteria and page request to the repository unchanged. |
| OrderService.GetOrdersForExport | order-ticket-backend/src/main/java/com/orderticket/service/OrderService.java:46-51 | The export passes its criteria to the repository unchanged. |
| OrderController.GetOrderById | order-ticket-backend/src/main/java/com/orderticket/controller/OrderController.java:53-56 | OK with the stored order iff the id is stored, otherwise not-found. |
| OrderController.GetOrderByNumber | order-ticket-backend/src/main/java/com/orderticket/controller/OrderController.java:60-63 | OK iff exactly one stored order has the number, and then the body is that order. Not-found iff none has it. A server error iff two or more share it. |
| OrderController.SearchOrders | order-ticket-backend/src/main/java/com/orderticket/controller/OrderController.java:37-49 | OK iff page ≥ 0 and size ≥ 1. The body counts the export list for the same criteria, reports ceil(n / size) pages, and holds the min(size, rest) rows of its slice at page × size. |
| OrderController.UpdateOrder | order-ticket-backend/src/main/java/com/orderticket/controller/OrderController.java:126-134 | An unknown id gives not-found and the store is unchanged. A known id gives OK, and the body is stored under the path id whatever id it carried. The ids and all other rows are unchanged. |
| OrderController.DeleteOrder | order-ticket-backend/src/main/java/com/orderticket/controller/OrderController.java:138-145 | An unknown id gives not-found and removes nothing. A known id gives OK and removes exactly that id; surviving rows are unchanged. |
| OrderController.UpdateThenGet | order-ticket-backend/src/main/java/com/orderticket/controller/OrderController.java:126-134 | After an update of a stored id, reading that id returns the body with the path id. |
| OrderController.UpdateLeavesOthers | order-ticket-backend/src/main/java/com/orderticket/controller/OrderController.java:128-131 | An update does not change what any other id reads. |
| OrderController.UpdateIdempotent | order-ticket-backend/src/main/java/com/orderticket/controller/OrderController.java:126-134 | Repeating an update changes nothing more. |
| OrderController.DeleteThenGet | order-ticket-backend/src/main/java/com/orderticket/controller/OrderController.java:138-145 | After a delete, the id reads as not-found, and a second delete is not-found and changes nothing. |
| OrderController.DeleteLeavesOthers | order-ticket-backend/src/main/java/com/orderticket/controller/OrderController.java:138-145 | A delete does not change what any other id reads. |
| Text.Contains | order-ticket-backend/src/main/java/com/orderticket/repository/OrderRepository.java:38 | The executable substring test agrees with "occurs at some position". |
| Text.NatToString | order-ticket-backend/src/main/java/com/orderticket/service/ExportService.java:114-118 | `String.valueOf` of a count is a non-empty run of digits with no leading zero, and its value is the count. |
| Text.ParseNatRoundTrip | order-ticket-backend/src/main/java/com/orderticket/service/ExportService.java:114-118 | A written count reads back as that count. |
| Text.FormatCents | order-ticket-backend/src/main/java/com/orderticket/service/InvoiceService.java:48 | The two-decimal text of an amount reads back as that amount, for negative amounts too. |
| Rendering.YuanTextReadsBack | order-ticket-backend/src/main/java/com/orderticket/service/InvoiceService.java:48 | "¥" followed by the decimal reads back as the amount. |
| ExportService.OrBlank | order-ticket-backend/src/main/java/com/orderticket/service/ExportService.java:51-58 | A present value is written as itself. The cell is blank iff the value is null or empty. |
| ExportService.DetailRow | order-ticket-backend/src/main/java/com/orderticket/service/ExportService.java:49-58 | A data row has exactly one cell per header. |
| ExportService.DetailRowReadsBack | order-ticket-backend/src/main/java/com/orderticket/service/ExportService.java:49-58 | Cell by cell, a data row gives the order back. Number and name are verbatim, and null email, phone, description, details or creation time are blank. The amount is a numeric cell of the exact amount, and the status reads back as the status. |
| ExportService.DetailRows | order-ticket-backend/src/main/java/com/orderticket/service/ExportService.java:33-64 | The detail sheet has n + 1 rows: row 0 is the ten headers and row i + 1 is order i. Every row has ten cells. |
| ExportService.ClampWidth | order-ticket-backend/src/main/java/com/orderticket/service/ExportService.java:70-76 | The width lies in [3000, 15000]. Widths in the band are unchanged, smaller ones become 3000 and larger ones 15000. |
| ExportService.ClampWidthIdempotentMonotone | order-ticket-backend/src/main/java/com/orderticket/service/ExportService.java:67-77 | Clamping twice is clamping once, and the clamp preserves order. |
| ExportService.DetailWidths | order-ticket-backend/src/main/java/com/orderticket/service/ExportService.java:67-77 | All ten detail columns get a width in [3000, 15000], equal to the measured width when that is already in the band. |
| ExportService.Summarize | order-ticket-backend/src/main/java/com/orderticket/service/ExportService.java:97-102 | The total is the list length and the money total is the sum of the amounts. Each bucket is the multiplicity of its status in the list, and the buckets sum to at most the total. |
| ExportService.SummarizePermutation | order-ticket-backend/src/main/java/com/orderticket/service/ExportService.java:97-102 | The summary does not depend on the order of the list. |
| ExportService.SummarizeAppend | order-ticket-backend/src/main/java/com/orderticket/service/ExportService.java:97-102 | The summary of a concatenation is the field-wise sum of the summaries. |
| ExportService.SummaryRow | order-ticket-backend/src/main/java/com/orderticket/service/ExportService.java:135-141 | A summary row is the label cell followed by the value cell. |
| ExportService.SummaryValues | order-ticket-backend/src/main/java/com/orderticket/service/ExportService.java:114-119 | The six figures read back as the five counts, in row order, and the money total. |
| ExportService.SummaryRows | order-ticket-backend/src/main/java/com/orderticket/service/ExportService.java:104-128 | The summary sheet has ten rows: the title in row 0, rows 1 and 8 empty, the six label/value rows in rows 2 to 7 in fixed order, and the generation time in row 9. |
| ExportService.ExportOrdersToExcel | order-ticket-backend/src/main/java/com/orderticket/service/ExportService.java:24-89 | The result is the single wrapped error iff the library fails, and then there is no workbook. Otherwise it is the detail sheet with clamped widths, followed by the summary of the same list. |
| ExportService.SummaryAgreesWithDetail | order-ticket-backend/src/main/java/com/orderticket/service/ExportService.java:80 | In a built workbook, the summary's order count reads back as the number of detail data rows, and its money total reads back as the sum of the detail amount column. |
| ExportService.AmountColumnTotalOfRows | order-ticket-backend/src/main/java/com/orderticket/service/ExportService.java:53 | The amount column of the detail rows sums to the orders' total amount. |
| InvoiceService.AddTableRow | order-ticket-backend/src/main/java/com/orderticket/service/InvoiceService.java:145-148 | A table row is the label and the value, with null written as "". |
| InvoiceService.InfoRows | order-ticket-backend/src/main/java/com/orderticket/service/InvoiceService.java:42-48 | The invoice table has seven rows in fixed order, each its label with the order's value, blank where the value is null. |
| InvoiceService.InfoRowsReadBack | order-ticket-backend/src/main/java/com/orderticket/service/InvoiceService.java:42-45 | The table gives back the number and name verbatim, and email and phone verbatim or blank when null. |
| InvoiceService.InfoRowsTypedReadBack | order-ticket-backend/src/main/java/com/orderticket/service/InvoiceService.java:46-48 | The status row reads back as the status, and the amount row as the amount. |
| InvoiceService.OptionalSection | order-ticket-backend/src/main/java/com/orderticket/service/InvoiceService.java:54-69 | An optional section is a heading, the text and a blank line iff the text is present and non-empty, and nothing otherwise. |
| InvoiceService.GeneratePdfInvoice | order-ticket-backend/src/main/java/com/orderticket/service/InvoiceService.java:23-87 | The result is the single wrapped error iff the library fails. Otherwise it is the invoice's blocks. |
| InvoiceService.InvoiceBlocks | order-ticket-backend/src/main/java/com/orderticket/service/InvoiceService.java:30-79 | An invoice has at least six blocks. Block 2 is the order-information table built from the info rows, and the last two blocks are the thanks line and the generation time. |
| InvoiceService.InvoiceLength | order-ticket-backend/src/main/java/com/orderticket/service/InvoiceService.java:30-79 | An invoice has six fixed blocks plus three for each printed optional section. |
| InvoiceService.InvoiceHeadings | order-ticket-backend/src/main/java/com/orderticket/service/InvoiceService.java:54-69 | The product-details heading appears iff the details are present and non-empty, and likewise for the description. |
| InvoiceService.ProductSectionPosition | order-ticket-backend/src/main/java/com/orderticket/service/InvoiceService.java:50-58 | The product section directly follows the table and its spacing, at blocks 4 and 5. |
| InvoiceService.DescriptionSectionPosition | order-ticket-backend/src/main/java/com/orderticket/service/InvoiceService.java:62-67 | The description section follows the product section (blocks 7 and 8), or takes its place (blocks 4 and 5). |
| InvoiceService.BatchRow | order-ticket-backend/src/main/java/com/orderticket/service/InvoiceService.java:121-125 | A batch table row has five cells. |
| InvoiceService.BatchRowReadsBack | order-ticket-backend/src/main/java/com/orderticket/service/InvoiceService.java:121-124 | A batch row gives back the number and name verbatim, the status by name and the amount. |
| InvoiceService.BatchCellsAppend | order-ticket-backend/src/main/java/com/orderticket/service/InvoiceService.java:120-126 | The cells for two lists are the cells for the first, then for the second. |
| InvoiceService.BatchCellAt | order-ticket-backend/src/main/java/com/orderticket/service/InvoiceService.java:120-126 | There are five body cells per order, and cell 5i + j is cell j of order i's row. |
| InvoiceService.BatchTableRow | order-ticket-backend/src/main/java/com/orderticket/service/InvoiceService.java:120-126 | Body row i of the batch table is exactly order i's row, so rows follow input order. |
| InvoiceService.BatchTableSize | order-ticket-backend/src/main/java/com/orderticket/service/InvoiceService.java:109-126 | The batch table has 5 × (n + 1) cells: five headers and five per order. |
| InvoiceService.CountLineDeterminesCount | order-ticket-backend/src/main/java/com/orderticket/service/InvoiceService.java:102 | The count line determines the number of orders: different counts give different lines. |
| InvoiceService.GenerateBatchPdfInvoices | order-ticket-backend/src/main/java/com/orderticket/service/InvoiceService.java:89-143 | The result is the single wrapped error iff the library fails. Otherwise it is the batch document's blocks. |
| InvoiceService.BatchBlocks | order-ticket-backend/src/main/java/com/orderticket/service/InvoiceService.java:97-134 | The batch document has six blocks: block 1 is the count line for the number of orders, block 3 the five-column table of the orders and block 5 the generation time. |
| ExportController.InvoiceFileNameInjective | order-ticket-backend/src/main/java/com/orderticket/controller/ExportController.java:46-47 | Different order numbers give different invoice file names. |
| ExportController.InvoiceFileName | order-ticket-backend/src/main/java/com/orderticket/controller/ExportController.java:46-47 | The file name is "invoice_", then the order number itself, then ".pdf", and is 12 characters longer than the number. |
| ExportController.ExportSingleInvoicePdf | order-ticket-backend/src/main/java/com/orderticket/controller/ExportController.java:34-52 | Not-found iff the id is not stored, and then no document is made. A server error means the order exists and the library failed. Otherwise the result is the order's invoice named "invoice_" + number + ".pdf". |
| ExportController.ExportBatchInvoicesPdf | order-ticket-backend/src/main/java/com/orderticket/controller/ExportController.java:55-79 | No content iff no stored order matches. A server error iff some order matches and the library fails. Otherwise it is the batch invoice of the export list, named with the time stamp. |
| ExportController.ExportOrdersToExcel | order-ticket-backend/src/main/java/com/orderticket/controller/ExportController.java:82-106 | No content iff no stored order matches. A server error iff some order matches and the library fails. Otherwise it is the workbook of the export list, named with the time stamp. |
| ExportController.GetExportPreview | order-ticket-backend/src/main/java/com/orderticket/controller/ExportController.java:109-122 | The preview is the first min(10, n) orders of the export list, in its order. |
| ExportController.PreviewLeadsTheSpreadsheet | order-ticket-backend/src/main/java/com/orderticket/controller/ExportController.java:90-120 | When the library works and the preview is non-empty, the spreadsheet for the same criteria is built, and preview order i is rendered in its detail row i + 1. |
| ExportController.PreviewEmptyIffNoContent | order-ticket-backend/src/main/java/com/orderticket/controller/ExportController.java:63-67 | The preview is empty iff the spreadsheet and the batch invoice answer with no content. |
| ExportController.UnfilteredSummaryIsStoreStatistics | order-ticket-backend/src/main/java/com/orderticket/service/OrderService.java:90-99 | Without criteria, the spreadsheet summary states the same total and four bucket counts as the statistics endpoint. |
| OrderStore.MergeParams | order-ticket-frontend/src/stores/orderStore.ts:62-64 | The spread merge overrides exactly the keys present in the update. Every other key keeps its value, and no key is dropped. |
| OrderStore.MergeParamsLaws | order-ticket-frontend/src/stores/orderStore.ts:62-64 | Merging an empty update changes nothing, and two merges in a row are one merge of the merged updates. |
| OrderStore.MergeActivates | order-ticket-frontend/src/stores/orderStore.ts:204 | A truthy value in an update activates the filter. Falsy updates of an inactive filter keep it inactive. |
| OrderStore.HasActiveFilter | order-ticket-frontend/src/stores/orderStore.ts:204 | `Object.values(...).some(v => v)`: some own property is truthy. Its behaviour under merge and reset is stated by `OrderStore.MergeActivates` and `OrderStore.ClearSearchParams`. |
| OrderStore.SetOrders | order-ticket-frontend/src/stores/orderStore.ts:46-52 | The content, totalElements, totalPages, number (as currentPage) and size (as pageSize) are copied from the response; everything else is kept. |
| OrderStore.SetOrdersLastWins | order-ticket-frontend/src/stores/orderStore.ts:46-52 | Only the last page response shows. |
| OrderStore.UpdateSearchParams | order-ticket-frontend/src/stores/orderStore.ts:62-64 | Only the search parameters change, and they become the merge. |
| OrderStore.ClearSearchParams | order-ticket-frontend/src/stores/orderStore.ts:66-74 | The filters are exactly the five keys, each set to '', which is no active filter; nothing else changes. |
| OrderStore.ClearAfterUpdate | order-ticket-frontend/src/stores/orderStore.ts:62-74 | A reset undoes any update. |
| OrderStore.FetchOrders | order-ticket-frontend/src/stores/orderStore.ts:77-89 | Loading ends false. The error is clear iff the reply arrived. Success loads the page; failure stores the fetch error and leaves the data alone. |
| OrderStore.SearchOrdersAsWritten | order-ticket-frontend/src/stores/orderStore.ts:91-108 | Called without an argument, the search ends with 'Failed to search orders' and nothing else changes. With an argument, the error is clear iff the reply arrived. |
| OrderStore.SearchWithoutArgumentAlwaysFails | order-ticket-frontend/src/stores/orderStore.ts:95-99 | The argument-less call never depends on the server's reply, always ends in the search error, and keeps the list. |
| OrderStore.StoredSearchRequest | order-ticket-frontend/src/stores/orderStore.ts:95-99 | The intended request is the store's filters plus page = currentPage and size = pageSize. |
| OrderStore.SearchOrders | order-ticket-frontend/src/stores/orderStore.ts:91-108 | It sends the argument, or the stored request when there is none. The error is clear iff the reply arrived; success loads the page and failure stores the search error. |
| OrderStore.SearchOrdersCorrection | order-ticket-frontend/src/stores/orderStore.ts:91-108 | With an argument, the corrected and as-written searches agree. Without one, the corrected search shows the server's page for the stored filters. |
| OrderStore.FetchOrderById | order-ticket-frontend/src/stores/orderStore.ts:110-124 | It returns the order iff the reply arrived, which also sets it as the current order; otherwise it returns null with 'Failed to fetch order details'. Loading ends false. |
| OrderStore.FetchOrderByNumber | order-ticket-frontend/src/stores/orderStore.ts:126-140 | The same as by id, with 'Order not found'. |
| OrderStore.FetchStatistics | order-ticket-frontend/src/stores/orderStore.ts:142-149 | Loading and error are never touched. A reply sets the statistics, and a rejection changes nothing. |
| OrderStore.Refresh | order-ticket-frontend/src/stores/orderStore.ts:157 | The refresh after a write fetches the current page and size. Its error is clear iff that fetch succeeded; success loads the reply's page and failure stores the fetch error with the data unchanged. |
| OrderStore.CreateOrder | order-ticket-frontend/src/stores/orderStore.ts:151-166 | It returns the created order iff the server accepted it, and then refreshes the list. Otherwise it returns null with 'Failed to create order'. |
| OrderStore.UpdateOrder | order-ticket-frontend/src/stores/orderStore.ts:168-183 | It returns the updated order iff the server accepted it, and then refreshes the list. Otherwise it returns null with 'Failed to update order'. |
| OrderStore.DeleteOrder | order-ticket-frontend/src/stores/orderStore.ts:185-200 | It returns true iff the server accepted the delete, and then refreshes the list. Otherwise it returns false with 'Failed to delete order'. |
| OrderStore.ChangePage | order-ticket-frontend/src/stores/orderStore.ts:202-209 | The page is set first. With some filter value truthy it calls the argument-less search, which ends in the search error with the list kept; otherwise it fetches that page with the current size. |
| OrderStore.ChangePageSize | order-ticket-frontend/src/stores/orderStore.ts:211-219 | The size is set and the page reset to 0 before the same dispatch: the search error under an active filter, otherwise a fetch of page 0 with the new size. |
| OrderStore.ChangePageRequestsThatPage | order-ticket-frontend/src/stores/orderStore.ts:202-209 | With the corrected search, the request is for the chosen page with the current size either way, and a failed request keeps the chosen page. |
| OrderStore.ChangePageSizeRestarts | order-ticket-frontend/src/stores/orderStore.ts:211-219 | With the corrected search, a new size always restarts at page 0, and a failed request leaves page 0 with the new size. |
| OrderStore.ChangePageWithFilterFailsAsWritten | order-ticket-frontend/src/stores/orderStore.ts:202-219 | Under an active filter both navigation actions ignore the server entirely, end in the search error, keep the old list, and record the requested page and size. |
| OrderStore.ChangePageCorrected | order-ticket-frontend/src/stores/orderStore.ts:202-209 | Navigation with the corrected search: under an active filter it runs the search over the stored filters, otherwise it fetches that page. |
| OrderStore.ChangePageSizeCorrected | order-ticket-frontend/src/stores/orderStore.ts:211-219 | The same for a new page size, restarting at page 0. |
| OrderStore.ChangePageCorrection | order-ticket-frontend/src/stores/orderStore.ts:202-219 | Without an active filter the corrected and as-written navigation agree. With one, the corrected navigation succeeds exactly when the server answers the stored-filter request. |

## Left out

- Creating an order on the backend (`OrderController.createOrder`, `OrderService.createOrder`). `save` of a new entity is JPA insert-or-update plus id generation inside the database. Only `save` of an already stored id, which is what update does, is modelled as `OrderRepository.Replace`.
- OrderController.UpdateOrder: uniqueness of the order number is not modelled. The store is not required to keep order numbers unique. An update whose body repeats another row's number is stored and answered with OK, because no handler or service on the update path (OrderController.java:126-134, OrderService.java:80-82) checks for it. Any unique constraint lives in the entity mapping and the database schema, which are not part of this model. After such an update, `OrderController.GetOrderByNumber` for that number reports a server error, as its contract states.
- Entity lifecycle hooks that set `createdAt` and `updatedAt` on save. The entity class is not part of this model, so an update stores the body as sent.
- The other finders and their pass-through endpoints: `findAll`, `findByCustomerNameContainingIgnoreCase`, `findByStatus`, `findByCustomerEmail`, `findRecentOrders`, and the `OrderController` handlers for all orders, by customer, by status, recent and statistics. Each is a single repository call with no logic of its own. The statistics endpoint's logic is `OrderService.GetOrderStatistics`.
- `OrderController.getOrdersForExport` (lines 106-115) returns the service list as it is. Its content is `OrderService.GetOrdersForExport`.
- OrderRepository.Matches: SQL `LIKE` wildcards (`%`, `_`) inside a user's criterion are treated as plain characters. `LOWER` folds ASCII letters only, not the database's locale rules.
- OrderRepository.SortByDateDesc: orders with equal dates keep the engine's scan order. SQL leaves the order of ties unspecified, so the model fixes one of the allowed orders.
- ExportService.Summarize: the money total is the exact sum in cents. The source adds `double` values and prints them with `%.2f`, which can round differently for very large sums.
- Rendering.YuanTextReadsBack: assumes every amount has scale 2, so `BigDecimal.toString()` and `%.2f` print the same digits.
- ExportService.SummaryRows: the total is always printed with a decimal point. `String.format("¥%.2f", …)` at ExportService.java:119 uses the JVM's default locale, which under a locale such as de_DE prints a decimal comma (`¥12,50`); the locale is not modelled.
- Apache POI and iText themselves: styles, fonts, borders, column percentages and the bytes of the XLSX and PDF files. A sheet is modelled as its cell grid and a PDF as its block sequence.
- The clock and the date formatters. `now()` and the three `DateTimeFormatter` patterns are fields of `RenderEnv`, and the auto-size measurement is an arbitrary input to the clamp.
- ExportController.ExportSingleInvoicePdf: the controller does not catch the renderer's exception; Spring's default handler turns it into a server error, which is what the model returns.
- OrderController.GetOrderByNumber: a non-unique order number makes Spring Data throw, and the model reports that as a server error without modelling the exception handler.
- Integer widths. Counts are `long` in the source and unbounded here; no store reaches `long` overflow.
- Spring binding, CORS, content types and HTTP status plumbing beyond OK, not-found, no-content and server error.
- The seeding of sample data at start-up. It uses random back-dated orders.
- The axios client, the blob download and the router of the front end. The store's API calls are the `OrderStore.Api` parameter, whose reply to a request is a fixed function of that request. How the server's data changes between a write and the refresh after it is therefore part of that parameter.
- Interleaving of concurrent store actions. Each action is modelled as one sequential step from its start to its `finally`, and logging to the console is left out.
- The store's trivial setters and getters (`setLoading`, `setError`, `clearError`, `setCurrentOrder`, `setStatistics`, `hasOrders`, `hasError`, `isLoading`). They are written inline where the actions use them.
- OrderStore.FetchOrders: the default arguments `page = 0, size = 10` of orderStore.ts:77 are not modelled; every caller in the store passes both, and a call without them is `OrderStore.FetchOrders` with 0 and 10.
- The `first`, `last` and `empty` fields of a page response. The store never reads them.

## Findings

| source | as written | input that shows it | evidently intended | confidence | as-written member | corrected member |
|---|---|---|---|---|---|---|
| order-ticket-frontend/src/stores/orderStore.ts:95-99 | The fallback object reads `searchParams.value`. Inside this block `searchParams` names the `const` being declared, so the read hits an uninitialised binding, throws a `ReferenceError`, and the catch stores 'Failed to search orders'. | `searchOrders()` with no argument, e.g. `changePage(1)` while the customer-name filter is `'Li'`. | Read the store's own `searchParams` ref (line 20) and add the current page and page size. | high; not executed | OrderStore.SearchWithoutArgumentAlwaysFails | OrderStore.SearchOrdersCorrection |
| order-ticket-frontend/src/stores/orderStore.ts:204-205 | Under an active filter `changePage` (and `changePageSize`, line 215) calls `searchOrders()` with no argument, so it hits the error above and never shows the requested page. | `changePage(1)` while the customer-name filter is `'Li'` and the server would answer. | Search the stored filters with the new page and size. | high; not executed | OrderStore.ChangePageWithFilterFailsAsWritten | OrderStore.ChangePageCorrection |

`OrderStore.SearchOrdersAsWritten` is the code as written. `OrderStore.SearchWithoutArgumentAlwaysFails` proves that, without an argument, it ignores the server and always ends in the error. `OrderStore.ChangePage` and `OrderStore.ChangePageSize` model the navigation as written, and `OrderStore.ChangePageWithFilterFailsAsWritten` proves that under an active filter they never reach the server. `OrderStore.SearchOrders` is the corrected search, and `OrderStore.ChangePageCorrected` and `OrderStore.ChangePageSizeCorrected` are the navigation built on it. `OrderStore.SearchOrdersCorrection` proves that it agrees with the original whenever an argument is passed, and that without one it shows the server's page for the stored filters.
