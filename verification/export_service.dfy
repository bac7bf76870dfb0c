/** The spreadsheet export as a cell grid: a detail sheet with one header row
    and one row per order, its clamped column widths, and a summary sheet of
    tallies at fixed row positions. Styles, fonts and the written bytes are
    not part of the grid. */
module ExportService {
  import opened Options
  import opened Seqs
  import opened Text
  import opened Orders
  import opened Rendering

  /** A cell holds text or a number; the amount cell is numeric. */
  datatype Cell = Text(text: string) | Number(cents: int)

  /** A sheet: its rows by row index (`None` for a row never created) and the
      width of each sized column, by column index. */
  datatype Sheet = Sheet(name: string, rows: seq<Option<seq<Cell>>>, widths: seq<int>)

  datatype Workbook = Workbook(sheets: seq<Sheet>)

  const DetailSheetName: string := "订单数据"
  const SummarySheetName: string := "订单统计"

  /** The ten column headings of the detail sheet. */
  const DetailHeaders: seq<string> :=
    ["订单号", "客户姓名", "客户邮箱", "客户电话", "总金额", "订单状态", "订单日期", "描述", "产品详情", "创建时间"]

  const MinColumnWidth: int := 3000
  const MaxColumnWidth: int := 15000

  function TextCells(labels: seq<string>): (r: seq<Cell>)
    ensures |r| == |labels|
    ensures forall i :: 0 <= i < |labels| ==> r[i] == Text(labels[i])
  {
    seq(|labels|, i requires 0 <= i < |labels| => Text(labels[i]))
  }

  /** A nullable text column: `null` is written as the empty string. */
  function OrBlank(v: Option<string>): (s: string)
    ensures v.Some? ==> s == v.value
    ensures s == "" <==> v.None? || v == Some("")
  {
    match v
    case Some(x) => x
    case None => ""
  }

  /** One data row, column by column in heading order. */
  function DetailRow(env: RenderEnv, o: Order): (r: seq<Cell>)
    ensures |r| == |DetailHeaders|
  {
    [ Text(o.orderNumber),
      Text(o.customerName),
      Text(OrBlank(o.customerEmail)),
      Text(OrBlank(o.customerPhone)),
      Number(o.totalAmount),
      Text(StatusName(o.status)),
      Text(env.formatDateTime(o.orderDate)),
      Text(OrBlank(o.description)),
      Text(OrBlank(o.productDetails)),
      Text(match o.createdAt case Some(t) => env.formatDateTime(t) case None => "") ]
  }

  /** The cells of a data row give the order's own values back: its number,
      name and amount, its status by name, and each nullable column as the
      value when there is one and as blank otherwise. */
  lemma DetailRowReadsBack(env: RenderEnv, o: Order)
    ensures var r := DetailRow(env, o);
      && r[0] == Text(o.orderNumber) && r[1] == Text(o.customerName)
      && r[4] == Number(o.totalAmount)
      && r[5].Text? && ParseStatus(r[5].text) == Some(o.status)
      && (o.customerEmail.Some? ==> r[2] == Text(o.customerEmail.value))
      && (o.customerEmail.None? ==> r[2] == Text(""))
      && (o.customerPhone.Some? ==> r[3] == Text(o.customerPhone.value))
      && (o.customerPhone.None? ==> r[3] == Text(""))
      && (o.description.Some? ==> r[7] == Text(o.description.value))
      && (o.description.None? ==> r[7] == Text(""))
      && (o.productDetails.Some? ==> r[8] == Text(o.productDetails.value))
      && (o.productDetails.None? ==> r[8] == Text(""))
      && (o.createdAt.None? ==> r[9] == Text(""))
  {
    StatusNameRoundTrip(o.status, "");
  }

  /** The detail sheet: row 0 holds the headings, row `i + 1` the `i`-th order. */
  function DetailRows(env: RenderEnv, orders: seq<Order>): (rows: seq<Option<seq<Cell>>>)
    ensures |rows| == |orders| + 1
    ensures rows[0] == Some(TextCells(DetailHeaders))
    ensures forall i :: 0 <= i < |orders| ==> rows[i + 1] == Some(DetailRow(env, orders[i]))
    ensures forall i :: 0 <= i < |rows| ==> rows[i].Some? && |rows[i].value| == |DetailHeaders|
  {
    [Some(TextCells(DetailHeaders))] + seq(|orders|, i requires 0 <= i < |orders| => Some(DetailRow(env, orders[i])))
  }

  /** The minimum-then-maximum width correction applied after auto-sizing. */
  function ClampWidth(w: int): (r: int)
    ensures MinColumnWidth <= r <= MaxColumnWidth
    ensures MinColumnWidth <= w <= MaxColumnWidth ==> r == w
    ensures w < MinColumnWidth ==> r == MinColumnWidth
    ensures w > MaxColumnWidth ==> r == MaxColumnWidth
  {
    var afterMin := if w < MinColumnWidth then MinColumnWidth else w;
    if afterMin > MaxColumnWidth then MaxColumnWidth else afterMin
  }

  /** Clamping a clamped width changes nothing, and clamping keeps the order
      of widths. */
  lemma ClampWidthIdempotentMonotone(v: int, w: int)
    ensures ClampWidth(ClampWidth(w)) == ClampWidth(w)
    ensures v <= w ==> ClampWidth(v) <= ClampWidth(w)
  {
  }

  /** The widths of the ten detail columns. */
  function DetailWidths(env: RenderEnv): (widths: seq<int>)
    ensures |widths| == |DetailHeaders|
    ensures forall i :: 0 <= i < |widths| ==> MinColumnWidth <= widths[i] <= MaxColumnWidth
    ensures forall i :: 0 <= i < |widths| && MinColumnWidth <= env.autoWidth(DetailSheetName, i) <= MaxColumnWidth ==>
      widths[i] == env.autoWidth(DetailSheetName, i)
  {
    var widths := seq(|DetailHeaders|, i requires 0 <= i < |DetailHeaders| => ClampWidth(env.autoWidth(DetailSheetName, i)));
    assert forall i :: 0 <= i < |widths| ==> widths[i] == ClampWidth(env.autoWidth(DetailSheetName, i));
    widths
  }

  /** The figures of the summary sheet, computed over the exported list. */
  datatype SummaryStats = SummaryStats(
    totalOrders: nat,
    pendingOrders: nat,
    processingOrders: nat,
    deliveredOrders: nat,
    cancelledOrders: nat,
    totalAmount: int)

  function Summarize(orders: seq<Order>): (s: SummaryStats)
    ensures s.totalOrders == |orders|
    ensures s.pendingOrders == multiset(Statuses(orders))[PENDING]
    ensures s.processingOrders == multiset(Statuses(orders))[PROCESSING]
    ensures s.deliveredOrders == multiset(Statuses(orders))[DELIVERED]
    ensures s.cancelledOrders == multiset(Statuses(orders))[CANCELLED]
    ensures s.pendingOrders + s.processingOrders + s.deliveredOrders + s.cancelledOrders <= s.totalOrders
    ensures s.totalAmount == TotalAmount(orders)
  {
    CountStatusIsMultiplicity(orders, PENDING);
    CountStatusIsMultiplicity(orders, PROCESSING);
    CountStatusIsMultiplicity(orders, DELIVERED);
    CountStatusIsMultiplicity(orders, CANCELLED);
    StatusPartition(orders);
    SummaryStats(
      |orders|,
      CountStatus(orders, PENDING),
      CountStatus(orders, PROCESSING),
      CountStatus(orders, DELIVERED),
      CountStatus(orders, CANCELLED),
      TotalAmount(orders))
  }

  /** The summary depends only on which orders are exported, not on their
      order. */
  lemma SummarizePermutation(a: seq<Order>, b: seq<Order>)
    requires multiset(a) == multiset(b)
    ensures Summarize(a) == Summarize(b)
  {
    PermutationKeepsTallies(a, b);
    assert |a| == |multiset(a)| == |multiset(b)| == |b|;
    assert CountStatus(a, PENDING) == CountStatus(b, PENDING);
    assert CountStatus(a, PROCESSING) == CountStatus(b, PROCESSING);
    assert CountStatus(a, DELIVERED) == CountStatus(b, DELIVERED);
    assert CountStatus(a, CANCELLED) == CountStatus(b, CANCELLED);
  }

  /** The summary of two lists one after the other adds up field by field. */
  lemma SummarizeAppend(a: seq<Order>, b: seq<Order>)
    ensures var s, x, y := Summarize(a + b), Summarize(a), Summarize(b);
      && s.totalOrders == x.totalOrders + y.totalOrders
      && s.pendingOrders == x.pendingOrders + y.pendingOrders
      && s.processingOrders == x.processingOrders + y.processingOrders
      && s.deliveredOrders == x.deliveredOrders + y.deliveredOrders
      && s.cancelledOrders == x.cancelledOrders + y.cancelledOrders
      && s.totalAmount == x.totalAmount + y.totalAmount
  {
    CountStatusAppend(a, b, PENDING);
    CountStatusAppend(a, b, PROCESSING);
    CountStatusAppend(a, b, DELIVERED);
    CountStatusAppend(a, b, CANCELLED);
    SumOfAppend(a, b, AmountOf);
  }

  /** `addSummaryRow`: a label cell and a value cell. */
  function SummaryRow(caption: string, value: string): (r: seq<Cell>)
    ensures |r| == 2 && r[0] == Text(caption) && r[1] == Text(value)
  {
    [Text(caption), Text(value)]
  }

  const SummaryTitle: string := "订单统计报告"
  const GeneratedAtLabel: string := "生成时间"
  const SummaryLabels: seq<string> := ["总订单数", "待处理订单", "处理中订单", "已送达订单", "已取消订单", "总金额"]

  /** The five counts of the summary, in row order. */
  function Counts(s: SummaryStats): (counts: seq<nat>)
    ensures |counts| == 5
  {
    [s.totalOrders, s.pendingOrders, s.processingOrders, s.deliveredOrders, s.cancelledOrders]
  }

  /** `String.valueOf` of each number; every numeral reads back as its number. */
  function Numerals(ns: seq<nat>): (r: seq<string>)
    ensures |r| == |ns|
    ensures forall i :: 0 <= i < |ns| ==> ParseNat(r[i]) == Some(ns[i])
  {
    var r := seq(|ns|, i requires 0 <= i < |ns| => NatToString(ns[i]));
    forall i | 0 <= i < |ns| ensures ParseNat(r[i]) == Some(ns[i]) {
      ParseNatRoundTrip(ns[i]);
    }
    r
  }

  /** The six figures of the summary as they are written, in row order: the
      five counts, then the money total. */
  function SummaryValues(s: SummaryStats): (values: seq<string>)
    ensures |values| == 6
    ensures forall i :: 0 <= i < 5 ==> ParseNat(values[i]) == Some(Counts(s)[i])
    ensures ParseYuan(values[5]) == Some(s.totalAmount)
  {
    YuanTextReadsBack(s.totalAmount);
    Numerals(Counts(s)) + [YuanText(s.totalAmount)]
  }

  /** Label/value rows, pairing the captions with the values in order. */
  function CaptionedRows(captions: seq<string>, values: seq<string>): (rows: seq<Option<seq<Cell>>>)
    requires |captions| == |values|
    ensures |rows| == |captions|
    ensures forall i :: 0 <= i < |rows| ==> rows[i] == Some(SummaryRow(captions[i], values[i]))
  {
    seq(|captions|, i requires 0 <= i < |captions| => Some(SummaryRow(captions[i], values[i])))
  }

  /** A top row, an empty row, the given rows, an empty row and a bottom row. */
  function Framed(top: Option<seq<Cell>>, body: seq<Option<seq<Cell>>>, bottom: Option<seq<Cell>>): (rows: seq<Option<seq<Cell>>>)
    ensures |rows| == |body| + 4
    ensures rows[0] == top && rows[1].None?
    ensures forall i :: 0 <= i < |body| ==> rows[i + 2] == body[i]
    ensures rows[|body| + 2].None? && rows[|body| + 3] == bottom
  {
    [top, None] + body + [None, bottom]
  }

  /** The summary sheet: the title in row 0, an empty row, the six
      label/value rows in rows 2 to 7 in a fixed order, an empty row, and the
      generation time in row 9. */
  function SummaryRows(env: RenderEnv, s: SummaryStats): (rows: seq<Option<seq<Cell>>>)
    ensures |rows| == 10
    ensures rows[0] == Some([Text(SummaryTitle)])
    ensures rows[1].None? && rows[8].None?
    ensures forall i :: 0 <= i < |SummaryLabels| ==>
      rows[i + 2] == Some(SummaryRow(SummaryLabels[i], SummaryValues(s)[i]))
    ensures rows[9] == Some([Text(GeneratedAtLabel), Text(env.formatDateTime(env.now))])
  {
    Framed(Some([Text(SummaryTitle)]), CaptionedRows(SummaryLabels, SummaryValues(s)),
           Some([Text(GeneratedAtLabel), Text(env.formatDateTime(env.now))]))
  }

  /** `exportOrdersToExcel(orders)`: the detail sheet followed by the summary
      sheet, or, when the library fails anywhere, the one wrapped error and no
      workbook. */
  function ExportOrdersToExcel(env: RenderEnv, orders: seq<Order>): (r: Result<Workbook, string>)
    ensures r.Failure? <==> env.libraryFails
    ensures r.Failure? ==> r.error == "Error exporting orders to Excel"
    ensures r.Success? ==>
      && |r.value.sheets| == 2
      && r.value.sheets[0].name == DetailSheetName
      && r.value.sheets[1].name == SummarySheetName
      && r.value.sheets[0].rows == DetailRows(env, orders)
      && r.value.sheets[0].widths == DetailWidths(env)
      && r.value.sheets[1].rows == SummaryRows(env, Summarize(orders))
  {
    if env.libraryFails then
      Failure("Error exporting orders to Excel")
    else
      var detail := Sheet(DetailSheetName, DetailRows(env, orders), DetailWidths(env));
      var summaryWidths := [env.autoWidth(SummarySheetName, 0), env.autoWidth(SummarySheetName, 1)];
      var summary := Sheet(SummarySheetName, SummaryRows(env, Summarize(orders)), summaryWidths);
      Success(Workbook([detail, summary]))
  }

  /** The text of the value cell of a label/value row (blank for anything else). */
  function ValueText(row: Option<seq<Cell>>): string {
    if row.Some? && |row.value| == 2 && row.value[1].Text? then row.value[1].text else ""
  }

  /** In an exported workbook the order count the summary sheet states is the
      number of data rows of the detail sheet, and the amount it states is the
      sum of the detail sheet's amount cells. */
  lemma SummaryAgreesWithDetail(env: RenderEnv, orders: seq<Order>)
    requires !env.libraryFails
    ensures var wb := ExportOrdersToExcel(env, orders).value;
      && ParseNat(ValueText(wb.sheets[1].rows[2])) == Some(|wb.sheets[0].rows| - 1)
      && ParseYuan(ValueText(wb.sheets[1].rows[7])) == Some(AmountColumnTotal(wb.sheets[0].rows[1..]))
  {
    var wb := ExportOrdersToExcel(env, orders).value;
    var st := Summarize(orders);
    var detail := DetailRows(env, orders);
    var summary := SummaryRows(env, st);
    assert wb.sheets[0].rows == detail && wb.sheets[1].rows == summary;
    var values := SummaryValues(st);
    assert ValueText(summary[2]) == values[0];
    assert ValueText(summary[7]) == values[5];
    assert Counts(st)[0] == st.totalOrders;
    assert st.totalOrders == |detail| - 1;
    AmountColumnTotalOfRows(env, orders);
    assert st.totalAmount == AmountColumnTotal(detail[1..]);
  }

  /** The sum of the amount cells (column 4) of data rows. */
  function AmountColumnTotal(rows: seq<Option<seq<Cell>>>): int {
    if |rows| == 0 then 0
    else
      var head := if rows[0].Some? && |rows[0].value| > 4 && rows[0].value[4].Number? then rows[0].value[4].cents else 0;
      head + AmountColumnTotal(rows[1..])
  }

  lemma {:induction false} AmountColumnTotalOfRows(env: RenderEnv, orders: seq<Order>)
    ensures AmountColumnTotal(DetailRows(env, orders)[1..]) == TotalAmount(orders)
  {
    var rows := DetailRows(env, orders)[1..];
    if |orders| > 0 {
      AmountColumnTotalOfRows(env, orders[1..]);
      assert DetailRows(env, orders[1..])[1..] == rows[1..];
      assert rows[0] == Some(DetailRow(env, orders[0]));
    }
  }
}
