/** The two PDF documents as sequences of layout blocks: the single-order
    invoice (a key/value table and optional text blocks) and the batch
    invoice (a five-column summary table). Fonts, alignment and the written
    bytes are not part of the model. */
module InvoiceService {
  import opened Options
  import opened Seqs
  import opened Text
  import opened Orders
  import opened Rendering

  /** What a paragraph is for; its font size and alignment follow from it. */
  datatype Role = Title | CountLine | Spacer | Heading | Body | Thanks | GeneratedAt

  datatype Block =
    | Para(role: Role, text: string)
      /** A two-column table of label/value pairs. */
    | KeyValueTable(pairs: seq<(string, string)>)
      /** A table with a header row and its body cells, row after row. */
    | GridTable(header: seq<string>, cells: seq<string>)

  datatype Document = Document(blocks: seq<Block>)

  const Blank: Block := Para(Spacer, "\n")

  /** `addTableRow`: a label and a value, with `null` written as "". */
  function AddTableRow(caption: string, value: Option<string>): (row: (string, string))
    ensures row.0 == caption
    ensures value.Some? ==> row.1 == value.value
    ensures value.None? ==> row.1 == ""
  {
    (caption, value.GetOr(""))
  }

  const InfoLabels: seq<string> := [
    "订单号 / Order Number:",
    "客户姓名 / Customer Name:",
    "客户邮箱 / Email:",
    "客户电话 / Phone:",
    "订单状态 / Status:",
    "订单日期 / Order Date:",
    "总金额 / Total Amount:"]

  /** `addTableRow` applied to each caption and its value, in order. */
  function TableRows(captions: seq<string>, values: seq<Option<string>>): (rows: seq<(string, string)>)
    requires |captions| == |values|
    ensures |rows| == |captions|
    ensures forall i :: 0 <= i < |rows| ==> rows[i] == AddTableRow(captions[i], values[i])
  {
    seq(|captions|, i requires 0 <= i < |captions| => AddTableRow(captions[i], values[i]))
  }

  /** The order's values for the invoice table, `null` where the order has none. */
  function InfoValues(env: RenderEnv, o: Order): (values: seq<Option<string>>)
    ensures |values| == 7
  {
    [ Some(o.orderNumber),
      Some(o.customerName),
      o.customerEmail,
      o.customerPhone,
      Some(StatusName(o.status)),
      Some(env.formatDateTime(o.orderDate)),
      Some(YuanText(o.totalAmount)) ]
  }

  /** The seven rows of the invoice table, from order number to amount:
      each label with the order's value, blank where the value is `null`. */
  function InfoRows(env: RenderEnv, o: Order): (rows: seq<(string, string)>)
    ensures |rows| == |InfoLabels| == 7
    ensures forall i :: 0 <= i < 7 ==>
      rows[i].0 == InfoLabels[i] && rows[i].1 == InfoValues(env, o)[i].GetOr("")
  {
    TableRows(InfoLabels, InfoValues(env, o))
  }

  /** The text values of the invoice table give the order's fields back,
      email and phone as blank when absent. */
  lemma InfoRowsReadBack(env: RenderEnv, o: Order)
    ensures var rows := InfoRows(env, o);
      && rows[0].1 == o.orderNumber && rows[1].1 == o.customerName
      && (o.customerEmail.Some? ==> rows[2].1 == o.customerEmail.value)
      && (o.customerEmail.None? ==> rows[2].1 == "")
      && (o.customerPhone.Some? ==> rows[3].1 == o.customerPhone.value)
      && (o.customerPhone.None? ==> rows[3].1 == "")
  {
    var v, rows := InfoValues(env, o), InfoRows(env, o);
    assert v[0] == Some(o.orderNumber) && v[1] == Some(o.customerName);
    assert v[2] == o.customerEmail && v[3] == o.customerPhone;
    assert rows[0].1 == v[0].GetOr("") && rows[1].1 == v[1].GetOr("");
    assert rows[2].1 == v[2].GetOr("") && rows[3].1 == v[3].GetOr("");
  }

  /** The status and amount rows of the invoice table read back as the
      order's status and amount. */
  lemma InfoRowsTypedReadBack(env: RenderEnv, o: Order)
    ensures ParseStatus(InfoRows(env, o)[4].1) == Some(o.status)
    ensures ParseYuan(InfoRows(env, o)[6].1) == Some(o.totalAmount)
  {
    var v, rows := InfoValues(env, o), InfoRows(env, o);
    assert v[4] == Some(StatusName(o.status)) && v[6] == Some(YuanText(o.totalAmount));
    StatusReadsBack(rows[4].1, o.status);
    YuanTextReadsBack(o.totalAmount);
  }

  /** A status written by name reads back as that status. */
  lemma StatusReadsBack(text: string, st: Status)
    requires text == StatusName(st)
    ensures ParseStatus(text) == Some(st)
  {
    StatusNameRoundTrip(st, text);
  }

  const ProductDetailsHeading: string := "产品详情 / Product Details:"
  const DescriptionHeading: string := "订单描述 / Description:"

  /** A heading, the text and a blank line, for a text that is present and
      not empty; nothing otherwise. */
  function OptionalSection(heading: string, text: Option<string>): (r: seq<Block>)
    ensures |r| == 0 || |r| == 3
    ensures |r| == 3 <==> text.Some? && text.value != ""
    ensures |r| == 3 ==> r[0] == Para(Heading, heading) && r[1] == Para(Body, text.value) && r[2] == Blank
  {
    if text.Some? && text.value != "" then [Para(Heading, heading), Para(Body, text.value), Blank] else []
  }

  function GeneratedAtLine(env: RenderEnv): Block {
    Para(GeneratedAt, "生成时间 / Generated at: " + env.formatDateTime(env.now))
  }

  /** The title, the invoice table and their spacing. */
  function InvoiceFront(env: RenderEnv, o: Order): seq<Block> {
    [Para(Title, "订单发票 / Order Invoice"), Blank, KeyValueTable(InfoRows(env, o)), Blank]
  }

  /** The thanks line and the generation time. */
  function InvoiceBack(env: RenderEnv): seq<Block> {
    [Para(Thanks, "感谢您的订购！/ Thank you for your order!"), GeneratedAtLine(env)]
  }

  /** The blocks of one invoice, in document order. */
  function InvoiceBlocks(env: RenderEnv, o: Order): (blocks: seq<Block>)
    ensures |blocks| >= 6
    ensures blocks[2] == KeyValueTable(InfoRows(env, o))
    ensures blocks[|blocks| - 2..] == InvoiceBack(env)
  {
    InvoiceFront(env, o)
      + OptionalSection(ProductDetailsHeading, o.productDetails)
      + OptionalSection(DescriptionHeading, o.description)
      + InvoiceBack(env)
  }

  predicate IsHeading(b: Block) {
    b.Para? && b.role == Heading
  }

  /** `generatePdfInvoice(order)`: the invoice, or the one wrapped error and
      no document when the library fails. */
  function GeneratePdfInvoice(env: RenderEnv, o: Order): (r: Result<Document, string>)
    ensures r.Failure? <==> env.libraryFails
    ensures r.Failure? ==> r.error == "Error generating PDF invoice"
    ensures r.Success? ==> r.value.blocks == InvoiceBlocks(env, o)
  {
    if env.libraryFails then Failure("Error generating PDF invoice")
    else Success(Document(InvoiceBlocks(env, o)))
  }

  /** Whether the text block of an optional field is printed. */
  predicate Printed(text: Option<string>) {
    text.Some? && text.value != ""
  }

  /** Each optional section adds three blocks to the six fixed ones. */
  lemma InvoiceLength(env: RenderEnv, o: Order)
    ensures |InvoiceBlocks(env, o)| ==
      6 + (if Printed(o.productDetails) then 3 else 0) + (if Printed(o.description) then 3 else 0)
  {
    assert |InvoiceFront(env, o)| == 4 && |InvoiceBack(env)| == 2;
  }

  /** The product-details heading is printed exactly when the order has
      product details, the description heading exactly when it has a
      description. */
  lemma InvoiceHeadings(env: RenderEnv, o: Order)
    ensures Para(Heading, ProductDetailsHeading) in InvoiceBlocks(env, o) <==> Printed(o.productDetails)
    ensures Para(Heading, DescriptionHeading) in InvoiceBlocks(env, o) <==> Printed(o.description)
  {
    var front, back := InvoiceFront(env, o), InvoiceBack(env);
    var product := OptionalSection(ProductDetailsHeading, o.productDetails);
    var description := OptionalSection(DescriptionHeading, o.description);
    NoHeadingOutsideSections(env, o);
    assert ProductDetailsHeading != DescriptionHeading;
    SectionMembership(front, product, description, back, Para(Heading, ProductDetailsHeading));
    SectionMembership(front, product, description, back, Para(Heading, DescriptionHeading));
  }

  /** The product-details section comes right after the invoice table and
      its spacing. */
  lemma ProductSectionPosition(env: RenderEnv, o: Order)
    requires Printed(o.productDetails)
    ensures InvoiceBlocks(env, o)[4] == Para(Heading, ProductDetailsHeading)
    ensures InvoiceBlocks(env, o)[5] == Para(Body, o.productDetails.value)
  {
    var front := InvoiceFront(env, o);
    var product := OptionalSection(ProductDetailsHeading, o.productDetails);
    var description := OptionalSection(DescriptionHeading, o.description);
    assert |front| == 4;
    PartAt(front, product, description + InvoiceBack(env), 0);
    PartAt(front, product, description + InvoiceBack(env), 1);
  }

  /** The description section follows the product-details section, or takes
      its place when there are no product details. */
  lemma DescriptionSectionPosition(env: RenderEnv, o: Order)
    requires Printed(o.description)
    ensures var at := if Printed(o.productDetails) then 7 else 4;
      && InvoiceBlocks(env, o)[at] == Para(Heading, DescriptionHeading)
      && InvoiceBlocks(env, o)[at + 1] == Para(Body, o.description.value)
  {
    var before := InvoiceFront(env, o) + OptionalSection(ProductDetailsHeading, o.productDetails);
    var description := OptionalSection(DescriptionHeading, o.description);
    assert |InvoiceFront(env, o)| == 4;
    assert |before| == if Printed(o.productDetails) then 7 else 4;
    PartAt(before, description, InvoiceBack(env), 0);
    PartAt(before, description, InvoiceBack(env), 1);
  }

  /** Element `k` of the middle part of three sits `|a|` further on. */
  lemma PartAt<T>(a: seq<T>, b: seq<T>, c: seq<T>, k: nat)
    requires k < |b|
    ensures (a + b + c)[|a| + k] == b[k]
    ensures a + b + c == a + (b + c)
  {
  }

  /** The fixed blocks of an invoice are no headings. */
  lemma NoHeadingOutsideSections(env: RenderEnv, o: Order)
    ensures forall k :: 0 <= k < |InvoiceFront(env, o)| ==> !IsHeading(InvoiceFront(env, o)[k])
    ensures forall k :: 0 <= k < |InvoiceBack(env)| ==> !IsHeading(InvoiceBack(env)[k])
  {
    var front := InvoiceFront(env, o);
    assert front[2].KeyValueTable?;
    assert !IsHeading(front[0]) && !IsHeading(front[1]) && !IsHeading(front[3]);
  }

  /** A heading in the assembled invoice comes from one of the two sections. */
  lemma SectionMembership(front: seq<Block>, product: seq<Block>, description: seq<Block>, back: seq<Block>, h: Block)
    requires IsHeading(h)
    requires forall k :: 0 <= k < |front| ==> !IsHeading(front[k])
    requires forall k :: 0 <= k < |back| ==> !IsHeading(back[k])
    ensures h in front + product + description + back <==> h in product || h in description
  {
    assert h !in front && h !in back;
  }

  // ---------------------------------------------------------------------------
  // Batch invoice
  // ---------------------------------------------------------------------------

  const BatchHeaders: seq<string> := ["订单号", "客户姓名", "状态", "金额", "日期"]

  /** The five cells of one order in the batch table. */
  function BatchRow(env: RenderEnv, o: Order): (r: seq<string>)
    ensures |r| == 5
  {
    [o.orderNumber, o.customerName, StatusName(o.status), YuanText(o.totalAmount), env.formatMonthDay(o.orderDate)]
  }

  /** The body cells of the batch table: each order's five cells, in input
      order. */
  function BatchCells(env: RenderEnv, orders: seq<Order>): seq<string> {
    FlatMap(orders, (o: Order) => BatchRow(env, o))
  }

  /** The cells of two lists are the cells of the first, then of the second. */
  lemma BatchCellsAppend(env: RenderEnv, a: seq<Order>, b: seq<Order>)
    ensures BatchCells(env, a + b) == BatchCells(env, a) + BatchCells(env, b)
  {
    FlatMapAppend(a, b, (o: Order) => BatchRow(env, o));
  }

  /** Cell `j` of table row `i` is cell `j` of the `i`-th order's row, and
      there are five cells per order. */
  lemma BatchCellAt(env: RenderEnv, orders: seq<Order>, i: nat, j: nat)
    requires i < |orders| && j < 5
    ensures |BatchCells(env, orders)| == 5 * |orders|
    ensures 5 * i + j < |BatchCells(env, orders)|
    ensures BatchCells(env, orders)[5 * i + j] == BatchRow(env, orders[i])[j]
  {
    FlatMapAt(orders, (o: Order) => BatchRow(env, o), 5, i, j);
  }

  /** "共 n 个订单 / Total n orders". */
  function CountLineText(n: nat): string {
    "共 " + (NatToString(n) + CountLineTail(n))
  }

  /** What follows the first numeral of the count line. */
  function CountLineTail(n: nat): (tail: string)
    ensures |tail| > 0 && tail[0] == ' '
  {
    " 个订单 / Total " + NatToString(n) + " orders"
  }

  /** A digit run that starts the same text as another digit run, and is
      followed by a non-digit, is not the shorter of the two. */
  lemma RunNotShorter(x: string, y: string, xs: string, ys: string)
    requires AllDigits(y) && |xs| > 0 && !IsDigit(xs[0])
    requires x + xs == y + ys
    ensures |x| >= |y|
  {
    assert (x + xs)[|x|] == xs[0];
    assert (y + ys)[|x|] == (x + xs)[|x|];
  }

  /** Two digit runs, each followed by a non-digit, that start the same text
      are the same run. */
  lemma DigitRunUnique(x: string, y: string, xs: string, ys: string)
    requires AllDigits(x) && AllDigits(y)
    requires |xs| > 0 && !IsDigit(xs[0]) && |ys| > 0 && !IsDigit(ys[0])
    requires x + xs == y + ys
    ensures x == y
  {
    RunNotShorter(x, y, xs, ys);
    RunNotShorter(y, x, ys, xs);
    assert x == (x + xs)[..|x|];
    assert y == (y + ys)[..|y|];
  }

  /** The count line states the number of orders: different counts give
      different lines. */
  lemma CountLineDeterminesCount(m: nat, n: nat)
    requires CountLineText(m) == CountLineText(n)
    ensures m == n
  {
    assert NatToString(m) + CountLineTail(m) == CountLineText(m)[2..];
    assert NatToString(n) + CountLineTail(n) == CountLineText(n)[2..];
    DigitRunUnique(NatToString(m), NatToString(n), CountLineTail(m), CountLineTail(n));
    NatToStringInjective(m, n);
  }

  /** The blocks of the batch invoice, in document order. */
  function BatchBlocks(env: RenderEnv, orders: seq<Order>): (blocks: seq<Block>)
    ensures |blocks| == 6
    ensures blocks[1] == Para(CountLine, CountLineText(|orders|))
    ensures blocks[3] == GridTable(BatchHeaders, BatchCells(env, orders))
    ensures blocks[5] == GeneratedAtLine(env)
  {
    [ Para(Title, "批量订单发票 / Batch Order Invoices"),
      Para(CountLine, CountLineText(|orders|)),
      Blank,
      GridTable(BatchHeaders, BatchCells(env, orders)),
      Blank,
      GeneratedAtLine(env) ]
  }

  /** `generateBatchPdfInvoices(orders)`: the batch invoice, or the one
      wrapped error and no document when the library fails. */
  function GenerateBatchPdfInvoices(env: RenderEnv, orders: seq<Order>): (r: Result<Document, string>)
    ensures r.Failure? <==> env.libraryFails
    ensures r.Failure? ==> r.error == "Error generating batch PDF invoices"
    ensures r.Success? ==> r.value.blocks == BatchBlocks(env, orders)
  {
    if env.libraryFails then Failure("Error generating batch PDF invoices")
    else Success(Document(BatchBlocks(env, orders)))
  }

  /** The batch table holds 5 header cells and 5 cells per order, 5·(n+1)
      in all. */
  lemma BatchTableSize(env: RenderEnv, orders: seq<Order>)
    ensures var t := BatchBlocks(env, orders)[3];
      |t.header| + |t.cells| == 5 * (|orders| + 1)
  {
    assert |BatchHeaders| == 5;
    FlatMapLength(orders, (o: Order) => BatchRow(env, o), 5);
  }

  /** The cells of one order's row give the order back: its number and
      name, its status by name and its amount. */
  lemma BatchRowReadsBack(env: RenderEnv, o: Order)
    ensures var row := BatchRow(env, o);
      && row[0] == o.orderNumber && row[1] == o.customerName
      && ParseStatus(row[2]) == Some(o.status)
      && ParseYuan(row[3]) == Some(o.totalAmount)
  {
    var row := BatchRow(env, o);
    assert row[2] == StatusName(o.status) && row[3] == YuanText(o.totalAmount);
    StatusReadsBack(row[2], o.status);
    YuanTextReadsBack(o.totalAmount);
  }

  /** Row `i` of the batch table is the `i`-th order's row. */
  lemma BatchTableRow(env: RenderEnv, orders: seq<Order>, i: nat)
    requires i < |orders|
    ensures 5 * i + 4 < |BatchCells(env, orders)|
    ensures forall j :: 0 <= j < 5 ==> BatchCells(env, orders)[5 * i + j] == BatchRow(env, orders[i])[j]
  {
    BatchCellAt(env, orders, i, 4);
    forall j | 0 <= j < 5 ensures BatchCells(env, orders)[5 * i + j] == BatchRow(env, orders[i])[j] {
      BatchCellAt(env, orders, i, j);
    }
  }
}
