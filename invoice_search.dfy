/** `golem-sdk invoice search` (src/payment/invoice-search.action.ts): fetching invoices and printing them. */
module InvoiceSearch {
  import opened Wrappers
  import opened Text
  import opened Data
  import opened Invoices

  /** `allColumns` of `getRow`. */
  const Columns := ["id", "status", "amount", "timestamp", "platform", "payer", "issuer", "providerId"]

  function AllColumns(x: Invoice): (r: Row)
    ensures Keys(r) == Columns && NoDuplicates(Keys(r))
  {
    NoDuplicatesByShape(Columns);
    Zip(Columns, [x.invoiceId, x.status, x.amount, x.timestamp, x.paymentPlatform, x.payerAddr, x.payeeAddr,
                  x.issuerId])
  }

  function GetRow(x: Invoice, columns: seq<string>): Row {
    Pick(AllColumns(x), columns)
  }

  function Rows(invoices: seq<Invoice>, columns: seq<string>): (r: seq<Row>)
    ensures |r| == |invoices| && forall i :: 0 <= i < |invoices| ==> r[i] == GetRow(invoices[i], columns)
  {
    if |invoices| == 0 then [] else [GetRow(invoices[0], columns)] + Rows(invoices[1..], columns)
  }

  /** Invoices still waiting for the requestor are shown in red, the others in green. */
  function RowColor(x: Invoice): string {
    if x.status == "RECEIVED" || x.status == "ISSUED" then "red" else "green"
  }

  function Coloured(invoices: seq<Invoice>, columns: seq<string>): (r: seq<(Row, string)>)
    ensures |r| == |invoices|
    ensures forall i :: 0 <= i < |invoices| ==> r[i] == (GetRow(invoices[i], columns), RowColor(invoices[i]))
  {
    if |invoices| == 0 then []
    else [(GetRow(invoices[0], columns), RowColor(invoices[0]))] + Coloured(invoices[1..], columns)
  }

  /** `printRows`. */
  function PrintRows(invoices: seq<Invoice>, o: SearchOptions): seq<Line> {
    if o.format == "table" then
      if |invoices| == 0 then [Note("No invoices found")] else [TableOut(Coloured(invoices, o.columns))]
    else if o.format == "json" then [JsonOut(Rows(invoices, o.columns))]
    else if o.format == "csv" then [CsvColumns(o.columns), CsvText(Join(CsvLines(Rows(invoices, o.columns)), "\n"))]
    else []
  }

  const FetchFailed := "Failed to fetch invoices, check your parameters and try again"

  /** `searchAction`. */
  function SearchAction(o: SearchOptions, p: Processor): seq<Line> {
    match FetchInvoices(o.invoice, SearchFilter(o), p)
    case Failure(_) => [Note(FetchFailed)]
    case Success(invoices) => PrintRows(invoices, o)
  }

  /**
   * Each printed row holds exactly the requested columns that exist, once each, with the
   * invoice's own values; a row is red exactly when its invoice is RECEIVED or ISSUED.
   */
  lemma RowContents(x: Invoice, columns: seq<string>)
    ensures var row := GetRow(x, columns);
      NoDuplicates(Keys(row))
      && (forall k :: k in Keys(row) <==> k in columns && k in Keys(AllColumns(x)))
      && ("status" in columns ==> "status" in Keys(row) && ValueOf(row, "status") == x.status)
      && (RowColor(x) == "red" <==> x.status in {"RECEIVED", "ISSUED"})
  {
    var all := AllColumns(x);
    PickedColumns(all, columns);
    if "status" in columns {
      assert all[1].key == "status";
      PickedValue(all, columns, 1);
    }
  }

  /**
   * A failed fetch prints only the message; otherwise the fetched invoices are printed
   * in the order fetched: a table (or the one message when there are none), one JSON
   * row or one CSV line per invoice, and nothing for an unknown format.
   */
  lemma SearchOutput(o: SearchOptions, p: Processor)
    ensures var f := FetchInvoices(o.invoice, SearchFilter(o), p);
      (f.Failure? ==> SearchAction(o, p) == [Note(FetchFailed)])
      && (f.Success? ==> SearchAction(o, p) == PrintRows(f.value, o))
      && (f.Success? && o.format == "table" && |f.value| == 0 ==> SearchAction(o, p) == [Note("No invoices found")])
      && (f.Success? && o.format == "csv" ==> |CsvLines(Rows(f.value, o.columns))| == |f.value|)
      && (f.Success? && o.format !in {"table", "json", "csv"} ==> SearchAction(o, p) == [])
  {
  }
}
