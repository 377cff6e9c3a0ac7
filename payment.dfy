/**
 * `golem-sdk payment` (src/payment/payment.action.ts): fetching and sorting invoices,
 * printing the requested columns, and paying the unpaid ones after confirmation.
 */
module Payment {
  import opened Wrappers
  import opened Text
  import opened Data
  import opened Decimal
  import opened Invoices

  /** `PaymentOptions`. */
  datatype PaymentOptions = PaymentOptions(yagnaAppkey: string, after: int, limit: nat, provider: Option<seq<string>>,
                                           wallet: Option<seq<string>>, minAmount: Option<string>,
                                           maxAmount: Option<string>, columns: seq<string>, status: seq<string>,
                                           invoice: Option<seq<string>>, format: string,
                                           pay: bool, yes: bool, dryRun: bool, silent: bool)

  /** The options of `payment` when only the app key is given. */
  function DefaultPaymentOptions(appKey: string): (o: PaymentOptions)
    ensures o.limit == 50 && o.after == 0 && o.status == ["RECEIVED", "ACCEPTED", "SETTLED"]
    ensures o.columns == ["id", "paid", "status", "amount", "timestamp"]
    ensures o.format == "table" && o.invoice.None?
    ensures !o.pay && !o.yes && !o.dryRun && !o.silent
  {
    PaymentOptions(appKey, DefaultAfter, DefaultLimit, None, None, None, None, DefaultPaymentColumns,
                   DefaultStatuses, None, DefaultFormat, false, false, false, false)
  }

  /** The search filters of this command's `fetchInvoices`, which has no payment-platform filter. */
  function PaymentFilter(o: PaymentOptions): (f: Filter)
    ensures f.paymentPlatforms.None?
    ensures f.limit == o.limit && f.after == o.after && f.statuses == o.status && f.providerIds == o.provider
    ensures f.providerWallets == o.wallet && f.minAmount == o.minAmount && f.maxAmount == o.maxAmount
  {
    Filter(o.limit, o.after, o.status, o.provider, o.wallet, o.minAmount, o.maxAmount, None)
  }

  function PaidLabel(status: string): string {
    if status != "RECEIVED" then "paid" else "unpaid"
  }

  /** `allColumns` of `printRows`. */
  const Columns := ["id", "paid", "status", "amount", "timestamp", "platform", "payer", "issuer", "providerId"]

  function AllColumns(x: Invoice): (r: Row)
    ensures Keys(r) == Columns && NoDuplicates(Keys(r))
  {
    NoDuplicatesByShape(Columns);
    Zip(Columns, [x.invoiceId, PaidLabel(x.status), x.status, x.amount, x.timestamp, x.paymentPlatform,
                  x.payerAddr, x.payeeAddr, x.issuerId])
  }

  function InvoiceRow(x: Invoice, columns: seq<string>): Row {
    Pick(AllColumns(x), columns)
  }

  function Rows(invoices: seq<Invoice>, columns: seq<string>): (r: seq<Row>)
    ensures |r| == |invoices| && forall i :: 0 <= i < |invoices| ==> r[i] == InvoiceRow(invoices[i], columns)
  {
    if |invoices| == 0 then [] else [InvoiceRow(invoices[0], columns)] + Rows(invoices[1..], columns)
  }

  /** The table colour: white without a `paid` column, green when paid, red when not. */
  function RowColor(row: Row): string {
    if "paid" !in Keys(row) then "white" else if ValueOf(row, "paid") == "paid" then "green" else "red"
  }

  function Coloured(rows: seq<Row>): (r: seq<(Row, string)>)
    ensures |r| == |rows| && forall i :: 0 <= i < |rows| ==> r[i] == (rows[i], RowColor(rows[i]))
  {
    if |rows| == 0 then [] else [(rows[0], RowColor(rows[0]))] + Coloured(rows[1..])
  }

  /** `printRows`. */
  function PrintRows(invoices: seq<Invoice>, o: PaymentOptions): seq<Line> {
    var rows := Rows(invoices, o.columns);
    if o.format == "table" then
      if |rows| == 0 then [Note("No invoices found")] else [TableOut(Coloured(rows))]
    else if o.format == "json" then [JsonOut(rows)]
    else if o.format == "csv" then [CsvColumns(o.columns), CsvText(Join(CsvLines(rows), "\n"))]
    else []
  }

  /**
   * A row holds exactly the requested columns that exist, once each, with the invoice's
   * values; `paid` is "paid" exactly when the status is not RECEIVED, and the row is
   * green exactly then (red otherwise, white without the column).
   */
  lemma RowContents(x: Invoice, columns: seq<string>)
    ensures var row := InvoiceRow(x, columns);
      NoDuplicates(Keys(row))
      && (forall k :: k in Keys(row) <==> k in columns && k in Keys(AllColumns(x)))
      && ("paid" in columns ==> "paid" in Keys(row) && (ValueOf(row, "paid") == "paid" <==> x.status != "RECEIVED"))
      && (RowColor(row) == "white" <==> "paid" !in columns)
      && ("paid" in columns ==> (RowColor(row) == "green" <==> x.status != "RECEIVED"))
  {
    var all := AllColumns(x);
    PickedColumns(all, columns);
    if "paid" in columns {
      assert all[1].key == "paid";
      PickedValue(all, columns, 1);
    }
  }

  /** Table output of no invoices is the one message; CSV has a line per invoice. */
  lemma PrintShapes(invoices: seq<Invoice>, o: PaymentOptions)
    ensures o.format == "table" && |invoices| == 0 ==> PrintRows(invoices, o) == [Note("No invoices found")]
    ensures o.format == "csv" ==>
      PrintRows(invoices, o) == [CsvColumns(o.columns), CsvText(Join(CsvLines(Rows(invoices, o.columns)), "\n"))]
      && |CsvLines(Rows(invoices, o.columns))| == |invoices|
    ensures o.format == "json" ==> PrintRows(invoices, o) == [JsonOut(Rows(invoices, o.columns))]
  {
  }

  /** The invoices `pay` is given: those still RECEIVED, in order. */
  function Unpaid(invoices: seq<Invoice>): (r: seq<Invoice>)
    ensures forall x :: x in r <==> x in invoices && x.status == "RECEIVED"
  {
    if |invoices| == 0 then []
    else
      var rest := Unpaid(invoices[1..]);
      assert invoices == [invoices[0]] + invoices[1..];
      if invoices[0].status == "RECEIVED" then [invoices[0]] + rest else rest
  }

  /**
   * `filter` keeps the fetched order: the invoices of a concatenation are those of each
   * part in turn, and a single invoice is kept exactly when it is RECEIVED. The card
   * numbering and the total of `pay` follow this order.
   */
  lemma {:induction false} UnpaidInOrder(a: seq<Invoice>, b: seq<Invoice>, x: Invoice)
    ensures Unpaid(a + b) == Unpaid(a) + Unpaid(b)
    ensures Unpaid([x]) == if x.status == "RECEIVED" then [x] else []
    decreases |a|
  {
    var all := a + b;
    if |a| == 0 {
      assert all == b;
    } else {
      assert all[0] == a[0] && all[1..] == a[1..] + b;
      UnpaidInOrder(a[1..], b, x);
    }
    assert [x][1..] == [];
  }

  /** The details shown before each pay prompt. */
  function PayCard(x: Invoice): Row {
    [Cell("Invoice id", x.invoiceId), Cell("Amount", x.amount), Cell("Timestamp", x.timestamp),
     Cell("Provider id", x.issuerId), Cell("Provider address", x.payeeAddr)]
  }

  /** The printed lines, the invoices handed to `acceptManyInvoices` with the dry-run flag, and whether it threw. */
  datatype PayRun = PayRun(lines: seq<Line>, accepted: Option<seq<Invoice>>, thrown: bool)

  function SummaryRow(r: AcceptResult): Row {
    [Cell("invoiceId", r.invoiceId), Cell("status", StatusLabel(r.success, r.dryRun)), Cell("amount", r.amount)]
  }

  function Summary(stats: seq<AcceptResult>): (r: seq<(Row, string)>)
    ensures |r| == |stats|
    ensures forall i :: 0 <= i < |stats| ==> r[i] == (SummaryRow(stats[i]), ResultColor(stats[i].success, stats[i].dryRun))
  {
    if |stats| == 0 then []
    else [(SummaryRow(stats[0]), ResultColor(stats[0].success, stats[0].dryRun))] + Summary(stats[1..])
  }

  /** `acceptManyInvoices` on `toPay` and the summary of the processor's `stats`. */
  function Accept(lines: seq<Line>, toPay: seq<Invoice>, o: PaymentOptions, stats: seq<AcceptResult>): PayRun {
    PayRun(if o.silent then lines else lines + [TableOut(Summary(stats))], Some(toPay), false)
  }

  /** `pay`. */
  function Pay(o: PaymentOptions, invoices: seq<Invoice>, c: Confirm, stats: seq<AcceptResult>): PayRun {
    if |invoices| == 0 then PayRun([Note("No unpaid invoices found")], None, false)
    else
      var found := [Found(|invoices|, "unpaid")];
      if o.yes then Accept(found, invoices, o, stats)
      else
        var asked := AskUpTo(invoices, c.answers, |invoices|, PayCard);
        var shown := found + asked.cards;
        if asked.cancelled then PayRun(shown + [Note("Script cancelled")], None, false)
        else
          var total := Total(Amounts(asked.selected));
          if total.None? then PayRun(shown, None, true)
          else
            var lines := shown + [ToPay(|asked.selected|, total.value)];
            if c.final != Some(true) then PayRun(lines + [Note("Payment cancelled")], None, false)
            else Accept(lines, asked.selected, o, stats)
  }

  /**
   * Nothing unpaid prints the one message and pays nothing; `--yes` pays every invoice;
   * otherwise what is paid is what was answered yes, after the total of exactly those
   * amounts was shown and the final prompt was confirmed.
   */
  lemma PaySelection(o: PaymentOptions, invoices: seq<Invoice>, c: Confirm, stats: seq<AcceptResult>)
    ensures |invoices| == 0 ==> Pay(o, invoices, c, stats) == PayRun([Note("No unpaid invoices found")], None, false)
    ensures |invoices| > 0 && o.yes ==> Pay(o, invoices, c, stats).accepted == Some(invoices)
    ensures var run := Pay(o, invoices, c, stats);
      |invoices| > 0 && !o.yes && run.accepted.Some? ==>
        |c.answers| >= |invoices| && c.final == Some(true)
        && run.accepted.value == Taken(invoices, c.answers)
        && Total(Amounts(run.accepted.value)).Some?
        && ToPay(|run.accepted.value|, Total(Amounts(run.accepted.value)).value) in run.lines
  {
    assert invoices[..|invoices|] == invoices;
  }

  /** The printed lines, and what was paid. */
  datatype PaymentRun = PaymentRun(lines: seq<Line>, accepted: Option<seq<Invoice>>, thrown: bool)

  /** `paymentAction`; `instant` reads a timestamp as milliseconds. */
  function PaymentAction(o: PaymentOptions, p: Processor, instant: string -> int, c: Confirm,
                         stats: seq<AcceptResult>): PaymentRun
  {
    match FetchInvoices(o.invoice, PaymentFilter(o), p)
    case Failure(_) => PaymentRun([Note("Failed to fetch invoices, check your parameters and try again")], None, false)
    case Success(fetched) =>
      var invoices := SortByTime(fetched, instant);
      var printed := if o.silent then [] else PrintRows(invoices, o);
      if !o.pay then PaymentRun(printed, None, false)
      else
        var run := Pay(o, Unpaid(invoices), c, stats);
        PaymentRun(printed + run.lines, run.accepted, run.thrown)
  }

  /**
   * A fetch failure prints only its message and pays nothing; only invoices that were
   * fetched and are still RECEIVED are ever paid, and only with `--pay`.
   */
  lemma PaymentGates(o: PaymentOptions, p: Processor, instant: string -> int, c: Confirm, stats: seq<AcceptResult>)
    ensures var f := FetchInvoices(o.invoice, PaymentFilter(o), p);
      f.Failure? ==> (PaymentAction(o, p, instant, c, stats)
                      == PaymentRun([Note("Failed to fetch invoices, check your parameters and try again")], None, false))
    ensures var run := PaymentAction(o, p, instant, c, stats);
      run.accepted.Some? ==>
        o.pay && FetchInvoices(o.invoice, PaymentFilter(o), p).Success?
        && forall x :: x in run.accepted.value ==>
             x.status == "RECEIVED" && x in FetchInvoices(o.invoice, PaymentFilter(o), p).value
  {
    var f := FetchInvoices(o.invoice, PaymentFilter(o), p);
    if f.Success? && o.pay {
      var invoices := SortByTime(f.value, instant);
      var unpaid := Unpaid(invoices);
      var run := Pay(o, unpaid, c, stats);
      if run.accepted.Some? && |unpaid| > 0 && !o.yes {
        PaySelection(o, unpaid, c, stats);
      }
      forall x | x in unpaid
        ensures x in f.value
      {
        assert x in multiset(invoices);
      }
    }
  }
}
