/**
 * `golem-sdk invoice accept` (src/payment/invoice-accept.action.ts): fetching the
 * invoices, asking about each, totalling the selection per network, and accepting it.
 */
module InvoiceAccept {
  import opened Wrappers
  import opened Text
  import opened Data
  import opened Decimal
  import opened Invoices

  function AcceptedLabel(status: string): string {
    if status != "RECEIVED" then "accepted" else "not accepted"
  }

  /** `allColumns` of `askForConfirmation`. */
  const Columns := ["id", "accepted", "status", "amount", "timestamp", "platform", "payer", "issuer", "providerId"]

  function AllColumns(x: Invoice): (r: Row)
    ensures Keys(r) == Columns && NoDuplicates(Keys(r))
  {
    NoDuplicatesByShape(Columns);
    Zip(Columns, [x.invoiceId, AcceptedLabel(x.status), x.status, x.amount, x.timestamp, x.paymentPlatform,
                  x.payerAddr, x.payeeAddr, x.issuerId])
  }

  /** The details shown before each prompt: the requested columns. */
  function CardOf(columns: seq<string>): Invoice -> Row {
    x => Pick(AllColumns(x), columns)
  }

  /**
   * A card shows exactly the requested columns that exist, once each; `accepted` reads
   * "accepted" exactly when the status is not RECEIVED.
   */
  lemma CardColumns(x: Invoice, columns: seq<string>)
    ensures var card := Pick(AllColumns(x), columns);
      CardOf(columns)(x) == card
      && NoDuplicates(Keys(card))
      && (forall k :: k in Keys(card) <==> k in columns && k in Keys(AllColumns(x)))
      && ("accepted" in columns ==>
            "accepted" in Keys(card) && (ValueOf(card, "accepted") == "accepted" <==> x.status != "RECEIVED"))
  {
    var all := AllColumns(x);
    PickedColumns(all, columns);
    if "accepted" in columns {
      assert all[1].key == "accepted";
      PickedValue(all, columns, 1);
    }
  }

  predicate OnTestnet(x: Invoice) {
    EndsWith(LowerAscii(x.paymentPlatform), "-tglm")
  }

  predicate OnMainnet(x: Invoice) {
    EndsWith(LowerAscii(x.paymentPlatform), "-glm")
  }

  predicate Elsewhere(x: Invoice) {
    !OnTestnet(x) && !OnMainnet(x)
  }

  /** No platform is on both networks: the fourth character from the end is `t` on one and `-` on the other. */
  lemma NetworksDisjoint(x: Invoice)
    ensures !(OnTestnet(x) && OnMainnet(x))
  {
    var p := LowerAscii(x.paymentPlatform);
    var n := |p|;
    if OnTestnet(x) {
      assert p[n - 5..][1] == p[n - 4] == 't';
      assert p[n - 4..][0] == 't';
    }
  }

  function Select(s: seq<Invoice>, keep: Invoice -> bool): (r: seq<Invoice>)
    ensures forall x :: x in r <==> x in s && keep(x)
  {
    if |s| == 0 then []
    else
      var n := |s| - 1;
      assert s == s[..n] + [s[n]];
      Select(s[..n], keep) + if keep(s[n]) then [s[n]] else []
  }

  lemma SelectLast(prefix: seq<Invoice>, x: Invoice, keep: Invoice -> bool)
    ensures Select(prefix + [x], keep) == Select(prefix, keep) + if keep(x) then [x] else []
  {
    assert (prefix + [x])[..|prefix|] == prefix;
  }

  /** The testnet, mainnet and remaining invoices of a selection make up the selection. */
  lemma {:induction false} SplitByNetwork(s: seq<Invoice>)
    ensures multiset(Select(s, OnTestnet)) + multiset(Select(s, OnMainnet)) + multiset(Select(s, Elsewhere)) == multiset(s)
  {
    if |s| > 0 {
      var n := |s| - 1;
      var prefix := s[..n];
      assert s == prefix + [s[n]];
      SplitByNetwork(prefix);
      NetworksDisjoint(s[n]);
      SelectLast(prefix, s[n], OnTestnet);
      SelectLast(prefix, s[n], OnMainnet);
      SelectLast(prefix, s[n], Elsewhere);
    }
  }

  /** `a.add(b)` on amounts that may have thrown. */
  function Plus(a: Option<real>, b: Option<real>): (r: Option<real>)
    ensures r.Some? <==> a.Some? && b.Some?
    ensures r.Some? ==> r.value == a.value + b.value
  {
    if a.Some? && b.Some? then Some(a.value + b.value) else None
  }

  /** With an invoice added to a group, that group's total grows by its amount. */
  lemma TotalLast(group: seq<Invoice>, x: Invoice)
    ensures Total(Amounts(group + [x])) == Plus(Total(Amounts(group)), Total([x.amount]))
  {
    var a := Amounts(group);
    AmountsLast(group, x);
    TotalPush(a, x.amount);
    assert Total(Amounts(group + [x])) == Total(a + [x.amount]);
  }

  lemma AmountsLast(group: seq<Invoice>, x: Invoice)
    ensures Amounts(group + [x]) == Amounts(group) + [x.amount]
  {
    AmountsConcat(group, [x]);
  }

  lemma TotalPush(a: seq<string>, b: string)
    ensures Total(a + [b]) == Plus(Total(a), Total([b]))
  {
    TotalConcat(a, [b]);
  }

  /**
   * When every amount is a number the two printed totals and the rest add up to the
   * total of the selection; a group's total fails exactly when one of its amounts does.
   */
  ghost predicate TotalsAddUp(s: seq<Invoice>) {
    var t, m, e := Total(Amounts(Select(s, OnTestnet))), Total(Amounts(Select(s, OnMainnet))),
                   Total(Amounts(Select(s, Elsewhere)));
    (Total(Amounts(s)).Some? <==> t.Some? && m.Some? && e.Some?)
    && (Total(Amounts(s)).Some? ==> Total(Amounts(s)).value == t.value + m.value + e.value)
  }

  lemma {:induction false} TotalsByNetwork(s: seq<Invoice>)
    ensures TotalsAddUp(s)
  {
    if |s| == 0 {
      assert TotalsAddUp(s) by {
        assert Select(s, OnTestnet) == Select(s, OnMainnet) == Select(s, Elsewhere) == s == [];
      }
    } else {
      var n := |s| - 1;
      assert s == s[..n] + [s[n]];
      TotalsByNetwork(s[..n]);
      TotalsStep(s[..n], s[n]);
    }
  }

  lemma TotalsStep(prefix: seq<Invoice>, x: Invoice)
    requires TotalsAddUp(prefix)
    ensures TotalsAddUp(prefix + [x])
  {
    NetworksDisjoint(x);
    GroupStep(prefix, x, OnTestnet);
    GroupStep(prefix, x, OnMainnet);
    GroupStep(prefix, x, Elsewhere);
    TotalLast(prefix, x);
    var all, d := Total(Amounts(prefix)), Total([x.amount]);
    var tt, mt, et := Total(Amounts(Select(prefix, OnTestnet))), Total(Amounts(Select(prefix, OnMainnet))),
                      Total(Amounts(Select(prefix, Elsewhere)));
    if OnTestnet(x) {
      SumRegroup(all, tt, mt, et, d);
    } else if OnMainnet(x) {
      SumRegroup(all, mt, tt, et, d);
    } else {
      SumRegroup(all, et, tt, mt, d);
    }
  }

  /** A group's total after one more invoice: its amount is added when the invoice belongs to the group. */
  lemma GroupStep(prefix: seq<Invoice>, x: Invoice, keep: Invoice -> bool)
    ensures Total(Amounts(Select(prefix + [x], keep)))
         == if keep(x) then Plus(Total(Amounts(Select(prefix, keep))), Total([x.amount]))
            else Total(Amounts(Select(prefix, keep)))
  {
    var g := Select(prefix, keep);
    SelectLast(prefix, x, keep);
    if keep(x) {
      assert Select(prefix + [x], keep) == g + [x];
      TotalLast(g, x);
    } else {
      assert Select(prefix + [x], keep) == g;
    }
  }

  /** Adding `d` to a sum of three parts adds it to one of them. */
  lemma SumRegroup(all: Option<real>, a: Option<real>, b: Option<real>, c: Option<real>, d: Option<real>)
    requires all.Some? <==> a.Some? && b.Some? && c.Some?
    requires all.Some? ==> all.value == a.value + b.value + c.value
    ensures Plus(all, d).Some? <==> Plus(a, d).Some? && b.Some? && c.Some?
    ensures Plus(all, d).Some? ==> Plus(all, d).value == Plus(a, d).value + b.value + c.value
  {
  }

  /** The printed lines, the invoices handed to `acceptManyInvoices`, the exit code, and whether it threw. */
  datatype AcceptRun = AcceptRun(lines: seq<Line>, accepted: Option<seq<Invoice>>, exitCode: nat, thrown: bool)

  /** `getRow`. */
  function ResultRow(r: AcceptResult): Row {
    [Cell("invoiceId", r.invoiceId), Cell("status", StatusLabel(r.success, r.dryRun)), Cell("amount", r.amount),
     Cell("platform", r.platform)]
  }

  function ResultRows(results: seq<AcceptResult>): (r: seq<Row>)
    ensures |r| == |results| && forall i :: 0 <= i < |results| ==> r[i] == ResultRow(results[i])
  {
    if |results| == 0 then [] else [ResultRow(results[0])] + ResultRows(results[1..])
  }

  function ResultTable(results: seq<AcceptResult>): (r: seq<(Row, string)>)
    ensures |r| == |results|
    ensures forall i :: 0 <= i < |results| ==>
      r[i] == (ResultRow(results[i]), ResultColor(results[i].success, results[i].dryRun))
  {
    if |results| == 0 then []
    else [(ResultRow(results[0]), ResultColor(results[0].success, results[0].dryRun))] + ResultTable(results[1..])
  }

  /** The summary of the results in the chosen format; the CSV header reads the first row, so no rows throws. */
  function Report(results: seq<AcceptResult>, format: string): (seq<Line>, bool) {
    if format == "table" then ([TableOut(ResultTable(results))], false)
    else if format == "json" then ([JsonOut(ResultRows(results))], false)
    else if format == "csv" then
      if |results| == 0 then ([], true)
      else ([CsvText(Join(Keys(ResultRow(results[0])), ",")), CsvText(Join(CsvLines(ResultRows(results)), "\n"))], false)
    else ([], false)
  }

  lemma CsvHeader()
    ensures Join(["invoiceId", "status", "amount", "platform"], ",") == "invoiceId,status,amount,platform"
  {
    JoinFour("invoiceId", "status", "amount", "platform", ",");
  }

  /** The CSV summary has the four fixed column names and a line per result, or throws on none. */
  lemma ReportCsv(results: seq<AcceptResult>)
    ensures Report(results, "csv").1 <==> |results| == 0
    ensures |results| > 0 ==>
      Report(results, "csv").0 == [CsvText("invoiceId,status,amount,platform"),
                                   CsvText(Join(CsvLines(ResultRows(results)), "\n"))]
      && |CsvLines(ResultRows(results))| == |results|
  {
    if |results| > 0 {
      assert Keys(ResultRow(results[0])) == ["invoiceId", "status", "amount", "platform"];
      CsvHeader();
    }
  }

  /** `acceptManyInvoices` on `toAccept`, then the summary unless silent. */
  function Finish(lines: seq<Line>, toAccept: seq<Invoice>, o: SearchOptions, results: seq<AcceptResult>): AcceptRun {
    if o.silent then AcceptRun(lines, Some(toAccept), 0, false)
    else
      var report := Report(results, o.format);
      AcceptRun(lines + report.0, Some(toAccept), 0, report.1)
  }

  /** The `catch` of the confirmation block. */
  function Cancelled(lines: seq<Line>): AcceptRun {
    AcceptRun(lines + [Note("Script cancelled")], None, 1, false)
  }

  const FetchFailed := "Failed to fetch invoices, check your parameters and try again."

  /** How many of the selected invoices are on one network, and their total (`None` when an amount threw). */
  datatype Group = Group(count: nat, total: Option<real>)

  function GroupOf(selected: seq<Invoice>, keep: Invoice -> bool): Group {
    var g := Select(selected, keep);
    Group(|g|, Total(Amounts(g)))
  }

  /** The selection's totals, printed per network; an amount that is not a number throws inside the `try`. */
  function Confirmed(shown: seq<Line>, selected: seq<Invoice>, test: Group, main: Group, o: SearchOptions,
                     c: Confirm, results: seq<AcceptResult>): AcceptRun
  {
    if test.count > 0 && test.total.None? then Cancelled(shown)
    else
      var withTest := shown + if test.count > 0 then [Selected(test.count, test.total.value, "tGLM")] else [];
      if main.count > 0 && main.total.None? then Cancelled(withTest)
      else
        var withMain := withTest + if main.count > 0 then [Selected(main.count, main.total.value, "GLM")] else [];
        if c.final.None? then Cancelled(withMain)
        else if !c.final.value then AcceptRun(withMain, None, 0, false)
        else Finish(withMain, selected, o, results)
  }

  /** `acceptAction`. */
  function AcceptAction(o: SearchOptions, p: Processor, c: Confirm, results: seq<AcceptResult>): AcceptRun {
    match FetchInvoices(o.invoice, SearchFilter(o), p)
    case Failure(e) => AcceptRun([Failed(e), Note(FetchFailed)], None, 1, false)
    case Success(invoices) =>
      if |invoices| == 0 then AcceptRun(if o.silent then [] else [Note("No unaccepted invoices found")], None, 0, false)
      else if o.yes then Finish([], invoices, o, results)
      else
        var asked := AskUpTo(invoices, c.answers, |invoices|, CardOf(o.columns));
        var shown := [Found(|invoices|, "unaccepted")] + asked.cards;
        if asked.cancelled then Cancelled(shown)
        else if |asked.selected| == 0 then AcceptRun(shown + [Note("No invoices selected")], None, 0, false)
        else
          var selected := asked.selected;
          Confirmed(shown, selected, GroupOf(selected, OnTestnet), GroupOf(selected, OnMainnet), o, c, results)
  }

  /**
   * Accepting needs the final confirmation and a total for each non-empty network group,
   * and each such total was printed; an exit code of 1 means nothing was accepted; only
   * a CSV summary of no results throws.
   */
  lemma ConfirmedOutcome(shown: seq<Line>, selected: seq<Invoice>, test: Group, main: Group, o: SearchOptions,
                         c: Confirm, results: seq<AcceptResult>)
    ensures var run := Confirmed(shown, selected, test, main, o, c, results);
      (run.accepted.Some? ==>
         run.accepted == Some(selected) && c.final == Some(true)
         && (test.count > 0 ==> test.total.Some? && Selected(test.count, test.total.value, "tGLM") in run.lines)
         && (main.count > 0 ==> main.total.Some? && Selected(main.count, main.total.value, "GLM") in run.lines))
      && (run.exitCode == 1 ==> run.accepted.None?)
      && (run.thrown ==> run.accepted.Some? && !o.silent && o.format == "csv" && |results| == 0)
  {
    var withTest := shown + if test.count > 0 && test.total.Some? then [Selected(test.count, test.total.value, "tGLM")] else [];
    var withMain := withTest + if main.count > 0 && main.total.Some? then [Selected(main.count, main.total.value, "GLM")] else [];
    FinishExit(withMain, selected, o, results);
  }

  /** An empty group's total is zero; otherwise it is the exact sum of the group's amounts. */
  lemma GroupTotals(selected: seq<Invoice>, keep: Invoice -> bool)
    ensures var g := GroupOf(selected, keep);
      g.count == |Select(selected, keep)| && (g.count == 0 ==> g.total == Some(0.0))
      && (g.total.Some? <==> forall x :: x in selected && keep(x) ==> ParseDecimal(x.amount).Some?)
  {
    var g := Select(selected, keep);
    TotalDefined(Amounts(g));
    if |g| == 0 { assert Amounts(g) == []; }
    forall x | x in selected && keep(x) && Total(Amounts(g)).Some?
      ensures ParseDecimal(x.amount).Some?
    {
      var i :| 0 <= i < |g| && g[i] == x;
      assert Amounts(g)[i] == x.amount;
    }
    if !Total(Amounts(g)).Some? {
      var i :| 0 <= i < |Amounts(g)| && ParseDecimal(Amounts(g)[i]).None?;
      assert g[i] in selected && keep(g[i]);
    }
  }

  /** A failed fetch prints the error and the message, exits with code 1 and accepts nothing. */
  lemma FetchFailure(o: SearchOptions, p: Processor, c: Confirm, results: seq<AcceptResult>)
    ensures var f := FetchInvoices(o.invoice, SearchFilter(o), p);
      f.Failure? ==> AcceptAction(o, p, c, results) == AcceptRun([Failed(f.error), Note(FetchFailed)], None, 1, false)
  {
  }

  /** No invoices accepts nothing and exits normally; `--yes` accepts every fetched invoice. */
  lemma NothingOrEverything(o: SearchOptions, p: Processor, c: Confirm, results: seq<AcceptResult>)
    ensures var f, run := FetchInvoices(o.invoice, SearchFilter(o), p), AcceptAction(o, p, c, results);
      (f.Success? && |f.value| == 0 ==>
         run == AcceptRun(if o.silent then [] else [Note("No unaccepted invoices found")], None, 0, false))
      && (f.Success? && |f.value| > 0 && o.yes ==> run.accepted == Some(f.value) && run.exitCode == 0)
  {
  }

  /** Without `--yes`, what is accepted is exactly what was answered yes, non-empty and confirmed. */
  lemma AcceptedWereConfirmed(o: SearchOptions, p: Processor, c: Confirm, results: seq<AcceptResult>)
    ensures var f, run := FetchInvoices(o.invoice, SearchFilter(o), p), AcceptAction(o, p, c, results);
      run.accepted.Some? && !o.yes ==>
        f.Success? && |c.answers| >= |f.value| && c.final == Some(true)
        && run.accepted.value == Taken(f.value, c.answers) && |run.accepted.value| > 0
  {
    match FetchInvoices(o.invoice, SearchFilter(o), p)
    case Failure(_) =>
    case Success(invoices) =>
      if |invoices| > 0 && !o.yes {
        assert invoices[..|invoices|] == invoices;
        var asked := AskUpTo(invoices, c.answers, |invoices|, CardOf(o.columns));
        var selected := asked.selected;
        if !asked.cancelled && |selected| > 0 {
          ConfirmedOutcome([Found(|invoices|, "unaccepted")] + asked.cards, selected,
                           GroupOf(selected, OnTestnet), GroupOf(selected, OnMainnet), o, c, results);
        }
      }
  }

  /** Accepting always exits normally; only a CSV summary of no results throws. */
  lemma FinishExit(lines: seq<Line>, toAccept: seq<Invoice>, o: SearchOptions, results: seq<AcceptResult>)
    ensures var run := Finish(lines, toAccept, o, results);
      run.exitCode == 0 && run.accepted == Some(toAccept)
      && (run.thrown <==> !o.silent && o.format == "csv" && |results| == 0)
  {
  }

  /** An exit code of 1 means nothing was accepted; only a CSV summary of no results throws. */
  lemma ExitCodes(o: SearchOptions, p: Processor, c: Confirm, results: seq<AcceptResult>)
    ensures var run := AcceptAction(o, p, c, results);
      (run.exitCode == 1 ==> run.accepted.None?)
      && (run.thrown ==> run.accepted.Some? && !o.silent && o.format == "csv" && |results| == 0)
  {
    match FetchInvoices(o.invoice, SearchFilter(o), p)
    case Failure(_) =>
    case Success(invoices) =>
      if |invoices| > 0 && o.yes {
        FinishExit([], invoices, o, results);
      } else if |invoices| > 0 {
        var asked := AskUpTo(invoices, c.answers, |invoices|, CardOf(o.columns));
        var selected := asked.selected;
        if !asked.cancelled && |selected| > 0 {
          ConfirmedOutcome([Found(|invoices|, "unaccepted")] + asked.cards, selected,
                           GroupOf(selected, OnTestnet), GroupOf(selected, OnMainnet), o, c, results);
        }
      }
  }
}
