/**
 * What the payment and invoice commands share (src/payment/common.ts and the option
 * declarations): integer options, the fetch-by-id or search routing, column projection
 * with lodash `pick`, the timestamp sort, the confirmation loop and result labels.
 * The payment processor and the prompts are inputs.
 */
module Invoices {
  import opened Wrappers
  import opened Text
  import opened Data

  datatype Invoice = Invoice(invoiceId: string, status: string, amount: string, timestamp: string,
                             paymentPlatform: string, payerAddr: string, payeeAddr: string, issuerId: string)

  // ---- parseIntOrThrow ----

  /** The characters `parseInt` skips before the number (ECMAScript white space and line terminators). */
  predicate JsSpace(c: char) {
    c == '\t' || c == '\n' || c == '\U{000B}' || c == '\U{000C}' || c == '\r' || c == ' ' || c == '\U{00A0}'
    || c == '\U{1680}' || ('\U{2000}' <= c <= '\U{200A}') || c == '\U{2028}' || c == '\U{2029}'
    || c == '\U{202F}' || c == '\U{205F}' || c == '\U{3000}' || c == '\U{FEFF}'
  }

  function TrimStart(s: string): (r: string)
    ensures |r| <= |s| && r == s[|s| - |r|..] && (|r| > 0 ==> !JsSpace(r[0]))
    ensures forall k :: 0 <= k < |s| - |r| ==> JsSpace(s[k])
  {
    if |s| > 0 && JsSpace(s[0]) then
      var r := TrimStart(s[1..]);
      assert forall k :: 1 <= k < |s| - |r| ==> s[k] == s[1..][k - 1];
      r
    else s
  }

  /** The number spelled by the longest prefix of digits, if there is one. */
  function LeadingNumber(s: string): Option<nat> {
    var n := DigitRun(s);
    if n == 0 then None else Some(DigitsNat(s[..n]))
  }

  /** `parseInt(value, 10)`: `None` for NaN. */
  function ParseInt(value: string): Option<int> {
    var s := TrimStart(value);
    if |s| > 0 && s[0] == '-' then
      var r := LeadingNumber(s[1..]);
      if r.None? then None else
        var n: int := r.value;
        Some(-n)
    else if |s| > 0 && s[0] == '+' then
      var r := LeadingNumber(s[1..]);
      if r.None? then None else Some(r.value)
    else
      var r := LeadingNumber(s);
      if r.None? then None else Some(r.value)
  }

  const NotPositive := "Not a valid positive integer."

  /** `parseIntOrThrow`: the parsed value, or the argument error for NaN and negative values. */
  function ParseIntOrThrow(value: string): (r: Result<nat, string>)
    ensures r.Success? <==> ParseInt(value).Some? && ParseInt(value).value >= 0
    ensures r.Success? ==> r.value == ParseInt(value).value
    ensures r.Failure? ==> r.error == NotPositive
  {
    var p := ParseInt(value);
    if p.None? || p.value < 0 then Failure(NotPositive) else Success(p.value)
  }

  /** Digits followed by a non-digit spell the number of the digits. */
  lemma {:induction false} LeadingDigits(digits: string, tail: string)
    requires |digits| > 0 && AllDigits(digits)
    requires |tail| == 0 || !IsDigit(tail[0])
    ensures LeadingNumber(digits + tail) == Some(DigitsNat(digits))
  {
    var s := digits + tail;
    assert forall k :: 0 <= k < |digits| ==> s[k] == digits[k];
    assert DigitRun(s) == |digits|;
    assert s[..|digits|] == digits;
  }

  /** Digits followed by anything that is not a digit are read as the digits: the tail is ignored. */
  lemma TrailingTextIgnored(digits: string, tail: string)
    requires |digits| > 0 && AllDigits(digits) && !JsSpace(digits[0])
    requires |tail| == 0 || !IsDigit(tail[0])
    ensures ParseIntOrThrow(digits + tail) == Success(DigitsNat(digits))
  {
    var s := digits + tail;
    assert s[0] == digits[0] && IsDigit(s[0]);
    PlainParse(s);
    LeadingDigits(digits, tail);
  }

  /** Without space or sign in front, `parseInt` reads the leading digits. */
  lemma PlainParse(s: string)
    requires |s| > 0 && !JsSpace(s[0]) && s[0] != '-' && s[0] != '+'
    ensures var r := LeadingNumber(s); ParseInt(s) == if r.None? then None else Some(r.value as int)
  {
    assert TrimStart(s) == s;
  }

  /** After a leading '-', the number that follows is negated. */
  lemma MinusSign(s: string)
    requires |s| > 0 && s[0] == '-'
    ensures var r := LeadingNumber(s[1..]);
      ParseInt(s) == if r.None? then None else Some(-(r.value as int))
  {
    assert TrimStart(s) == s;
  }

  /** `parseInt` of "-" followed by `body` is the negated number that `body` starts with. */
  lemma MinusParse(body: string)
    ensures var r := LeadingNumber(body);
      ParseInt("-" + body) == if r.None? then None else Some(-(r.value as int))
  {
    var s := "-" + body;
    assert s[1..] == body;
    MinusSign(s);
  }

  /** A minus sign before a non-zero number is rejected. */
  lemma NegativeRejected(digits: string, tail: string)
    requires |digits| > 0 && AllDigits(digits) && DigitsNat(digits) > 0
    requires |tail| == 0 || !IsDigit(tail[0])
    ensures ParseIntOrThrow("-" + digits + tail).Failure?
  {
    assert "-" + digits + tail == "-" + (digits + tail);
    LeadingDigits(digits, tail);
    MinusParse(digits + tail);
  }

  /** A run of zeros spells 0. */
  lemma {:induction false} ZerosAreZero(zeros: string)
    requires forall k :: 0 <= k < |zeros| ==> zeros[k] == '0'
    ensures AllDigits(zeros) && DigitsNat(zeros) == 0
  {
    if |zeros| > 0 {
      ZerosAreZero(zeros[..|zeros| - 1]);
    }
  }

  /** A minus sign before zeros is not below zero, so "-0", "-00", ... are accepted as 0. */
  lemma MinusZeroAccepted(zeros: string)
    requires |zeros| > 0 && forall k :: 0 <= k < |zeros| ==> zeros[k] == '0'
    ensures ParseIntOrThrow("-" + zeros) == Success(0)
  {
    ZerosAreZero(zeros);
    assert zeros + "" == zeros;
    LeadingDigits(zeros, "");
    MinusParse(zeros);
  }

  /** Text with no digit after the blanks and the sign is rejected. */
  lemma NoDigitsRejected(value: string)
    requires var s := TrimStart(value);
      var rest := if |s| > 0 && (s[0] == '-' || s[0] == '+') then s[1..] else s;
      |rest| == 0 || !IsDigit(rest[0])
    ensures ParseIntOrThrow(value) == Failure(NotPositive)
  {
  }

  // ---- search options and fetch routing ----

  /** The declared defaults of the invoice and payment commands. */
  const DefaultLimit := 50
  const DefaultAfter := 0
  const DefaultUrl := "http://127.0.0.1:7465"
  const DefaultStatuses := ["RECEIVED", "ACCEPTED", "SETTLED"]
  const DefaultInvoiceColumns := ["id", "status", "amount", "timestamp", "providerId", "platform"]
  const DefaultPaymentColumns := ["id", "paid", "status", "amount", "timestamp"]
  const DefaultFormat := "table"

  /** The filters of `collectInvoices`; `after` is an instant in milliseconds. */
  datatype Filter = Filter(limit: nat, after: int, statuses: seq<string>, providerIds: Option<seq<string>>,
                           providerWallets: Option<seq<string>>, minAmount: Option<string>,
                           maxAmount: Option<string>, paymentPlatforms: Option<seq<string>>)

  /** `InvoiceSearchOptions` (and, with `yes`, `dryRun` and `silent`, `InvoiceAcceptOptions`). */
  datatype SearchOptions = SearchOptions(yagnaAppkey: string, url: string, after: int, limit: nat,
                                         provider: Option<seq<string>>, wallet: Option<seq<string>>,
                                         minAmount: Option<string>, maxAmount: Option<string>,
                                         paymentPlatform: Option<seq<string>>, columns: seq<string>,
                                         status: seq<string>, invoice: Option<seq<string>>, format: string,
                                         yes: bool, dryRun: bool, silent: bool)

  /** The options of `createInvoiceCommand` when only the app key is given (`accept` adds three false flags). */
  function DefaultSearchOptions(appKey: string): (o: SearchOptions)
    ensures o.limit == 50 && o.after == 0 && o.status == ["RECEIVED", "ACCEPTED", "SETTLED"]
    ensures o.columns == ["id", "status", "amount", "timestamp", "providerId", "platform"]
    ensures o.url == "http://127.0.0.1:7465" && o.format == "table" && o.invoice.None?
    ensures !o.yes && !o.dryRun && !o.silent
  {
    SearchOptions(appKey, DefaultUrl, DefaultAfter, DefaultLimit, None, None, None, None, None,
                  DefaultInvoiceColumns, DefaultStatuses, None, DefaultFormat, false, false, false)
  }

  /** `fetchInvoices` of common.ts: the search filters, field for field. */
  function SearchFilter(o: SearchOptions): Filter {
    Filter(o.limit, o.after, o.status, o.provider, o.wallet, o.minAmount, o.maxAmount, o.paymentPlatform)
  }

  /** The invoice processor: fetching one invoice by id, and a search. */
  datatype Processor = Processor(fetchSingle: string -> Result<Invoice, string>,
                                 collect: Filter -> Result<seq<Invoice>, string>)

  /** `Promise.all` over the ids: every invoice in id order, or the first failure in id order. */
  function FetchEach(ids: seq<string>, fetchSingle: string -> Result<Invoice, string>): (r: Result<seq<Invoice>, string>)
    ensures r.Success? <==> forall i :: 0 <= i < |ids| ==> fetchSingle(ids[i]).Success?
    ensures r.Success? ==> |r.value| == |ids| && forall i :: 0 <= i < |ids| ==> r.value[i] == fetchSingle(ids[i]).value
  {
    if |ids| == 0 then Success([])
    else
      var first := fetchSingle(ids[0]);
      var rest := FetchEach(ids[1..], fetchSingle);
      assert forall i :: 1 <= i < |ids| ==> ids[i] == ids[1..][i - 1];
      if first.Failure? then Failure(first.error)
      else if rest.Failure? then Failure(rest.error)
      else Success([first.value] + rest.value)
  }

  /** `fetchInvoices`: by id when a non-empty id list is given, otherwise a search. */
  function FetchInvoices(ids: Option<seq<string>>, filter: Filter, p: Processor): Result<seq<Invoice>, string> {
    if ids.Some? && |ids.value| > 0 then FetchEach(ids.value, p.fetchSingle) else p.collect(filter)
  }

  /**
   * With ids, the search and its filters play no part and the invoices come back in id
   * order; without (or with none), the result is the search's.
   */
  lemma FetchRouting(ids: Option<seq<string>>, filter: Filter, other: Filter, p: Processor,
                     collect: Filter -> Result<seq<Invoice>, string>)
    ensures ids.Some? && |ids.value| > 0 ==>
      FetchInvoices(ids, filter, p) == FetchInvoices(ids, other, Processor(p.fetchSingle, collect))
      && (FetchInvoices(ids, filter, p).Success? ==>
            |FetchInvoices(ids, filter, p).value| == |ids.value|
            && forall i :: 0 <= i < |ids.value| ==> FetchInvoices(ids, filter, p).value[i] == p.fetchSingle(ids.value[i]).value)
    ensures ids.None? || |ids.value| == 0 ==> FetchInvoices(ids, filter, p) == p.collect(filter)
  {
  }

  /** The search filters are the options, field for field. */
  lemma SearchFilterFields(o: SearchOptions)
    ensures var f := SearchFilter(o);
      f.limit == o.limit && f.after == o.after && f.statuses == o.status && f.providerIds == o.provider
      && f.providerWallets == o.wallet && f.minAmount == o.minAmount && f.maxAmount == o.maxAmount
      && f.paymentPlatforms == o.paymentPlatform
  {
  }

  // ---- rows ----

  datatype Cell = Cell(key: string, value: string)
  type Row = seq<Cell>

  function Keys(row: Row): (r: seq<string>)
    ensures |r| == |row| && forall i :: 0 <= i < |row| ==> r[i] == row[i].key
  {
    if |row| == 0 then [] else [row[0].key] + Keys(row[1..])
  }

  /** The row pairing each key with the value at the same position. */
  function Zip(keys: seq<string>, values: seq<string>): (r: Row)
    requires |keys| == |values|
    ensures Keys(r) == keys
    ensures |r| == |keys| && forall i :: 0 <= i < |r| ==> r[i] == Cell(keys[i], values[i])
  {
    if |keys| == 0 then [] else [Cell(keys[0], values[0])] + Zip(keys[1..], values[1..])
  }

  /** The value under `key` in a row whose keys are distinct. */
  function ValueOf(row: Row, key: string): string
    requires key in Keys(row)
  {
    if row[0].key == key then row[0].value else ValueOf(row[1..], key)
  }

  /** The requested columns that name a key of `keys`, in request order. */
  function KnownColumns(columns: seq<string>, keys: seq<string>): (r: seq<string>)
    ensures forall x :: x in r <==> x in columns && x in keys
  {
    if |columns| == 0 then []
    else
      var prefix := KnownColumns(columns[..|columns| - 1], keys);
      var last := columns[|columns| - 1];
      assert columns == columns[..|columns| - 1] + [last];
      if last in keys then prefix + [last] else prefix
  }

  lemma KeysSnoc(row: Row, c: Cell)
    ensures Keys(row + [c]) == Keys(row) + [c.key]
  {
    assert forall i :: 0 <= i < |row| ==> (row + [c])[i] == row[i];
  }

  /**
   * lodash `pick(all, columns)` for plain column names: each requested key that `all`
   * has, once, in the order first requested, with its value.
   */
  function Pick(all: Row, columns: seq<string>): (r: Row)
    requires NoDuplicates(Keys(all))
    ensures Keys(r) == Unique(KnownColumns(columns, Keys(all)))
    ensures forall i :: 0 <= i < |r| ==> r[i].key in Keys(all) && r[i].value == ValueOf(all, r[i].key)
  {
    if |columns| == 0 then []
    else
      var init := columns[..|columns| - 1];
      var prefix := Pick(all, init);
      var last := columns[|columns| - 1];
      if last in Keys(all) then
        UniqueSnoc(KnownColumns(init, Keys(all)), last);
        if last !in Keys(prefix) then
          var c := Cell(last, ValueOf(all, last));
          KeysSnoc(prefix, c);
          prefix + [c]
        else prefix
      else prefix
  }

  /** A picked row holds only requested columns that exist, each once, and all of them. */
  lemma PickedColumns(all: Row, columns: seq<string>)
    requires NoDuplicates(Keys(all))
    ensures var r := Pick(all, columns);
      NoDuplicates(Keys(r)) && forall k :: k in Keys(r) <==> k in columns && k in Keys(all)
  {
  }

  /** `ValueOf` finds a cell whose key no earlier cell holds. */
  lemma {:induction false} ValueOfFirst(row: Row, i: int)
    requires 0 <= i < |row| && forall j :: 0 <= j < i ==> row[j].key != row[i].key
    ensures row[i].key in Keys(row) && ValueOf(row, row[i].key) == row[i].value
  {
    assert Keys(row)[i] == row[i].key;
    if i > 0 {
      var tail := row[1..];
      assert tail[i - 1] == row[i];
      forall j | 0 <= j < i - 1
        ensures tail[j].key != tail[i - 1].key
      {
        assert tail[j] == row[j + 1];
      }
      ValueOfFirst(tail, i - 1);
      assert Keys(row)[0] == row[0].key && Keys(tail) == Keys(row)[1..];
    }
  }

  /** A requested column that exists keeps its value in the picked row. */
  lemma PickedValue(all: Row, columns: seq<string>, i: int)
    requires NoDuplicates(Keys(all)) && 0 <= i < |all| && all[i].key in columns
    ensures var r := Pick(all, columns);
      NoDuplicates(Keys(r)) && all[i].key in Keys(r) && ValueOf(r, all[i].key) == all[i].value
  {
    var r := Pick(all, columns);
    PickedColumns(all, columns);
    assert Keys(all)[i] == all[i].key;
    var j :| 0 <= j < |r| && Keys(r)[j] == all[i].key;
    forall k | 0 <= k < j ensures r[k].key != r[j].key { assert Keys(r)[k] == r[k].key; }
    ValueOfFirst(r, j);
    forall k | 0 <= k < i ensures all[k].key != all[i].key { assert Keys(all)[k] == all[k].key; }
    ValueOfFirst(all, i);
  }

  function Values(row: Row): (r: seq<string>)
    ensures |r| == |row| && forall i :: 0 <= i < |row| ==> r[i] == row[i].value
  {
    if |row| == 0 then [] else [row[0].value] + Values(row[1..])
  }

  /** `Object.values(row).join(",")`. */
  function CsvLine(row: Row): string {
    Join(Values(row), ",")
  }

  function CsvLines(rows: seq<Row>): (r: seq<string>)
    ensures |r| == |rows| && forall i :: 0 <= i < |rows| ==> r[i] == CsvLine(rows[i])
  {
    if |rows| == 0 then [] else [CsvLine(rows[0])] + CsvLines(rows[1..])
  }

  // ---- sort ----

  /** Insert `x` after every element whose instant is not later than its own. */
  function Insert(x: Invoice, sorted: seq<Invoice>, instant: string -> int): (r: seq<Invoice>)
    ensures multiset(r) == multiset(sorted) + multiset{x}
    ensures SortedByTime(sorted, instant) ==> SortedByTime(r, instant)
  {
    if |sorted| == 0 then [x]
    else
      var y := sorted[0];
      assert sorted == [y] + sorted[1..];
      if instant(x.timestamp) < instant(y.timestamp) then
        if SortedByTime(sorted, instant) then HeadFirst(sorted, instant); ConsSorted(x, sorted, instant); [x] + sorted
        else [x] + sorted
      else
        var rest := Insert(x, sorted[1..], instant);
        if SortedByTime(sorted, instant) then
          HeadFirst(sorted, instant);
          BoundKept(instant(y.timestamp), x, sorted[1..], rest, instant);
          ConsSorted(y, rest, instant);
          [y] + rest
        else [y] + rest
  }

  predicate SortedByTime(s: seq<Invoice>, instant: string -> int) {
    forall i, j :: 0 <= i < j < |s| ==> instant(s[i].timestamp) <= instant(s[j].timestamp)
  }

  /** The head of a sorted list is not later than any element, and its tail is sorted. */
  lemma HeadFirst(s: seq<Invoice>, instant: string -> int)
    requires |s| > 0 && SortedByTime(s, instant)
    ensures SortedByTime(s[1..], instant)
    ensures forall k :: 0 <= k < |s| - 1 ==> instant(s[0].timestamp) <= instant(s[1..][k].timestamp)
  {
    forall i, j | 0 <= i < j < |s| - 1
      ensures instant(s[1..][i].timestamp) <= instant(s[1..][j].timestamp)
    {
      assert s[1..][i] == s[i + 1] && s[1..][j] == s[j + 1];
    }
    forall k | 0 <= k < |s| - 1
      ensures instant(s[0].timestamp) <= instant(s[1..][k].timestamp)
    {
      assert s[1..][k] == s[k + 1];
    }
  }

  /** A sorted list stays sorted with an element in front that is not later than any. */
  lemma ConsSorted(y: Invoice, s: seq<Invoice>, instant: string -> int)
    requires SortedByTime(s, instant) && forall k :: 0 <= k < |s| ==> instant(y.timestamp) <= instant(s[k].timestamp)
    ensures SortedByTime([y] + s, instant)
  {
    var r := [y] + s;
    forall i, j | 0 <= i < j < |r|
      ensures instant(r[i].timestamp) <= instant(r[j].timestamp)
    {
      assert r[j] == s[j - 1];
      if i > 0 { assert r[i] == s[i - 1]; }
    }
  }

  /** Adding `x` to `s` keeps a lower bound that both respect. */
  lemma BoundKept(lo: int, x: Invoice, s: seq<Invoice>, r: seq<Invoice>, instant: string -> int)
    requires multiset(r) == multiset(s) + multiset{x}
    requires lo <= instant(x.timestamp) && forall k :: 0 <= k < |s| ==> lo <= instant(s[k].timestamp)
    ensures forall k :: 0 <= k < |r| ==> lo <= instant(r[k].timestamp)
  {
    forall k | 0 <= k < |r|
      ensures lo <= instant(r[k].timestamp)
    {
      assert r[k] in multiset(r);
      if r[k] != x {
        assert r[k] in multiset(s);
        var j :| 0 <= j < |s| && s[j] == r[k];
      }
    }
  }

  /**
   * `invoices.sort((a, b) => time(a) - time(b))` with `instant` standing for
   * `new Date(timestamp).getTime()`: an insertion sort that keeps equal instants in order.
   */
  function SortByTime(invoices: seq<Invoice>, instant: string -> int): (r: seq<Invoice>)
    ensures SortedByTime(r, instant)
    ensures multiset(r) == multiset(invoices)
  {
    if |invoices| == 0 then []
    else
      var prefix := invoices[..|invoices| - 1];
      assert invoices == prefix + [invoices[|invoices| - 1]];
      Insert(invoices[|invoices| - 1], SortByTime(prefix, instant), instant)
  }

  // ---- confirmation loop ----

  /** What a run prints; formatted tables, JSON and colours are kept as data. */
  datatype Line =
    | Note(text: string)
    | Failed(error: string)
    | Found(count: nat, kind: string)
    | Card(index: nat, count: nat, cells: Row)
    | Selected(count: nat, total: real, network: string)
    | ToPay(count: nat, total: real)
    | TableOut(coloured: seq<(Row, string)>)
    | JsonOut(rows: seq<Row>)
    | CsvColumns(columns: seq<string>)
    | CsvText(text: string)

  datatype Asked = Asked(cards: seq<Line>, selected: seq<Invoice>, cancelled: bool)

  /**
   * `askForConfirmation` after the first `k` invoices: each is shown as card `i/n` and
   * taken when its answer is yes; when the answers run out the prompt is cancelled.
   */
  function AskUpTo(invoices: seq<Invoice>, answers: seq<bool>, k: nat, cardOf: Invoice -> Row): (r: Asked)
    requires k <= |invoices|
    ensures r.cancelled <==> |answers| < k
    ensures |r.cards| == if |answers| < k then |answers| + 1 else k
    ensures !r.cancelled ==> r.selected == Taken(invoices[..k], answers)
    ensures forall j :: 0 <= j < |r.cards| ==> r.cards[j] == Card(j + 1, |invoices|, cardOf(invoices[j]))
  {
    if k == 0 then Asked([], [], false)
    else
      var p := AskUpTo(invoices, answers, k - 1, cardOf);
      if p.cancelled then p
      else
        var x := invoices[k - 1];
        var cards := p.cards + [Card(k, |invoices|, cardOf(x))];
        if k - 1 >= |answers| then Asked(cards, p.selected, true)
        else
          TakenLast(invoices, answers, k);
          Asked(cards, if answers[k - 1] then p.selected + [x] else p.selected, false)
  }

  /** The invoices answered yes, in order; `answers` covers them all. */
  function Taken(invoices: seq<Invoice>, answers: seq<bool>): (r: seq<Invoice>)
    requires |answers| >= |invoices|
    ensures forall x :: x in r ==> x in invoices
  {
    if |invoices| == 0 then []
    else
      var n := |invoices| - 1;
      var prefix := Taken(invoices[..n], answers);
      assert forall x :: x in invoices[..n] ==> x in invoices;
      if answers[n] then prefix + [invoices[n]] else prefix
  }

  /** Taking from the first `k` invoices extends taking from the first `k - 1`. */
  lemma TakenLast(invoices: seq<Invoice>, answers: seq<bool>, k: nat)
    requires 0 < k <= |invoices| && k <= |answers|
    ensures Taken(invoices[..k], answers)
      == Taken(invoices[..k - 1], answers) + if answers[k - 1] then [invoices[k - 1]] else []
  {
    assert invoices[..k][..k - 1] == invoices[..k - 1];
  }

  /** `askForConfirmation` with its counter and the pushes into `invoicesToPay`. */
  method AskForConfirmation(invoices: seq<Invoice>, answers: seq<bool>, cardOf: Invoice -> Row) returns (r: Asked)
    ensures r == AskUpTo(invoices, answers, |invoices|, cardOf)
  {
    var cards: seq<Line> := [];
    var toPay: seq<Invoice> := [];
    var i := 0;
    while i < |invoices|
      invariant 0 <= i <= |invoices| && i <= |answers|
      invariant Asked(cards, toPay, false) == AskUpTo(invoices, answers, i, cardOf)
    {
      var invoice := invoices[i];
      i := i + 1;
      cards := cards + [Card(i, |invoices|, cardOf(invoice))];
      if i - 1 >= |answers| {
        assert AskUpTo(invoices, answers, i, cardOf) == Asked(cards, toPay, true);
        CancelledStays(invoices, answers, i, |invoices|, cardOf);
        return Asked(cards, toPay, true);
      }
      if answers[i - 1] {
        toPay := toPay + [invoice];
      }
    }
    return Asked(cards, toPay, false);
  }

  /** Once cancelled, the remaining invoices are neither shown nor taken. */
  lemma {:induction false} CancelledStays(invoices: seq<Invoice>, answers: seq<bool>, i: nat, j: nat, cardOf: Invoice -> Row)
    requires i <= j <= |invoices| && AskUpTo(invoices, answers, i, cardOf).cancelled
    ensures AskUpTo(invoices, answers, j, cardOf) == AskUpTo(invoices, answers, i, cardOf)
    decreases j
  {
    if j > i {
      CancelledStays(invoices, answers, i, j - 1, cardOf);
    }
  }

  /** Answering yes to every invoice takes all of them. */
  lemma {:induction false} AllYesTakesAll(invoices: seq<Invoice>, answers: seq<bool>)
    requires |answers| >= |invoices| && forall i :: 0 <= i < |invoices| ==> answers[i]
    ensures Taken(invoices, answers) == invoices
  {
    if |invoices| > 0 {
      var n := |invoices| - 1;
      AllYesTakesAll(invoices[..n], answers);
      assert invoices == invoices[..n] + [invoices[n]];
    }
  }

  /** Answering no to every invoice takes none. */
  lemma {:induction false} AllNoTakesNone(invoices: seq<Invoice>, answers: seq<bool>)
    requires |answers| >= |invoices| && forall i :: 0 <= i < |invoices| ==> !answers[i]
    ensures Taken(invoices, answers) == []
  {
    if |invoices| > 0 {
      AllNoTakesNone(invoices[..|invoices| - 1], answers);
    }
  }

  // ---- results ----

  /** The answers to the prompts: one per invoice, then the final confirmation (`None` when cancelled). */
  datatype Confirm = Confirm(answers: seq<bool>, final: Option<bool>)

  /** What `acceptManyInvoices` reports for one invoice. */
  datatype AcceptResult = AcceptResult(invoiceId: string, success: bool, dryRun: bool, amount: string, platform: string)

  function Amounts(invoices: seq<Invoice>): (r: seq<string>)
    ensures |r| == |invoices| && forall i :: 0 <= i < |invoices| ==> r[i] == invoices[i].amount
  {
    if |invoices| == 0 then [] else [invoices[0].amount] + Amounts(invoices[1..])
  }

  lemma AmountsConcat(a: seq<Invoice>, b: seq<Invoice>)
    ensures Amounts(a + b) == Amounts(a) + Amounts(b)
  {
  }

  /** `(success ? "success" : "failed") + (dryRun ? " (dry run)" : "")`. */
  function StatusLabel(success: bool, dryRun: bool): string {
    (if success then "success" else "failed") + (if dryRun then " (dry run)" else "")
  }

  /** The label starts with "success" exactly for a success and ends with " (dry run)" exactly for a dry run. */
  lemma StatusLabelMeaning(success: bool, dryRun: bool)
    ensures StartsWith(StatusLabel(success, dryRun), "success") <==> success
    ensures EndsWith(StatusLabel(success, dryRun), " (dry run)") <==> dryRun
  {
    var head := if success then "success" else "failed";
    var tail := if dryRun then " (dry run)" else "";
    var r := head + tail;
    assert r == StatusLabel(success, dryRun);
    assert r[..|head|] == head;
    assert r[|r| - |tail|..] == tail;
    if !success {
      assert r[0] == 'f';
    }
    if !dryRun {
      assert r[|r| - 1] == head[|head| - 1];
    }
  }

  /** The colour of a summary row: dry runs yellow, then successes green and failures red. */
  function ResultColor(success: bool, dryRun: bool): string {
    if dryRun then "yellow" else if success then "green" else "red"
  }
}
