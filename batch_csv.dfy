/**
 * The daily debit batch: select the authorizations consented to on one
 * calendar day, and lay them out as one file record ("1"), one batch header
 * ("5") and one detail record ("6") per authorization.
 *
 * What the builder reads from outside is passed in: the table of
 * authorizations in the order the query returns them, the bank-account table
 * as a map, decryption as a function that yields None when authentication
 * fails, and the strings the code takes from `strftime` and the clock.
 * Writing the file is not modelled; the build yields the output path and the
 * rows it would write, in order.
 */
module BatchCsv {
  import opened Wrappers
  import opened Decimal
  import opened Models

  /** The batch number; printed as "100" and as the first three trace digits. */
  const BatchNum: nat := 100

  const NoCredit: string := "000000000000"
  const RunFileName: string := "run-0100.csv"

  datatype BuildError =
    | NoAuthorizations(dateFolder: string)  // nothing selected: fails before any directory or file
    | AccountNotFound                       // `BankAccount.query.get` found no row
    | DecryptionFailed                      // routing or account did not authenticate

  /** The strings the builder takes from its arguments, the clock and `strftime`. */
  datatype RunInfo = RunInfo(
    privateDir: string,  // the absolute export root
    dateFolder: string,  // batch date as YYYY-MM-DD
    yymmdd: string,      // batch date as YYMMDD
    nowYymmdd: string,   // first clock read, as YYMMDD
    nowHhmm: string,     // second clock read, as HHMM
    createdBy: string,   // accepted and not used by the builder
    defaultSec: string := "CCD")  // entry class code

  /** One authorization joined with its decrypted account: what a detail row is made of. */
  datatype DebitEntry = DebitEntry(
    accountType: string,
    routing: string,
    account: string,
    amountCents: int,
    invoiceNumber: string,
    payerName: string)

  datatype BatchFile = BatchFile(path: string, rows: seq<seq<string>>)

  // ---------------------------------------------------------------- selection

  /** Midnight of the day holding t. */
  function DayStart(t: int): int { t - t % MicrosPerDay }

  /** 23:59:59.999999 of the day holding t. */
  function DayEnd(t: int): int { DayStart(t) + MicrosPerDay - 1 }

  /** The query filter: `start <= consented_at <= end`; a NULL timestamp never matches. */
  predicate InWindow(consentedAt: Option<int>, batchDate: int)
  {
    consentedAt.Some? && DayStart(batchDate) <= consentedAt.value <= DayEnd(batchDate)
  }

  /** The query: the authorizations in the window, in the order the table yields them. */
  function SelectForDay(auths: seq<PaymentAuthorization>, batchDate: int): seq<PaymentAuthorization>
  {
    if auths == [] then []
    else (if InWindow(auths[0].consentedAt, batchDate) then [auths[0]] else [])
         + SelectForDay(auths[1..], batchDate)
  }

  /** The window is exactly the calendar day of the batch date. */
  lemma WindowIsCalendarDay(c: int, batchDate: int)
    ensures DayStart(batchDate) <= c <= DayEnd(batchDate) <==> c / MicrosPerDay == batchDate / MicrosPerDay
  {
    var q := batchDate / MicrosPerDay;
    assert DayStart(batchDate) == q * MicrosPerDay;
    var qc := c / MicrosPerDay;
    assert c == qc * MicrosPerDay + c % MicrosPerDay;
    if qc < q {
      assert qc * MicrosPerDay <= (q - 1) * MicrosPerDay;
    } else if qc > q {
      assert qc * MicrosPerDay >= (q + 1) * MicrosPerDay;
    }
  }

  /** An authorization is selected exactly when it is in the table and inside the window. */
  lemma {:induction false} SelectedIffInWindow(auths: seq<PaymentAuthorization>, batchDate: int, pa: PaymentAuthorization)
    ensures pa in SelectForDay(auths, batchDate) <==> pa in auths && InWindow(pa.consentedAt, batchDate)
  {
    if auths != [] {
      SelectedIffInWindow(auths[1..], batchDate, pa);
      assert auths == [auths[0]] + auths[1..];
    }
  }

  /** Each authorization is selected as many times as the table holds it when it is in the window, and never otherwise. */
  lemma {:induction false} SelectMultiplicity(auths: seq<PaymentAuthorization>, batchDate: int, pa: PaymentAuthorization)
    ensures multiset(SelectForDay(auths, batchDate))[pa]
            == if InWindow(pa.consentedAt, batchDate) then multiset(auths)[pa] else 0
  {
    if auths != [] {
      SelectMultiplicity(auths[1..], batchDate, pa);
      assert auths == [auths[0]] + auths[1..];
    }
  }

  /** Selection keeps the table's order: it distributes over concatenation. */
  lemma {:induction false} SelectionKeepsOrder(a: seq<PaymentAuthorization>, b: seq<PaymentAuthorization>, batchDate: int)
    ensures SelectForDay(a + b, batchDate) == SelectForDay(a, batchDate) + SelectForDay(b, batchDate)
  {
    if a == [] {
      assert a + b == b;
    } else {
      assert (a + b)[0] == a[0] && (a + b)[1..] == a[1..] + b;
      SelectionKeepsOrder(a[1..], b, batchDate);
    }
  }

  // ------------------------------------------------------ join and decryption

  /** Look up the account and decrypt routing, then account; any failure aborts. */
  function Resolve(pa: PaymentAuthorization, accounts: map<string, BankAccount>,
                   decrypt: (string, string) -> Option<string>): Result<DebitEntry, BuildError>
  {
    if pa.bankAccountId !in accounts then Failure(AccountNotFound)
    else
      var ba := accounts[pa.bankAccountId];
      var routing := decrypt(ba.routingCipher, ba.routingNonce);
      var account := decrypt(ba.accountCipher, ba.accountNonce);
      if routing.None? || account.None? then Failure(DecryptionFailed)
      else Success(DebitEntry(ba.accountType, routing.value, account.value,
                              pa.amountCents, pa.invoiceNumber, pa.payerName))
  }

  /** Resolve every selected authorization in order; the first failure is the result. */
  function ResolveAll(ps: seq<PaymentAuthorization>, accounts: map<string, BankAccount>,
                      decrypt: (string, string) -> Option<string>): Result<seq<DebitEntry>, BuildError>
  {
    if ps == [] then Success([])
    else match ResolveAll(ps[..|ps| - 1], accounts, decrypt)
      case Failure(e) => Failure(e)
      case Success(es) =>
        match Resolve(ps[|ps| - 1], accounts, decrypt)
        case Failure(e) => Failure(e)
        case Success(x) => Success(es + [x])
  }

  /**
   * Resolution succeeds exactly when every authorization resolves, and then
   * yields one entry per authorization, in order.
   */
  lemma {:induction false} ResolveAllEach(ps: seq<PaymentAuthorization>, accounts: map<string, BankAccount>,
                                          decrypt: (string, string) -> Option<string>)
    ensures ResolveAll(ps, accounts, decrypt).Success?
            <==> forall k :: 0 <= k < |ps| ==> Resolve(ps[k], accounts, decrypt).Success?
    ensures ResolveAll(ps, accounts, decrypt).Success? ==>
            var es := ResolveAll(ps, accounts, decrypt).value;
            |es| == |ps| && forall k :: 0 <= k < |ps| ==> es[k] == Resolve(ps[k], accounts, decrypt).value
  {
    if ps != [] {
      var init := ps[..|ps| - 1];
      ResolveAllEach(init, accounts, decrypt);
      assert forall k :: 0 <= k < |init| ==> init[k] == ps[k];
    }
  }

  /** When resolution fails, the error is that of the first authorization that does not resolve. */
  lemma {:induction false} ResolveAllFirstFailure(ps: seq<PaymentAuthorization>, accounts: map<string, BankAccount>,
                                                  decrypt: (string, string) -> Option<string>)
    requires ResolveAll(ps, accounts, decrypt).Failure?
    ensures exists j :: 0 <= j < |ps| && Resolve(ps[j], accounts, decrypt).Failure?
                        && ResolveAll(ps, accounts, decrypt).error == Resolve(ps[j], accounts, decrypt).error
                        && forall k :: 0 <= k < j ==> Resolve(ps[k], accounts, decrypt).Success?
  {
    var init := ps[..|ps| - 1];
    assert forall k :: 0 <= k < |init| ==> init[k] == ps[k];
    if ResolveAll(init, accounts, decrypt).Failure? {
      ResolveAllFirstFailure(init, accounts, decrypt);
    } else {
      ResolveAllEach(init, accounts, decrypt);
      assert Resolve(ps[|ps| - 1], accounts, decrypt).Failure?;
    }
  }

  /** Resolving one more authorization of the selection. */
  lemma ResolveStep(ps: seq<PaymentAuthorization>, n: nat, accounts: map<string, BankAccount>,
                    decrypt: (string, string) -> Option<string>)
    requires 0 < n <= |ps| && ResolveAll(ps[..n - 1], accounts, decrypt).Success?
    ensures Resolve(ps[n - 1], accounts, decrypt).Failure? ==>
            ResolveAll(ps[..n], accounts, decrypt) == Failure(Resolve(ps[n - 1], accounts, decrypt).error)
    ensures Resolve(ps[n - 1], accounts, decrypt).Success? ==>
            ResolveAll(ps[..n], accounts, decrypt)
            == Success(ResolveAll(ps[..n - 1], accounts, decrypt).value + [Resolve(ps[n - 1], accounts, decrypt).value])
  {
    assert ps[..n][..n - 1] == ps[..n - 1];
  }

  /** A failure in a prefix of the selection is the failure of the whole build. */
  lemma {:induction false} ResolvePrefixFailure(ps: seq<PaymentAuthorization>, n: nat,
                                                accounts: map<string, BankAccount>,
                                                decrypt: (string, string) -> Option<string>)
    requires n <= |ps| && ResolveAll(ps[..n], accounts, decrypt).Failure?
    ensures ResolveAll(ps, accounts, decrypt) == ResolveAll(ps[..n], accounts, decrypt)
  {
    if n < |ps| {
      assert ps[..|ps| - 1][..n] == ps[..n];
      ResolvePrefixFailure(ps[..|ps| - 1], n, accounts, decrypt);
    } else {
      assert ps[..n] == ps;
    }
  }

  // ------------------------------------------------------------------- fields

  /** Python's `s[:k]`: the prefix of length min(k, |s|). */
  function Prefix(s: string, k: nat): (r: string)
    ensures |r| == Min(k, |s|) && r == s[..|r|]
  {
    if |s| <= k then s else s[..k]
  }

  /** "27" debits a checking account; every other type is debited as savings, "37". */
  function TxnCode(accountType: string): string
  {
    if accountType == "checking" then "27" else "37"
  }

  /** `(payer_name or "Customer")`: an empty name falls back to "Customer". */
  function PayeeName(payerName: string): string
  {
    if payerName == "" then "Customer" else payerName
  }

  /** `f"{batch_num}{i:011d}"[:15]`. */
  function Trace(i: nat): string
  {
    Prefix(Digits(BatchNum) + PadInt(i, 11), 15)
  }

  /** The "6" record of the i-th entry (1-based). */
  function DetailRow(i: nat, e: DebitEntry): seq<string>
  {
    ["6", TxnCode(e.accountType), e.routing, e.account, Cents10(e.amountCents),
     Prefix(e.invoiceNumber, 15), Prefix(PayeeName(e.payerName), 22), Trace(i), ""]
  }

  /** The "5" record: service class 225, debits only. */
  function HeaderRow(count: nat, debitCents: int, run: RunInfo): seq<string>
  {
    ["5", "225", "TEST-LOCAL-ACCOUNT", run.defaultSec, "INVOICE", run.yymmdd,
     NoCredit, Cents12(debitCents), PadInt(BatchNum, 3), PadInt(count, 4)]
  }

  /** The "1" record: one batch. */
  function FileRow(count: nat, debitCents: int, run: RunInfo): seq<string>
  {
    ["1", "A", run.nowYymmdd, run.nowHhmm, PadInt(count, 6), NoCredit, Cents12(debitCents), "0001"]
  }

  // ------------------------------------------------------------ the whole file

  function TotalCents(es: seq<DebitEntry>): int
  {
    if es == [] then 0 else TotalCents(es[..|es| - 1]) + es[|es| - 1].amountCents
  }

  /** The sum of `amount_cents` over authorizations. */
  function SelectedTotal(ps: seq<PaymentAuthorization>): int
  {
    if ps == [] then 0 else SelectedTotal(ps[..|ps| - 1]) + ps[|ps| - 1].amountCents
  }

  /** The detail records, numbered from 1. */
  function DetailRows(es: seq<DebitEntry>): seq<seq<string>>
  {
    if es == [] then [] else DetailRows(es[..|es| - 1]) + [DetailRow(|es|, es[|es| - 1])]
  }

  /** Everything written: the file record, then the batch header, then the details. */
  function BatchRows(es: seq<DebitEntry>, run: RunInfo): seq<seq<string>>
  {
    [FileRow(|es|, TotalCents(es), run)] + ([HeaderRow(|es|, TotalCents(es), run)] + DetailRows(es))
  }

  /** posixpath.join of two components. */
  function PathJoin(a: string, b: string): string
  {
    if |b| > 0 && b[0] == '/' then b
    else if a == [] || a[|a| - 1] == '/' then a + b
    else a + "/" + b
  }

  function OutPath(run: RunInfo): string
  {
    PathJoin(PathJoin(run.privateDir, run.dateFolder), RunFileName)
  }

  /** What `build_daily_csv` produces for a table, an account map and a batch date. */
  function DailyCsv(auths: seq<PaymentAuthorization>, accounts: map<string, BankAccount>,
                    decrypt: (string, string) -> Option<string>, batchDate: int, run: RunInfo)
    : Result<BatchFile, BuildError>
  {
    var sel := SelectForDay(auths, batchDate);
    if sel == [] then Failure(NoAuthorizations(run.dateFolder))
    else match ResolveAll(sel, accounts, decrypt)
      case Failure(e) => Failure(e)
      case Success(es) => Success(BatchFile(OutPath(run), BatchRows(es, run)))
  }

  // --------------------------------------------------------------- properties

  /** The batch number prints as "100", with or without the 3-digit width. */
  lemma BatchNumText()
    ensures Digits(BatchNum) == "100" && PadInt(BatchNum, 3) == "100"
  {
    assert Digits(1) == "1";
    assert Digits(10) == "10";
  }

  /**
   * The trace always starts with "100" and has at most 15 characters. Up to
   * 10^12 - 1 rows nothing is cut: after "100" follow at least 11 digits
   * that read back as the row number, exactly 11 below 10^11.
   */
  lemma TraceFields(i: nat)
    ensures |Trace(i)| <= 15 && Trace(i)[..3] == "100"
    ensures i < Pow10(12) ==> ParseInt(Trace(i)[3..]) == Some(i) && |Trace(i)[3..]| >= 11
    ensures i < Pow10(11) ==> |Trace(i)| == 14 && AllDigits(Trace(i)[3..]) && |Trace(i)[3..]| == 11
  {
    BatchNumText();
    var full := Digits(BatchNum) + PadInt(i, 11);
    assert full[..3] == "100" && full[3..] == PadInt(i, 11);
    PadIntRoundTrip(i, 11);
    if i < Pow10(11) {
      PadIntFixedWidth(i, 11);
    }
    if i < Pow10(12) {
      DigitsFit(i, 12);
      assert |full| <= 15;
      assert Trace(i) == full;
    }
  }

  /** Distinct row numbers below 10^12 get distinct traces. */
  lemma TraceInjective(i: nat, j: nat)
    requires i < Pow10(12) && j < Pow10(12) && i != j
    ensures Trace(i) != Trace(j)
  {
    TraceFields(i);
    TraceFields(j);
  }

  /** The fields of a detail record and what each is made of. */
  lemma DetailRowFields(i: nat, e: DebitEntry)
    ensures var row := DetailRow(i, e);
            && |row| == 9 && row[0] == "6" && row[8] == ""
            && (row[1] == "27" <==> e.accountType == "checking")
            && (row[1] == "37" <==> e.accountType != "checking")
            && row[2] == e.routing && row[3] == e.account
            && ParseInt(row[4]) == Some(e.amountCents) && |row[4]| >= 10
            && (0 <= e.amountCents < Pow10(10) ==> |row[4]| == 10 && AllDigits(row[4]))
            && row[5] == e.invoiceNumber[..Min(15, |e.invoiceNumber|)]
            && (e.payerName != "" ==> row[6] == e.payerName[..Min(22, |e.payerName|)])
            && (e.payerName == "" ==> row[6] == "Customer")
            && row[7] == Trace(i)
  {
    Cents10Field(e.amountCents);
  }

  /** Row k (0-based) of the details is the record of entry k, numbered k + 1. */
  lemma {:induction false} DetailRowsAt(es: seq<DebitEntry>)
    ensures |DetailRows(es)| == |es|
    ensures forall k :: 0 <= k < |es| ==> DetailRows(es)[k] == DetailRow(k + 1, es[k])
  {
    if es != [] {
      var init := es[..|es| - 1];
      DetailRowsAt(init);
      assert forall k :: 0 <= k < |init| ==> init[k] == es[k];
    }
  }

  /** The file record: tag "1", clock strings, count, no credit, the debit total, one batch. */
  lemma FileRowFields(count: nat, debitCents: int, run: RunInfo)
    ensures var row := FileRow(count, debitCents, run);
            && |row| == 8 && row[0] == "1" && row[1] == "A"
            && row[2] == run.nowYymmdd && row[3] == run.nowHhmm
            && row[4] == PadInt(count, 6) && row[5] == NoCredit
            && row[6] == Cents12(debitCents) && row[7] == "0001"
  {
  }

  /** The batch header: tag "5", service class 225, no credit, the debit total, batch 100, count. */
  lemma HeaderRowFields(count: nat, debitCents: int, run: RunInfo)
    ensures var row := HeaderRow(count, debitCents, run);
            && |row| == 10 && row[0] == "5" && row[1] == "225"
            && row[2] == "TEST-LOCAL-ACCOUNT" && row[3] == run.defaultSec
            && row[4] == "INVOICE" && row[5] == run.yymmdd
            && row[6] == NoCredit && row[7] == Cents12(debitCents) && row[8] == "100"
            && row[9] == PadInt(count, 4)
  {
    BatchNumText();
  }

  /** A run that does not name an entry class code writes "CCD" in the batch header. */
  lemma DefaultEntryClass(privateDir: string, dateFolder: string, yymmdd: string,
                          nowYymmdd: string, nowHhmm: string, createdBy: string,
                          count: nat, debitCents: int)
    ensures var run := RunInfo(privateDir, dateFolder, yymmdd, nowYymmdd, nowHhmm, createdBy);
            run.defaultSec == "CCD" && HeaderRow(count, debitCents, run)[3] == "CCD"
  {
  }

  /** The order of the written rows: file record, batch header, then one detail per entry. */
  lemma BatchLayout(es: seq<DebitEntry>, run: RunInfo)
    ensures var rows := BatchRows(es, run);
            && |rows| == |es| + 2
            && rows[0] == FileRow(|es|, TotalCents(es), run)
            && rows[1] == HeaderRow(|es|, TotalCents(es), run)
            && forall k :: 0 <= k < |es| ==> rows[k + 2] == DetailRow(k + 1, es[k])
  {
    DetailRowsAt(es);
  }

  /**
   * Both debit totals are the same field, reading as the sum of the amounts;
   * both credit totals are twelve zeros; the transaction count reads as the
   * number of entries, in at least 4 (header) and 6 (file) characters.
   */
  lemma BatchTotals(es: seq<DebitEntry>, run: RunInfo)
    ensures var rows := BatchRows(es, run);
            && rows[0][5] == NoCredit && rows[1][6] == NoCredit
            && rows[1][7] == rows[0][6]
            && ParseInt(rows[0][6]) == Some(TotalCents(es)) && |rows[0][6]| >= 12
            && ParseInt(rows[0][4]) == Some(|es|) && |rows[0][4]| >= 6
            && ParseInt(rows[1][9]) == Some(|es|) && |rows[1][9]| >= 4
            && (|es| < Pow10(6) ==> |rows[0][4]| == 6)
            && (|es| < Pow10(4) ==> |rows[1][9]| == 4)
  {
    PadIntCount(|es|, 6);
    PadIntCount(|es|, 4);
    BatchLayout(es, run);
    FileRowFields(|es|, TotalCents(es), run);
    HeaderRowFields(|es|, TotalCents(es), run);
    Cents12Field(TotalCents(es));
  }

  /** The entries' total is the sum of `amount_cents` over the selection. */
  lemma {:induction false} TotalMatchesSelection(ps: seq<PaymentAuthorization>, accounts: map<string, BankAccount>,
                                                 decrypt: (string, string) -> Option<string>)
    requires ResolveAll(ps, accounts, decrypt).Success?
    ensures TotalCents(ResolveAll(ps, accounts, decrypt).value) == SelectedTotal(ps)
  {
    if ps != [] {
      var es := ResolveAll(ps, accounts, decrypt).value;
      TotalMatchesSelection(ps[..|ps| - 1], accounts, decrypt);
      assert es[..|es| - 1] == ResolveAll(ps[..|ps| - 1], accounts, decrypt).value;
    }
  }

  /** The build fails for want of authorizations exactly when the day's selection is empty. */
  lemma EmptySelectionFails(auths: seq<PaymentAuthorization>, accounts: map<string, BankAccount>,
                            decrypt: (string, string) -> Option<string>, batchDate: int, run: RunInfo)
    ensures DailyCsv(auths, accounts, decrypt, batchDate, run) == Failure(NoAuthorizations(run.dateFolder))
            <==> SelectForDay(auths, batchDate) == []
  {
    var sel := SelectForDay(auths, batchDate);
    if sel != [] && ResolveAll(sel, accounts, decrypt).Failure? {
      ResolveAllFirstFailure(sel, accounts, decrypt);
    }
  }

  /**
   * The build succeeds exactly when the selection is non-empty and every
   * selected authorization has its account and both numbers decrypt.
   */
  lemma DailyCsvSucceedsIff(auths: seq<PaymentAuthorization>, accounts: map<string, BankAccount>,
                            decrypt: (string, string) -> Option<string>, batchDate: int, run: RunInfo)
    ensures var sel := SelectForDay(auths, batchDate);
            DailyCsv(auths, accounts, decrypt, batchDate, run).Success?
            <==> sel != [] && forall k :: 0 <= k < |sel| ==> Resolve(sel[k], accounts, decrypt).Success?
  {
    ResolveAllEach(SelectForDay(auths, batchDate), accounts, decrypt);
  }

  /**
   * A successful build writes to `<root>/<date>/run-0100.csv` the file record
   * and batch header carrying the count and the sum of the selected amounts,
   * then, in query order, the detail record of each selected authorization
   * made from its own amount, invoice, payer name and decrypted account.
   */
  lemma DailyCsvContents(auths: seq<PaymentAuthorization>, accounts: map<string, BankAccount>,
                         decrypt: (string, string) -> Option<string>, batchDate: int, run: RunInfo)
    requires DailyCsv(auths, accounts, decrypt, batchDate, run).Success?
    ensures var sel := SelectForDay(auths, batchDate);
            var f := DailyCsv(auths, accounts, decrypt, batchDate, run).value;
            && f.path == OutPath(run)
            && ResolveAll(sel, accounts, decrypt).Success?
            && f.rows == BatchRows(ResolveAll(sel, accounts, decrypt).value, run)
            && |f.rows| == |sel| + 2 && |sel| >= 1
            && ParseInt(f.rows[0][6]) == Some(SelectedTotal(sel)) && f.rows[1][7] == f.rows[0][6]
            && ParseInt(f.rows[0][4]) == Some(|sel|) && ParseInt(f.rows[1][9]) == Some(|sel|)
            && forall k :: 0 <= k < |sel| ==>
                 && sel[k].bankAccountId in accounts
                 && var ba := accounts[sel[k].bankAccountId];
                    && decrypt(ba.routingCipher, ba.routingNonce).Some?
                    && decrypt(ba.accountCipher, ba.accountNonce).Some?
                    &&
                    f.rows[k + 2] == DetailRow(k + 1, DebitEntry(
                      ba.accountType,
                      decrypt(ba.routingCipher, ba.routingNonce).value,
                      decrypt(ba.accountCipher, ba.accountNonce).value,
                      sel[k].amountCents, sel[k].invoiceNumber, sel[k].payerName))
  {
    var sel := SelectForDay(auths, batchDate);
    var es := ResolveAll(sel, accounts, decrypt).value;
    ResolveAllEach(sel, accounts, decrypt);
    TotalMatchesSelection(sel, accounts, decrypt);
    BatchLayout(es, run);
    BatchTotals(es, run);
  }

  /** With a plain root and a YYYY-MM-DD folder the path is `<root>/<folder>/run-0100.csv`. */
  lemma OutPathShape(run: RunInfo)
    requires run.privateDir != [] && run.privateDir[|run.privateDir| - 1] != '/'
    requires run.dateFolder != [] && run.dateFolder[0] != '/' && run.dateFolder[|run.dateFolder| - 1] != '/'
    ensures OutPath(run) == run.privateDir + "/" + run.dateFolder + "/" + RunFileName
  {
  }

  /** Adding one entry adds its amount to the total and its row, numbered next, to the details. */
  lemma AppendEntry(es: seq<DebitEntry>, e: DebitEntry)
    ensures TotalCents(es + [e]) == TotalCents(es) + e.amountCents
    ensures DetailRows(es + [e]) == DetailRows(es) + [DetailRow(|es| + 1, e)]
  {
    assert (es + [e])[..|es|] == es;
  }

  /**
   * `build_daily_csv`: accumulates the count and the two debit totals in one
   * pass over the selection, builds the detail rows, then puts the batch
   * header in front and the file record before that.
   */
  method BuildDailyCsv(auths: seq<PaymentAuthorization>, accounts: map<string, BankAccount>,
                       decrypt: (string, string) -> Option<string>, batchDate: int, run: RunInfo)
    returns (r: Result<BatchFile, BuildError>)
    ensures r == DailyCsv(auths, accounts, decrypt, batchDate, run)
  {
    var sel := SelectForDay(auths, batchDate);
    if sel == [] {
      return Failure(NoAuthorizations(run.dateFolder));
    }
    var outPath := OutPath(run);

    var totalTx: nat := 0;
    var totalDebitCents := 0;
    var batchDebitCents := 0;
    var batchRows: seq<seq<string>> := [];
    ghost var entries: seq<DebitEntry> := [];

    for i := 1 to |sel| + 1
      invariant ResolveAll(sel[..i - 1], accounts, decrypt) == Success(entries)
      invariant |entries| == i - 1 && totalTx == i - 1
      invariant batchRows == DetailRows(entries)
      invariant totalDebitCents == TotalCents(entries) && batchDebitCents == TotalCents(entries)
    {
      var pa := sel[i - 1];
      ResolveStep(sel, i, accounts, decrypt);
      if pa.bankAccountId !in accounts {
        ResolvePrefixFailure(sel, i, accounts, decrypt);
        return Failure(AccountNotFound);
      }
      var ba := accounts[pa.bankAccountId];
      var routing := decrypt(ba.routingCipher, ba.routingNonce);
      var account := decrypt(ba.accountCipher, ba.accountNonce);
      if routing.None? || account.None? {
        ResolvePrefixFailure(sel, i, accounts, decrypt);
        return Failure(DecryptionFailed);
      }

      var amountCents := pa.amountCents;
      totalTx := totalTx + 1;
      totalDebitCents := totalDebitCents + amountCents;
      batchDebitCents := batchDebitCents + amountCents;

      var txnCode := TxnCode(ba.accountType);
      var trace := Trace(i);
      var payeeName := Prefix(PayeeName(pa.payerName), 22);
      var payeeId := Prefix(pa.invoiceNumber, 15);

      batchRows := batchRows + [["6", txnCode, routing.value, account.value, Cents10(amountCents),
                                 payeeId, payeeName, trace, ""]];
      ghost var entry := DebitEntry(ba.accountType, routing.value, account.value,
                                    pa.amountCents, pa.invoiceNumber, pa.payerName);
      AppendEntry(entries, entry);
      entries := entries + [entry];
    }

    assert sel[..|sel|] == sel;
    assert DailyCsv(auths, accounts, decrypt, batchDate, run) == Success(BatchFile(outPath, BatchRows(entries, run)));
    batchRows := [HeaderRow(totalTx, batchDebitCents, run)] + batchRows;
    var fileRow := FileRow(totalTx, totalDebitCents, run);
    r := Success(BatchFile(outPath, [fileRow] + batchRows));
  }
}
