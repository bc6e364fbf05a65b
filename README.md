# Daily debit batch export, modelled in Dafny

This project models the export core of a payment-consent service. Payers record
consent to a debit. The consent is stored as a `PaymentAuthorization` that refers
to a `BankAccount`, whose routing and account numbers are stored only encrypted.
Once a day an operator builds a debit-only batch file (service class 225) from
every authorization consented to on that calendar day. An operator can then issue
a one-time download link for the file.

The model covers two things:

- `build_daily_csv` with its two amount formatters, `_cents12` and `_cents10`.
  This covers how the day's authorizations are selected, the loop that counts
  them and sums their amounts, and the three record types written in order:
  - the file record, tagged "1";
  - the batch header, tagged "5";
  - one detail record per authorization, tagged "6".
- `OneTimeLink.create`, the insert that issues a download link.

Files:

- `wrappers.dfy`: `Option` (nullable columns, decryption failure) and `Result`
  (the builder's error paths).
- `decimal.dfy`: Python's `f"{n:0Wd}"`. The width is a minimum: longer numbers
  are written in full, and a negative number gets its sign before the zeros.
  The module also has the decimal reading of a field (`ParseInt`), which is the
  inverse of the formatter and is used to state what every numeric field means.
- `models.dfy`: the three table records as datatypes, and the link table as a
  class whose `Create` method inserts a record.
- `batch_csv.dfy`:
  - the day window and the selection;
  - the account join and decryption, one authorization at a time;
  - the row builders;
  - the spec function `DailyCsv`;
  - the imperative `BuildDailyCsv` loop, proved equal to `DailyCsv`;
  - lemmas about what `DailyCsv` writes.

Conventions:

- Timestamps are integers counting microseconds, the resolution of Python's
  `datetime`, from 0001-01-01 00:00:00 (`datetime.min`). A datetime exists only
  up to 9999-12-31 23:59:59.999999 (`datetime.max`, `Models.MaxTimestamp`).
  Midnight of a day is the timestamp rounded down to a multiple of
  86 400 000 000.
- A column declared without `nullable=False` is an `Option`. A NULL
  `consented_at` never matches the date filter.
- The builder's outside inputs are parameters:
  - the authorization table, in the order the query returns it;
  - the account table, as a map from id to record;
  - decryption, as a function that returns `None` when authentication fails;
  - the export root;
  - the strings the code gets from `strftime` and from the clock.
- The builder's outcome is either `Failure(error)` or the output path plus the
  rows it would write. The errors are:
  - `NoAuthorizations`: the selection is empty;
  - `AccountNotFound`: the account lookup returns nothing, which makes the code
    fail on attribute access;
  - `DecryptionFailed`: the authentication tag is rejected.

Where the system's design description and the code differ, the model follows the
code:

- Width overflow is not an error. A count or amount too wide for its field is
  written with all its digits (`Decimal.Cents10Field`, `Decimal.PadIntCount`).
  The design asks for a format error instead.
- The trace is "100" followed by the row number padded to 11 digits, then cut to
  15 characters. For fewer than 10^11 rows it is 14 characters long, not padded
  to 15.
- Any account type other than "checking" gets transaction code "37". The design
  allows only checking and savings.
- Rows come in the order the query returns them. The code gives the query no
  ordering.
- The output file name is always `run-0100.csv`.

## Model

| member | source | states |
|---|---|---|
| Decimal.Digits | batch_csv.py:8-12 | Python's `str(n)` for n >= 0: at least one character, all decimal digits. Its value is stated by `DigitsValue`, its length by `DigitsFit`. |
| Decimal.PadInt | batch_csv.py:8-12 | Python's `f"{n:0Wd}"`. Its shape is stated by `PadIntShape` and `PadIntZeroFill`, its value by `PadIntRoundTrip`, and its width by `PadIntFixedWidth` and `PadIntNoTruncation`. |
| Decimal.Cents12 | batch_csv.py:8-9 | `_cents12`. Its properties are stated by `Cents12Field`. |
| Decimal.Cents10 | batch_csv.py:11-12 | `_cents10`. Its properties are stated by `Cents10Field`. |
| Decimal.DigitsValue | batch_csv.py:8-12 | The digits Python writes for a non-negative integer read back as that integer. |
| Decimal.DigitsNoLeadingZero | batch_csv.py:8-12 | The plain decimal form of a positive integer has no leading zero. |
| Decimal.DigitsFit | batch_csv.py:8-12 | The plain decimal form of n fits in w characters exactly when n < 10^w (both directions). |
| Decimal.PadIntShape | batch_csv.py:8-12 | `f"{n:0Wd}"` has length max(W, sign + digits), ends with every digit of abs(n) (never truncated), and starts with '-' for negative n. |
| Decimal.PadIntZeroFill | batch_csv.py:8-12 | All characters between the sign and the digits of `f"{n:0Wd}"` are '0'. |
| Decimal.PadIntRoundTrip | batch_csv.py:8-12 | Reading `f"{n:0Wd}"` as a decimal gives back n, for every integer n and width W. |
| Decimal.PadIntFixedWidth | batch_csv.py:8-12 | For 0 <= n < 10^W, `f"{n:0Wd}"` is exactly W digits whose value is n. |
| Decimal.PadIntNoTruncation | batch_csv.py:8-12 | For n >= 10^W, `f"{n:0Wd}"` is the full decimal form of n and is longer than W. |
| Decimal.PadIntCount | batch_csv.py:81-89 | A count written as `f"{n:0Wd}"` is all digits, at least W of them, exactly W when n < 10^W, and reads back as n. |
| Decimal.Cents12Field | batch_csv.py:8-9 | `_cents12(n)` has at least 12 characters and reads back as n. It is exactly 12 digits for 0 <= n < 10^12 and all of n's digits above that. |
| Decimal.Cents10Field | batch_csv.py:11-12 | `_cents10(n)` has at least 10 characters and reads back as n. It is exactly 10 digits for 0 <= n < 10^10 and all of n's digits above that (no format error). |
| Models.LinkTable.Create | models.py:45-54 | Succeeds exactly when now + `minutes` minutes is a datetime (year 1 to 9999). Otherwise it fails with the `OverflowError` of line 50 and inserts nothing. On success the returned token is the fresh id of the new record. The record has no `used_at`, expires `minutes` minutes after now, and stores `file_path` and `created_by` as given. The table gains exactly that one key; every other record is unchanged and every record stays keyed by its own id. |
| Models.IssueWithDefaultLifetime | models.py:46 | When no lifetime is given, the link expires 15 minutes after creation. The call fails only when that falls past `datetime.max`. |
| BatchCsv.SelectForDay | batch_csv.py:21-27 | The query: the authorizations whose `consented_at` lies from midnight to 23:59:59.999999 of the batch date, in table order. Stated by `SelectedIffInWindow`, `SelectMultiplicity`, `WindowIsCalendarDay` and `SelectionKeepsOrder`. |
| BatchCsv.Resolve | batch_csv.py:44-46 | Looks up one authorization's account and decrypts routing and account. Fails if the account is missing or either number does not decrypt. Used by `ResolveAllEach` and `ResolveAllFirstFailure`. |
| BatchCsv.ResolveAll | batch_csv.py:43-46 | The loop's lookups and decryptions in order; the first failure aborts. Stated by `ResolveAllEach` and `ResolveAllFirstFailure`. |
| BatchCsv.WindowIsCalendarDay | batch_csv.py:21-22 | A timestamp lies between midnight and 23:59:59.999999 of the batch date's day exactly when it falls on the same calendar day (both directions). |
| BatchCsv.SelectedIffInWindow | batch_csv.py:24-27 | An authorization is selected exactly when it is in the table and its `consented_at` is non-NULL and inside the window (both directions). |
| BatchCsv.SelectMultiplicity | batch_csv.py:24-27 | An in-window authorization is selected exactly as many times as the table holds it, and an out-of-window one never. So the selection's size, and with it the row count, is the number of in-window rows of the table. |
| BatchCsv.SelectionKeepsOrder | batch_csv.py:24-27 | Selection distributes over concatenation of the table, so it keeps the table's order. |
| BatchCsv.ResolveAllEach | batch_csv.py:43-46 | Account lookup and decryption of the selection succeed exactly when each authorization succeeds (both directions). On success they give one entry per authorization, in order. |
| BatchCsv.ResolveAllFirstFailure | batch_csv.py:43-46 | When resolution fails, the error is that of the first authorization that does not resolve. All authorizations before it resolve. |
| BatchCsv.Trace | batch_csv.py:54 | `f"{batch_num}{i:011d}"[:15]`. Stated by `TraceFields` and `TraceInjective`. |
| BatchCsv.DetailRow | batch_csv.py:53-68 | The "6" record of the i-th authorization. Stated by `DetailRowFields`. |
| BatchCsv.HeaderRow | batch_csv.py:71-82 | The "5" record. Stated by `HeaderRowFields`, `DefaultEntryClass` and `BatchTotals`. |
| BatchCsv.FileRow | batch_csv.py:84-93 | The "1" record. Stated by `FileRowFields` and `BatchTotals`. |
| BatchCsv.TotalCents | batch_csv.py:49-51 | The running debit total over the processed entries. Stated by `TotalMatchesSelection` and `BatchTotals`. |
| BatchCsv.PathJoin | batch_csv.py:31-33 | `os.path.join` of two components on POSIX. Stated by `OutPathShape`. |
| BatchCsv.OutPath | batch_csv.py:31-33 | `<root>/<date folder>/run-0100.csv`. Stated by `OutPathShape`. |
| BatchCsv.DailyCsv | batch_csv.py:14-100 | What `build_daily_csv` produces. Stated by `EmptySelectionFails`, `DailyCsvSucceedsIff` and `DailyCsvContents`; `BuildDailyCsv` is proved equal to it. |
| BatchCsv.Prefix | batch_csv.py:55-56 | Python's `s[:k]` is the prefix of s of length min(k, len(s)). |
| BatchCsv.BatchNumText | batch_csv.py:80 | Batch number 100 prints as "100", both bare (in the trace) and as `:03d` (in the header). |
| BatchCsv.TraceFields | batch_csv.py:54 | The trace starts with "100" and has at most 15 characters. Below 10^12 rows, the rest reads back as the row number. Below 10^11 rows it is exactly 11 digits, making a 14-character trace. |
| BatchCsv.TraceInjective | batch_csv.py:54 | Distinct row numbers below 10^12 get distinct traces. |
| BatchCsv.DetailRowFields | batch_csv.py:53-68 | A detail row has 9 fields: "6"; "27" exactly for checking and "37" for every other type; routing and account unchanged; the amount, reading back as `amount_cents` in at least 10 characters; the invoice prefix of length min(15, len); the payer-name prefix of length min(22, len), or "Customer" for an empty name; the trace; an empty last field. |
| BatchCsv.DetailRowsAt | batch_csv.py:43-68 | There is one detail row per entry, and row k is built from entry k with row number k + 1 (enumerate from 1). |
| BatchCsv.FileRowFields | batch_csv.py:84-93 | The file record has 8 fields: "1", "A", the clock's date and time, the count as `:06d`, twelve zeros of credit, the debit total as `_cents12`, "0001". |
| BatchCsv.HeaderRowFields | batch_csv.py:71-82 | The batch header has 10 fields: "5", "225", the originator, the entry class, "INVOICE", the batch date, twelve zeros of credit, the debit total as `_cents12`, "100", the count as `:04d`. |
| BatchCsv.DefaultEntryClass | batch_csv.py:14 | A run that does not give `default_sec` writes "CCD" as the batch header's entry class. |
| BatchCsv.BatchLayout | batch_csv.py:71-98 | The rows are written in order: the file record, then the batch header (inserted at the front of the batch rows), then one detail record per entry, in order. |
| BatchCsv.BatchTotals | batch_csv.py:35-51 | Both credit fields are twelve zeros. The batch debit and the file debit are the same field, which reads back as the sum of the amounts. The count reads back as the number of entries, in at least 4 (header) and 6 (file) characters, exactly 4 and 6 when it fits. |
| BatchCsv.TotalMatchesSelection | batch_csv.py:48-51 | The debit total of the entries equals the sum of `amount_cents` over the selected authorizations. |
| BatchCsv.EmptySelectionFails | batch_csv.py:28-29 | The build fails with "no authorizations" for the date folder exactly when the day's selection is empty, before any path or row is produced (both directions). |
| BatchCsv.DailyCsvSucceedsIff | batch_csv.py:28-46 | The build succeeds exactly when the selection is non-empty and every selected authorization has its account and both numbers decrypt (both directions). |
| BatchCsv.DailyCsvContents | batch_csv.py:14-100 | On success the output has the path `<root>/<date>/run-0100.csv`. Its rows are `BatchRows` of the resolved selection, so `BatchLayout` and `BatchTotals` apply to them. There are selection + 2 rows. Both debit totals read back as the sum of the selected amounts. Both counts read back as the selection's size. Detail row k is built from selected authorization k (in query order), using its own amount, invoice and payer name and its account's type and decrypted numbers. |
| BatchCsv.OutPathShape | batch_csv.py:31-33 | With a root without a trailing '/' and a YYYY-MM-DD folder, the output path is root + "/" + folder + "/run-0100.csv". |
| BatchCsv.BuildDailyCsv | batch_csv.py:14-100 | The imperative build equals `DailyCsv`. Its loop keeps three invariants: the count is the number of rows processed, both running debit totals are the sum of their amounts, and the rows built so far are the detail rows of the resolved prefix. The first failed lookup or decryption aborts the build with that error. |

## Left out

- File system: `os.makedirs`, opening and writing the file, and the quoting done
  by `csv.writer`. The build yields the path and the rows it would write. A build
  that fails during the loop has, in the code, already created the date
  directory; the model does not track directories.
- Encryption: `decrypt_str` (AES-GCM with base64) is a function parameter that
  returns `None` on an authentication failure. Its round trip and tamper
  detection are properties of the cipher library, which is not part of this
  model.
- Database: the query's filter is modelled; its order is not. The table is
  passed in the order the query returns it, because the code gives no
  `order_by`. Sessions, commits and column length limits are not modelled.
- Clock and calendar: `datetime.now()`, `datetime.utcnow()` and `strftime` are
  not modelled. The date folder, the YYMMDD of the batch date, and the date and
  time of the file record are string parameters. The code reads the clock twice
  for the file record, once for the date and once for the time, so the model
  keeps them as two independent parameters. Time zones are not modelled:
  timestamps are naive, as in the code.
- Models.LinkTable.Create: the id comes from the caller, with freshness as a
  precondition, instead of from `uuid4`. The creation time is a parameter that
  must itself be a datetime, as `utcnow()` always is.
- The export root `PRIVATE_DIR` is a parameter (`RunInfo.privateDir`), since it
  depends on the process's working directory.
- The builder's `created_by` argument is kept in `RunInfo` but, as in the code,
  does not affect the output.
- Token redemption, atomic file publication, width-overflow errors and key
  configuration errors are not in the modelled code and are not modelled.
- The web routes of `application.py` are not part of this model.
