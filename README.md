# Transaction ledger of the finance app, in Dafny

The finance app keeps a ledger of money transactions. Each record has an
id, a date, a description, an amount, a type (`income` or `expense`) and
a category. New records go in front, so the ledger is newest first. The
app shows three totals worked out from the ledger: total income, total
expense and the balance. It can also export the ledger as CSV text: a
fixed header line, then one line per record in ledger order, each written
as `date,"description",amount,type,category`.

This project models that ledger and proves properties of it.

- `records.dfy` (module `Records`): the record shape. `Draft` holds the
  fields a caller supplies. `Transaction` is a `Draft` plus an id. The
  record's `type` field is named `kind` here, because `type` is a Dafny
  keyword.
- `totals.dfy` (module `Totals`): the three totals, computed as filter,
  then reduce, as in the app. They are proved equal to a single-pass sum
  and a signed sum.
- `format.dfy` (module `Format`): the date and amount text used in the
  export, each with a parser and a proof that it reads back.
- `csv.dfy` (module `Csv`): the export text, given as a recursive
  specification. There is a parser for it, and round-trip and
  line-count lemmas.
- `ledger.dfy` (module `TransactionLedger`): class `Ledger`, holding the
  record sequence. Its methods are:
  - `AddTransaction`, which prepends the new record;
  - `ExportCsv`, which builds the text with a loop that appends one line
    per record. The loop is proved to produce the recursive specification.
- `scenario.dfy` (module `Scenario`): a worked session. It adds a grocery
  expense of 42.50, then a paycheck of 2000, and states the resulting
  ledger order, totals and export.
- `text.dfy` and `wrappers.dfy`: digits, padded decimals, searching,
  counting and `Option`.

Modelling choices:

- **Amounts** are exact integers counting hundredths (4250 is 42.50). The
  amount text follows how the app's runtime prints such a number: no
  trailing fractional zeros and no point for a whole amount, so 4250 is
  `42.5` and 200000 is `2000`.
- **Dates** are (year, month, day) triples. They are written zero-padded
  as `yyyy-MM-dd`, by a formatter defined in the model.
- **Ids** are a parameter of `AddTransaction`, supplied by the caller.

## Model

| member | source | states |
|---|---|---|
| Records.KindName | constants/AppConstants.ts:63 | the text of each of the two tags reads back as that tag |
| Records.WithId | context/TransactionContext.tsx:38-41 | the stored record carries the given id and exactly the caller's date, description, amount, type and category |
| Totals.TotalIncome | context/TransactionContext.tsx:26-28 | total income, computed as filter then reduce, equals the single-pass sum of the amounts of exactly the income records (`Totals.KindTotal`) |
| Totals.TotalExpense | context/TransactionContext.tsx:30-32 | total expense, computed as filter then reduce, equals the single-pass sum of the amounts of exactly the expense records |
| Totals.Balance | context/TransactionContext.tsx:34 | the balance, total income less total expense, equals the signed sum of all amounts (`Totals.SignedTotal`) |
| Totals.OfKind | context/TransactionContext.tsx:26-32 | the filter keeps exactly the records of the given tag, each as often as it occurs, and nothing else |
| Totals.FilterReduceIsKindTotal | context/TransactionContext.tsx:26-32 | filter-then-reduce adds exactly the amounts of the records of that tag (equal to a single-pass reference sum) |
| Totals.KindTotalsSplitSigned | context/TransactionContext.tsx:34 | income sum minus expense sum equals the signed sum of all amounts |
| Totals.BalanceIsSignedTotal | context/TransactionContext.tsx:34 | the balance is the signed sum: income amounts count plus, expense amounts minus |
| Totals.TotalsOfEmpty | context/TransactionContext.tsx:23-34 | the initial empty ledger has total income, total expense and balance 0 |
| Totals.KindTotalConcat | context/TransactionContext.tsx:26-32 | a tag's total over two joined ledgers is the sum of the two totals |
| Totals.TotalsConcat | context/TransactionContext.tsx:26-34 | income, expense and balance are additive over joined ledgers |
| Totals.TotalsOfPrepend | context/TransactionContext.tsx:26-34 | a record put in front raises its own tag's total by its amount, leaves the other total unchanged, and moves the balance by its signed amount |
| Totals.KindTotalSign | context/TransactionContext.tsx:26-32 | with positive amounts a tag's total is never negative, and it is 0 exactly when no record has that tag |
| Totals.TotalsSign | context/TransactionContext.tsx:26-32 | the same for total income and total expense |
| Text.ParseDigitsAccepts | context/TransactionContext.tsx:54-55 | the digit parser accepts exactly the strings made only of digits |
| Text.DecimalDigits | context/TransactionContext.tsx:54-55 | a padded decimal holds only digits |
| Text.DecimalLength | context/TransactionContext.tsx:54 | a number below 10^w, padded to width w, has exactly w digits |
| Text.ParseDecimal | context/TransactionContext.tsx:54-55 | reading back a padded decimal gives the number |
| Format.FormatDate | context/TransactionContext.tsx:54 | writes a date as zero-padded `yyyy-MM-dd`; it has no contract of its own, and its properties are stated by `Format.DateTextPlain` and `Format.DateRoundTrip` |
| Format.DateTextPlain | context/TransactionContext.tsx:54 | a formatted date holds no comma, quote or line break |
| Format.DateRoundTrip | context/TransactionContext.tsx:54 | a calendar date with a four-digit year formats to ten characters that read back as that date |
| Format.TrimZeros | context/TransactionContext.tsx:55 | the result is the input with exactly its trailing '0' characters removed: a prefix that does not end in '0', with only '0' characters after it |
| Format.AmountText | context/TransactionContext.tsx:55 | writes an amount as a decimal number with no trailing fractional zeros; it has no contract of its own, and its properties are stated by `Format.AmountTextPlain` and `Format.AmountRoundTrip` |
| Format.AmountTextPlain | context/TransactionContext.tsx:55 | an amount's text holds no comma, quote or line break |
| Format.ParseWhole | context/TransactionContext.tsx:55 | digits with no point read as that many whole units |
| Format.ParseWithFraction | context/TransactionContext.tsx:55 | whole digits, a point, then one or two digits read as the whole units plus the fraction |
| Format.TwoDigits | context/TransactionContext.tsx:55 | a value below 100 padded to two places is its tens digit and then its units digit |
| Format.FractionDigits | context/TransactionContext.tsx:55 | a nonzero fraction is written as a point and one or two digits that read back as the fraction |
| Format.FractionRoundTrip | context/TransactionContext.tsx:55 | whole digits followed by a fraction's text read back as the exact amount |
| Format.UnsignedRoundTrip | context/TransactionContext.tsx:55 | the text of a non-negative amount reads back as that amount |
| Format.ParseAmountUnsigned | context/TransactionContext.tsx:55 | the text of a non-negative amount carries no sign |
| Format.ParseAmountNegated | context/TransactionContext.tsx:55 | a minus sign before a magnitude's text reads back as the negated magnitude |
| Format.NegativeRoundTrip | context/TransactionContext.tsx:55 | the text of a negative amount reads back as that amount |
| Format.NonNegativeRoundTrip | context/TransactionContext.tsx:55 | the text of a non-negative amount reads back as that amount |
| Format.AmountRoundTrip | context/TransactionContext.tsx:55 | every amount reads back from its text |
| Csv.Header | context/TransactionContext.tsx:50 | the header line; `Csv.CsvOfEmpty` and `Csv.HeaderNewlines` state its text and that it is one terminated line |
| Csv.Row | context/TransactionContext.tsx:55 | one record's five fields, comma-separated, with the description in quotes; stated by `Csv.RowWithoutNewline` and, through `Csv.Line`, by `Csv.LineRoundTrip` |
| Csv.Line | context/TransactionContext.tsx:55 | one record's row and its line break; stated by `Csv.LineRoundTrip` and `Csv.LineNewlines` |
| Csv.CsvText | context/TransactionContext.tsx:50-56 | the whole export, as a recursive specification; `Csv.BodyLineAt`, `Csv.CsvRoundTrip`, `Csv.CsvLineCount` and `TransactionLedger.Ledger.ExportCsv` state it |
| Csv.Drafts | context/TransactionContext.tsx:53-55 | one entry per record, in ledger order, each the record's fields without its id |
| Csv.CsvOfEmpty | context/TransactionContext.tsx:50 | the export of an empty ledger is exactly `Date,Description,Amount,Type,Category` and a line break |
| Csv.BodyLineAt | context/TransactionContext.tsx:53-56 | in the text after the header, record k's line sits between the lines of the records before it and those after it |
| Csv.CsvSnoc | context/TransactionContext.tsx:53-56 | the export of the first i+1 records is the export of the first i records, then record i's line |
| Csv.CsvOfPrepend | context/TransactionContext.tsx:43-56 | a record put in front exports as the first line after the header, before the old lines |
| Csv.ParseHeadRoundTrip | context/TransactionContext.tsx:54-55 | a date, a comma and a quoted description read back as that date and description |
| Csv.LineRoundTrip | context/TransactionContext.tsx:55 | one record's line reads back as its date, description, amount, type and category, if no line break is in a text field and no comma is in the category |
| Csv.BodyFirst | context/TransactionContext.tsx:53-56 | the text after the header starts with the first record's row and a line break |
| Csv.ParseBodyStep | context/TransactionContext.tsx:53-56 | a parsed line followed by parsed lines reads as its record followed by theirs |
| Csv.BodyRoundTrip | context/TransactionContext.tsx:53-56 | the lines of a ledger read back as its records' fields, in order |
| Csv.CsvRoundTrip | context/TransactionContext.tsx:50-56 | the whole export reads back as every record's fields (id excluded), in ledger order |
| Csv.RowWithoutNewline | context/TransactionContext.tsx:55 | a row holds a line break only if the description or the category does |
| Csv.LineNewlines | context/TransactionContext.tsx:55 | a record's line holds one line break, plus those in its description and category |
| Csv.BodyLineCount | context/TransactionContext.tsx:53-56 | with no line break in any text field, the text after the header has exactly one line break per record |
| Csv.HeaderNewlines | context/TransactionContext.tsx:50 | the header is a single terminated line |
| Csv.CsvLineCount | context/TransactionContext.tsx:50-56 | with no line break in any text field, the export has exactly one line break per record plus one |
| Csv.UnescapedNewlineSplitsRecord | context/TransactionContext.tsx:55 | because nothing is escaped, a line break in the description gives a one-record export at least three line breaks, not two |
| TransactionLedger.Ledger.constructor | context/TransactionContext.tsx:23 | the ledger starts empty |
| TransactionLedger.Ledger.AddTransaction | context/TransactionContext.tsx:26-44 | the new record, carrying the given id and the caller's fields, goes in front; the ledger grows by one; every old record i moves unchanged to index i+1; income or expense rises by the amount according to the tag; the balance moves by the signed amount; the export gains the new line first |
| TransactionLedger.Ledger.ExportCsv | context/TransactionContext.tsx:50-56 | the loop that appends one line per record produces exactly the header, then every record's line in ledger order |
| Scenario.YearText | context/TransactionContext.tsx:54 | the year 2024 is written `2024` |
| Scenario.GroceriesDate | context/TransactionContext.tsx:54 | 2024-03-15 is written `2024-03-15` |
| Scenario.GroceriesAmount | context/TransactionContext.tsx:55 | 42.50 is written `42.5` |
| Scenario.GroceriesText | context/TransactionContext.tsx:54-55 | 2024-03-15 is written `2024-03-15`, and 42.50 is written `42.5` |
| Scenario.PaycheckDate | context/TransactionContext.tsx:54 | 2024-01-01 is written `2024-01-01` |
| Scenario.PaycheckAmount | context/TransactionContext.tsx:55 | 2000 is written `2000`, with no point |
| Scenario.PaycheckText | context/TransactionContext.tsx:54-55 | 2024-01-01 is written `2024-01-01`, and 2000 is written `2000` |
| Scenario.GroceriesLine | context/TransactionContext.tsx:54-55 | the grocery record exports as `2024-03-15,"Groceries",42.5,expense,Food` and a line break |
| Scenario.PaycheckLine | context/TransactionContext.tsx:54-55 | the paycheck record exports as `2024-01-01,"Paycheck",2000,income,Salary` and a line break |
| Scenario.SessionTotals | context/TransactionContext.tsx:26-34 | after the paycheck and the groceries: income 2000, expense 42.50, balance 1957.50 |
| Scenario.CsvOfTwo | context/TransactionContext.tsx:50-56 | the export of a two-record ledger is the header, then the first record's line, then the second's |
| Scenario.Session | context/TransactionContext.tsx:23-56 | adding the groceries and then the paycheck leaves the paycheck first; the totals are 2000, 42.50 and 1957.50; the export is the header, the paycheck line, then the grocery line |

## Left out

- Writing the export to a file and sharing it are left out, as are the alerts and error logging around them (context/TransactionContext.tsx:58-71). These are host I/O. `ExportCsv` returns the text the app would write.
- The React context, provider, state hook and `useTransactions` hook with its "outside provider" error are left out (context/TransactionContext.tsx:16-23, 74-98). The ledger is a plain object updated one call at a time.
- `AddTransaction` takes its id from the caller. The app reads it from the clock (`Date.now()`), which is not modelled. Nothing is claimed about ids being unique, and the app does not guarantee it either.
- The `date-fns` formatter is not part of this model. `Format.FormatDate` writes the same zero-padded `yyyy-MM-dd` for the years 1 to 9999 of the common era. Years before 1 are not modelled: `Records.IsCalendarDate` starts at year 1, and for year 0 `Format.FormatDate` writes `0000`, while the library writes era years. Time of day and time zone are not modelled, because a date is only the triple.
- Floating-point amounts are left out. Amounts are exact hundredths, so the model does not capture:
  - rounding in the sums;
  - summation order;
  - amounts with more than two decimals;
  - exponent notation for very large or very small numbers.
- These parsers have no counterpart in the app: Records.ParseKind, Text.ParseDigits, Format.ParseDate, Format.ParseFraction, Format.ParseParts, Format.ParseUnsigned, Format.ParseAmount, Csv.ParseHead, Csv.ParseLine, Csv.ParseBody and Csv.ParseCsv. They exist to state what the export's text determines.
- Csv.CsvRoundTrip: the round trip needs these conditions:
  - a calendar date with a year of at most 9999;
  - no line break in the description or the category;
  - no comma in the category.

  Outside them the export is still defined exactly by `Csv.CsvText`, but it does not read back unambiguously. The app escapes neither quotes nor line breaks, as `Csv.UnescapedNewlineSplitsRecord` shows.
- Validation of the caller's input is not modelled. The form screen, not the ledger, rejects an empty description and an amount that is not a positive number (app/(tabs)/home.tsx:34-44). `Totals.KindTotalSign` and `Totals.TotalsSign` take positive amounts as a precondition instead.
- UI constants, the category list, routing and screens are left out (constants/AppConstants.ts:1-56 and the app/ directory). The ledger never checks a category, so a category is any string.
