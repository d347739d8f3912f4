/**
 * A worked session with the ledger: a grocery expense of 42.50 is added,
 * then a paycheck of 2000. The paycheck comes first in the ledger, the
 * totals are 2000 income, 42.50 expense and 1957.50 balance, and the
 * export is the header followed by the paycheck line and the grocery line.
 */
module Scenario {
  import opened Text
  import opened Records
  import opened Format
  import opened Totals
  import opened Csv
  import opened TransactionLedger

  const Groceries: Draft := Draft(Date(2024, 3, 15), "Groceries", 4250, Expense, "Food")
  const Paycheck: Draft := Draft(Date(2024, 1, 1), "Paycheck", 200000, Income, "Salary")

  /** A four-digit year is written as it is. */
  lemma YearText()
    ensures Decimal(2024, 4) == "2024"
  {
    assert Decimal(2, 1) == "2";
    assert Decimal(20, 2) == "20";
    assert Decimal(202, 3) == "202";
  }

  /** 42.50 loses its trailing zero, as the app's number printing does. */
  lemma GroceriesText()
    ensures FormatDate(Date(2024, 3, 15)) == "2024-03-15"
    ensures AmountText(4250) == "42.5"
  {
    GroceriesDate();
    GroceriesAmount();
  }

  /** The grocery date, padded to `yyyy-MM-dd`. */
  lemma GroceriesDate()
    ensures FormatDate(Date(2024, 3, 15)) == "2024-03-15"
  {
    YearText();
    assert Decimal(3, 2) == "03";
    assert Decimal(15, 2) == "15";
  }

  /** 4250 hundredths: whole units, a point, and the fraction without its trailing zero. */
  lemma GroceriesAmount()
    ensures AmountText(4250) == "42.5"
  {
    assert Decimal(42, 1) == "42";
    assert TrimZeros("50") == "5";
  }

  /** Month and day are padded; a whole amount has no point. */
  lemma PaycheckText()
    ensures FormatDate(Date(2024, 1, 1)) == "2024-01-01"
    ensures AmountText(200000) == "2000"
  {
    PaycheckDate();
    PaycheckAmount();
  }

  /** The paycheck date, with month and day padded. */
  lemma PaycheckDate()
    ensures FormatDate(Date(2024, 1, 1)) == "2024-01-01"
  {
    YearText();
    assert Decimal(1, 2) == "01";
  }

  /** 200000 hundredths: a whole amount, written without a point. */
  lemma PaycheckAmount()
    ensures AmountText(200000) == "2000"
  {
    assert Decimal(2, 1) == "2";
    assert Decimal(20, 1) == "20";
    assert Decimal(200, 1) == "200";
    assert Decimal(2000, 1) == "2000";
    assert FractionText(0) == "";
    assert UnsignedText(200000) == "2000" + "";
  }

  /** The export line of the grocery record, field by field, whatever its id. */
  lemma GroceriesLine(id: string)
    ensures Line(WithId(Groceries, id))
         == "2024-03-15" + "," + "\"Groceries\"" + "," + "42.5" + "," + "expense" + "," + "Food" + "\n"
  {
    GroceriesText();
    assert Quoted("Groceries") == "\"Groceries\"";
  }

  /** The export line of the paycheck record, field by field, whatever its id. */
  lemma PaycheckLine(id: string)
    ensures Line(WithId(Paycheck, id))
         == "2024-01-01" + "," + "\"Paycheck\"" + "," + "2000" + "," + "income" + "," + "Salary" + "\n"
  {
    PaycheckText();
    assert Quoted("Paycheck") == "\"Paycheck\"";
  }

  /** The ledger after both additions, newest first. */
  function SessionRecords(groceriesId: string, paycheckId: string): seq<Transaction> {
    [WithId(Paycheck, paycheckId), WithId(Groceries, groceriesId)]
  }

  /** Income counts the paycheck, expense the groceries. */
  lemma SessionTotals(groceriesId: string, paycheckId: string)
    ensures TotalIncome(SessionRecords(groceriesId, paycheckId)) == 200000
    ensures TotalExpense(SessionRecords(groceriesId, paycheckId)) == 4250
    ensures Balance(SessionRecords(groceriesId, paycheckId)) == 195750
  {
    var ts := SessionRecords(groceriesId, paycheckId);
    FilterReduceIsKindTotal(ts, Income);
    FilterReduceIsKindTotal(ts, Expense);
    assert ts[1..][1..] == [];
  }

  /** The export of a two-record ledger: the header, then the two lines in ledger order. */
  lemma CsvOfTwo(first: Transaction, second: Transaction)
    ensures CsvText([first, second]) == Header + Line(first) + Line(second)
  {
    assert [first, second] == [first] + [second];
    CsvOfPrepend(first, [second]);
    ConcatMapSingle(second, Line);
    AppendAssoc(Header, Line(first), Line(second));
  }

  /** Adds the grocery record, then the paycheck, and reads the totals and the export. */
  method Session(groceriesId: string, paycheckId: string)
    returns (records: seq<Transaction>, income: int, expense: int, balance: int, csv: string)
    ensures records == [WithId(Paycheck, paycheckId), WithId(Groceries, groceriesId)]
    ensures income == 200000 && expense == 4250 && balance == 195750
    ensures csv == Header + Line(records[0]) + Line(records[1])
  {
    var ledger := new Ledger();
    ledger.AddTransaction(Groceries, groceriesId);
    ledger.AddTransaction(Paycheck, paycheckId);
    records := ledger.transactions;
    assert records == SessionRecords(groceriesId, paycheckId);
    SessionTotals(groceriesId, paycheckId);
    CsvOfTwo(records[0], records[1]);
    income := TotalIncome(records);
    expense := TotalExpense(records);
    balance := Balance(records);
    csv := ledger.ExportCsv();
  }
}
