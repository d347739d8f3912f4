/**
 * The ledger object: the record sequence, newest first, updated in place
 * by `AddTransaction`, with the export built by appending one line per
 * record to an accumulator.
 */
module TransactionLedger {
  import opened Records
  import opened Format
  import opened Totals
  import opened Csv

  class Ledger {
    /** The records, newest first. */
    var transactions: seq<Transaction>

    /** A ledger starts empty. */
    constructor ()
      ensures transactions == []
    {
      transactions := [];
    }

    /**
     * Records the caller's fields under `id` in front of every existing
     * record. Nothing is validated and no existing record changes.
     */
    method AddTransaction(d: Draft, id: string)
      modifies this
      ensures transactions == [WithId(d, id)] + old(transactions)
      ensures |transactions| == |old(transactions)| + 1
      ensures transactions[0].id == id && DraftOf(transactions[0]) == d
      ensures forall i :: 0 <= i < |old(transactions)| ==> transactions[i + 1] == old(transactions)[i]
      ensures TotalIncome(transactions) == old(TotalIncome(transactions)) + (if d.kind == Income then d.amount else 0)
      ensures TotalExpense(transactions) == old(TotalExpense(transactions)) + (if d.kind == Expense then d.amount else 0)
      ensures Balance(transactions) == old(Balance(transactions)) + (if d.kind == Income then d.amount else -d.amount)
      ensures CsvText(transactions) == Header + (Line(transactions[0]) + Body(old(transactions)))
    {
      var t := WithId(d, id);
      TotalsOfPrepend(t, transactions);
      CsvOfPrepend(t, transactions);
      transactions := [t] + transactions;
    }

    /** The CSV text of the ledger: the header, then one line per record in ledger order. */
    method ExportCsv() returns (csv: string)
      ensures csv == CsvText(transactions)
    {
      csv := Header;
      assert transactions[..0] == [];
      for i := 0 to |transactions|
        invariant csv == CsvText(transactions[..i])
      {
        var t := transactions[i];
        var formattedDate := FormatDate(t.date);
        var line := formattedDate + "," + Quoted(t.description) + "," + AmountText(t.amount) + ","
                    + KindName(t.kind) + "," + t.category + "\n";
        assert line == Line(t);
        CsvSnoc(transactions, i);
        csv := csv + line;
      }
      assert transactions[..|transactions|] == transactions;
    }
  }
}
