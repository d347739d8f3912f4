/**
 * The transaction record of the ledger: the fields a caller supplies
 * (`Draft`, the record without its id) and the stored record
 * (`Transaction`, the same fields plus an id).
 */
module Records {
  import opened Wrappers

  /** The closed two-variant tag carried in a record's `type` field. */
  datatype Kind = Income | Expense

  /** The literal text of a tag, as it appears in exported data. */
  function KindName(k: Kind): (s: string)
    ensures ParseKind(s) == Some(k)
  {
    match k
    case Income => "income"
    case Expense => "expense"
  }

  function ParseKind(s: string): Option<Kind> {
    if s == "income" then Some(Income)
    else if s == "expense" then Some(Expense)
    else None
  }

  /** A calendar date as a (year, month, day) triple. */
  datatype Date = Date(year: nat, month: nat, day: nat)

  function DaysInMonth(year: nat, month: nat): nat
    requires 1 <= month <= 12
  {
    if month == 2 then
      (if (year % 4 == 0 && year % 100 != 0) || year % 400 == 0 then 29 else 28)
    else if month == 4 || month == 6 || month == 9 || month == 11 then 30
    else 31
  }

  /**
   * The triple names a day of the proleptic Gregorian calendar in the
   * common era (year 1 onwards).
   */
  predicate IsCalendarDate(d: Date) {
    1 <= d.year && 1 <= d.month <= 12 && 1 <= d.day <= DaysInMonth(d.year, d.month)
  }

  /**
   * The fields a caller passes when adding a transaction. `amount` counts
   * hundredths of the currency unit; `kind` is the record's `type`.
   */
  datatype Draft = Draft(date: Date, description: string, amount: int, kind: Kind, category: string)

  /** A stored ledger record. */
  datatype Transaction = Transaction(id: string, date: Date, description: string, amount: int, kind: Kind, category: string)

  /** The record built from a caller's fields and an id. */
  function WithId(d: Draft, id: string): (t: Transaction)
    ensures t.id == id && DraftOf(t) == d
  {
    Transaction(id, d.date, d.description, d.amount, d.kind, d.category)
  }

  /** A record with its id dropped. */
  function DraftOf(t: Transaction): Draft {
    Draft(t.date, t.description, t.amount, t.kind, t.category)
  }
}
