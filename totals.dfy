/**
 * The derived totals of the ledger. As in the source they are computed
 * from the record sequence alone: filter by tag, then add the amounts.
 * Two reference definitions -- a single-pass sum per tag and a signed sum
 * for the balance -- are proved equal to them.
 */
module Totals {
  import opened Records

  /** The records of tag `k` (the `filter` step). */
  function OfKind(ts: seq<Transaction>, k: Kind): (r: seq<Transaction>)
    ensures |r| <= |ts|
    ensures forall t :: multiset(r)[t] == if t.kind == k then multiset(ts)[t] else 0
  {
    if ts == [] then []
    else
      assert ts == [ts[0]] + ts[1..];
      if ts[0].kind == k then [ts[0]] + OfKind(ts[1..], k) else OfKind(ts[1..], k)
  }

  /** The sum of the amounts (the `reduce` step, starting from 0). */
  function SumAmounts(ts: seq<Transaction>): int {
    if ts == [] then 0 else ts[0].amount + SumAmounts(ts[1..])
  }

  /** Total income: the amounts of the income records, added up. */
  function TotalIncome(ts: seq<Transaction>): (r: int)
    ensures r == KindTotal(ts, Income)
  {
    FilterReduceIsKindTotal(ts, Income);
    SumAmounts(OfKind(ts, Income))
  }

  /** Total expense: the amounts of the expense records, added up. */
  function TotalExpense(ts: seq<Transaction>): (r: int)
    ensures r == KindTotal(ts, Expense)
  {
    FilterReduceIsKindTotal(ts, Expense);
    SumAmounts(OfKind(ts, Expense))
  }

  /** The balance: total income less total expense. */
  function Balance(ts: seq<Transaction>): (r: int)
    ensures r == SignedTotal(ts)
  {
    KindTotalsSplitSigned(ts);
    TotalIncome(ts) - TotalExpense(ts)
  }

  /** What one record adds to the total of tag `k`. */
  function Share(t: Transaction, k: Kind): int {
    if t.kind == k then t.amount else 0
  }

  /** Reference definition: one pass adding the amounts of tag `k`. */
  function KindTotal(ts: seq<Transaction>, k: Kind): int {
    if ts == [] then 0 else Share(ts[0], k) + KindTotal(ts[1..], k)
  }

  /** The effect of one record on the balance: plus its amount for income, minus for expense. */
  function Signed(t: Transaction): int {
    match t.kind
    case Income => t.amount
    case Expense => -t.amount
  }

  /** Reference definition of the balance: the signed amounts added up. */
  function SignedTotal(ts: seq<Transaction>): int {
    if ts == [] then 0 else Signed(ts[0]) + SignedTotal(ts[1..])
  }

  /** Filter-then-reduce adds exactly the amounts of the records of tag `k`. */
  lemma {:induction false} FilterReduceIsKindTotal(ts: seq<Transaction>, k: Kind)
    ensures SumAmounts(OfKind(ts, k)) == KindTotal(ts, k)
  {
    if ts != [] {
      FilterReduceIsKindTotal(ts[1..], k);
    }
  }

  /** The balance is the signed sum of all amounts. */
  lemma {:induction false} BalanceIsSignedTotal(ts: seq<Transaction>)
    ensures Balance(ts) == SignedTotal(ts)
  {
    FilterReduceIsKindTotal(ts, Income);
    FilterReduceIsKindTotal(ts, Expense);
    KindTotalsSplitSigned(ts);
  }

  lemma {:induction false} KindTotalsSplitSigned(ts: seq<Transaction>)
    ensures KindTotal(ts, Income) - KindTotal(ts, Expense) == SignedTotal(ts)
  {
    if ts != [] {
      KindTotalsSplitSigned(ts[1..]);
    }
  }

  /** An empty ledger has zero totals. */
  lemma TotalsOfEmpty()
    ensures TotalIncome([]) == 0 && TotalExpense([]) == 0 && Balance([]) == 0
  {
  }

  /** Totals over a concatenation add up. */
  lemma {:induction false} KindTotalConcat(a: seq<Transaction>, b: seq<Transaction>, k: Kind)
    ensures KindTotal(a + b, k) == KindTotal(a, k) + KindTotal(b, k)
  {
    if a == [] {
      assert a + b == b;
    } else {
      assert (a + b)[1..] == a[1..] + b;
      KindTotalConcat(a[1..], b, k);
    }
  }

  lemma TotalsConcat(a: seq<Transaction>, b: seq<Transaction>)
    ensures TotalIncome(a + b) == TotalIncome(a) + TotalIncome(b)
    ensures TotalExpense(a + b) == TotalExpense(a) + TotalExpense(b)
    ensures Balance(a + b) == Balance(a) + Balance(b)
  {
    FilterReduceIsKindTotal(a + b, Income);
    FilterReduceIsKindTotal(a, Income);
    FilterReduceIsKindTotal(b, Income);
    FilterReduceIsKindTotal(a + b, Expense);
    FilterReduceIsKindTotal(a, Expense);
    FilterReduceIsKindTotal(b, Expense);
    KindTotalConcat(a, b, Income);
    KindTotalConcat(a, b, Expense);
  }

  /**
   * Putting a record in front raises the total of its own tag by its
   * amount, leaves the other total alone, and moves the balance by its
   * signed amount.
   */
  lemma TotalsOfPrepend(t: Transaction, ts: seq<Transaction>)
    ensures TotalIncome([t] + ts) == TotalIncome(ts) + Share(t, Income)
    ensures TotalExpense([t] + ts) == TotalExpense(ts) + Share(t, Expense)
    ensures Balance([t] + ts) == Balance(ts) + Signed(t)
  {
    TotalsConcat([t], ts);
    assert [t][1..] == [];
  }

  /**
   * With positive amounts (which the callers of the ledger enforce), a
   * total is never negative, and it is zero exactly when the ledger holds
   * no record of that tag.
   */
  lemma {:induction false} KindTotalSign(ts: seq<Transaction>, k: Kind)
    requires forall i :: 0 <= i < |ts| ==> ts[i].amount > 0
    ensures KindTotal(ts, k) >= 0
    ensures KindTotal(ts, k) == 0 <==> forall i :: 0 <= i < |ts| ==> ts[i].kind != k
  {
    if ts != [] {
      KindTotalSign(ts[1..], k);
      assert forall i :: 1 <= i < |ts| ==> ts[i] == ts[1..][i - 1];
    }
  }

  lemma TotalsSign(ts: seq<Transaction>)
    requires forall i :: 0 <= i < |ts| ==> ts[i].amount > 0
    ensures TotalIncome(ts) >= 0 && TotalExpense(ts) >= 0
    ensures TotalIncome(ts) == 0 <==> forall i :: 0 <= i < |ts| ==> ts[i].kind != Income
    ensures TotalExpense(ts) == 0 <==> forall i :: 0 <= i < |ts| ==> ts[i].kind != Expense
  {
    FilterReduceIsKindTotal(ts, Income);
    FilterReduceIsKindTotal(ts, Expense);
    KindTotalSign(ts, Income);
    KindTotalSign(ts, Expense);
  }
}
