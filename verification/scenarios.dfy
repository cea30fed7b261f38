/**
 * Worked examples of the ledger end to end: an expense is accepted, stored
 * and shows up in both members' balances, and a payment then settles it.
 */
module Scenarios {
  import opened Wrappers
  import opened ExpenseSchema
  import opened Records
  import opened Sums
  import opened ExpenseController
  import opened PaymentController
  import opened LedgerStore
  import opened Dashboard

  /** A pays 100 for a dinner the two of them share equally. */
  function Dinner(a: Email, b: Email): seq<Split> {
    [Split(a, 100.0, 50.0), Split(b, 0.0, 50.0)]
  }

  function DinnerRequest(a: Email, b: Email, date: int): ExpenseRequest {
    ExpenseRequest("Dinner", 100.0, "Other", Some(date), Some(SentAll(Dinner(a, b))))
  }

  lemma SingleSum(e: Expense, m: ExpenseMeasure)
    ensures ExpenseSum([e], m) == ExpenseValue(m, e)
  {
    assert [e][1..] == [];
  }

  /** The sums over a two-entry split list, entry by entry. */
  lemma TwoSplitSums(x: Split, y: Split, user: Email)
    ensures SumPaid([x, y]) == x.paid + y.paid && SumOwes([x, y]) == x.owes + y.owes
    ensures PaidBy([x, y], user) == (if x.user == user then x.paid else 0.0) + (if y.user == user then y.paid else 0.0)
    ensures OwedBy([x, y], user) == (if x.user == user then x.owes else 0.0) + (if y.user == user then y.owes else 0.0)
  {
    var s := [x, y];
    assert s[1..] == [y] && [y][1..] == [];
    assert SumPaid([y]) == y.paid && SumOwes([y]) == y.owes;
    assert PaidBy([y], user) == (if y.user == user then y.paid else 0.0);
    assert OwedBy([y], user) == (if y.user == user then y.owes else 0.0);
  }

  /**
   * The dinner is accepted and stored as submitted; afterwards B owes 50 and
   * A is owed 50.
   */
  lemma DinnerAccepted(group: Group, a: Email, b: Email, date: int, now: int)
    requires a != b && a != "" && b != ""
    requires group.members == [a, b]
    ensures CheckExpense(DinnerRequest(a, b, date), Some(group), a).Ok?
    ensures ExpenseRecord(DinnerRequest(a, b, date), group.id, now).Some?
    ensures var e := ExpenseRecord(DinnerRequest(a, b, date), group.id, now).value;
            && OverallBalance([e], [], b) == Balance(0.0, 50.0)
            && OverallBalance([e], [], a) == Balance(50.0, 0.0)
  {
    var splits := Dinner(a, b);
    TwoSplitSums(splits[0], splits[1], a);
    TwoSplitSums(splits[0], splits[1], b);
    assert SplitsWellFormed(splits);
    NewSplitsSent(splits);
    SentSumCheck(splits, 100.0);
    assert Pays(SentAll(splits)[0]);
    var e := ExpenseRecord(DinnerRequest(a, b, date), group.id, now).value;
    assert e.splits == splits == [splits[0], splits[1]];
    assert PaidBy(splits, a) == 100.0 && OwedBy(splits, a) == 50.0;
    assert PaidBy(splits, b) == 0.0 && OwedBy(splits, b) == 50.0;
    SingleSum(e, PaidByUser(a));
    SingleSum(e, OwedByUser(a));
    SingleSum(e, PaidByUser(b));
    SingleSum(e, OwedByUser(b));
  }

  /** Then B pays A 50: both balances are zero. */
  lemma DinnerSettled(group: Group, a: Email, b: Email, date: int, now: int, later: int)
    requires a != b && a != "" && b != ""
    requires group.members == [a, b]
    ensures CheckPayment(PaymentRequest(b, a, 50.0), Some(group), b).Ok?
    ensures ExpenseRecord(DinnerRequest(a, b, date), group.id, now).Some?
    ensures var e := ExpenseRecord(DinnerRequest(a, b, date), group.id, now).value;
            var p := PaymentRecord(PaymentRequest(b, a, 50.0), group.id, later);
            && OverallBalance([e], [p], b) == Balance(0.0, 0.0)
            && OverallBalance([e], [p], a) == Balance(0.0, 0.0)
  {
    DinnerAccepted(group, a, b, date, now);
    var p := PaymentRecord(PaymentRequest(b, a, 50.0), group.id, later);
    assert [p][1..] == [];
  }

  /** Splits owing 140 against an amount of 100 are refused with a sum mismatch. */
  lemma OverOwedRejected(group: Group, a: Email, b: Email, date: int)
    requires a != b && a in group.members
    ensures var splits := [Split(a, 100.0, 40.0), Split(b, 0.0, 70.0)];
            CheckExpense(ExpenseRequest("Dinner", 100.0, "Other", Some(date), Some(SentAll(splits))), Some(group), a)
            == Err(SplitSumMismatch)
  {
    var splits := [Split(a, 100.0, 40.0), Split(b, 0.0, 70.0)];
    TwoSplitSums(splits[0], splits[1], a);
    SentSumCheck(splits, 100.0);
  }
}
