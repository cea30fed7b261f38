/** The settlement progress bar on a group's card. */
module GroupCard {
  import opened Wrappers
  import opened ExpenseSchema
  import opened Records
  import opened ExpenseController
  import opened Dashboard
  import opened Reals

  /**
   * `settlementProgress`: settled as a percentage of the group's spending, 0
   * when there is no positive spending. It is not clamped.
   */
  function Progress(s: Summary): (p: real)
    ensures s.totalExpenses <= 0.0 ==> p == 0.0
    ensures s.totalExpenses > 0.0 ==> p * s.totalExpenses == s.settledAmount * 100.0
    ensures s.totalExpenses >= 0.0 && s.settledAmount >= 0.0 ==> p >= 0.0
  {
    if s.totalExpenses > 0.0 then (s.settledAmount / s.totalExpenses) * 100.0 else 0.0
  }

  /** A percentage p of a positive total reaches 100 exactly when the part reaches the total. */
  lemma PercentReaches(p: real, part: real, total: real)
    requires total > 0.0 && p * total == part * 100.0
    ensures p >= 100.0 <==> part >= total
    ensures p > 100.0 <==> part > total
  {
    assert (p - 100.0) * total == (part - total) * 100.0;
    PositiveFactorSign(p - 100.0, total);
  }

  /** With positive spending, the bar is full exactly when at least the whole spending is settled. */
  lemma FullExactlyWhenSettled(s: Summary)
    requires s.totalExpenses > 0.0
    ensures Progress(s) >= 100.0 <==> s.settledAmount >= s.totalExpenses
    ensures Progress(s) > 100.0 <==> s.settledAmount > s.totalExpenses
  {
    PercentReaches(Progress(s), s.settledAmount, s.totalExpenses);
  }

  /** Overpaying shows above 100%: 150 settled of 100 spent reads as 150. */
  lemma ProgressNotClamped()
    ensures Progress(Summary(100.0, 150.0)) == 150.0
  {
  }

  /**
   * On a group's card, fed the summary the server computes: no progress without
   * positive spending, and a full bar exactly when the group's payments reach
   * its spending.
   */
  lemma CardProgress(expenses: seq<Expense>, payments: seq<Payment>, id: GroupId)
    ensures GroupSummary(expenses, payments, Some(id)).Ok?
    ensures var s := GroupSummary(expenses, payments, Some(id)).value;
            var spent := TotalAmount(OfGroup(expenses, id));
            var settled := TotalSettled(PaymentsOf(payments, id));
            && (spent <= 0.0 ==> Progress(s) == 0.0)
            && (spent > 0.0 ==> (Progress(s) >= 100.0 <==> settled >= spent))
  {
    var s := GroupSummary(expenses, payments, Some(id)).value;
    if s.totalExpenses > 0.0 {
      FullExactlyWhenSettled(s);
    }
  }
}
