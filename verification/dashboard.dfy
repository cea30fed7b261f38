/**
 * The dashboard's read-only queries: a user's overall balance, a group's
 * totals, the user's most recent expenses and how many expenses the user can
 * see. Each is a function of the stored sequences; nothing is changed.
 */
module Dashboard {
  import opened Wrappers
  import opened ExpenseSchema
  import opened Records
  import opened Sums
  import opened Sorting
  import opened ExpenseController

  /** `Math.max(0, x)`. */
  function Max0(x: real): (r: real)
    ensures r >= 0.0 && r >= x
    ensures r == x || r == 0.0
  {
    if x > 0.0 then x else 0.0
  }

  /** The three totals the balance formulas read, each 0 when nothing matches. */
  datatype Totals = Totals(paidByMe: real, myShare: real, paidToMe: real)

  /**
   * Across every group: what the user paid in split entries plus what the user
   * paid in payments, what the user owes in split entries, and what the user
   * received in payments.
   */
  function UserTotals(expenses: seq<Expense>, payments: seq<Payment>, user: Email): Totals {
    Totals(ExpenseSum(expenses, PaidByUser(user)) + PaymentSum(payments, SentBy(user)),
           ExpenseSum(expenses, OwedByUser(user)),
           PaymentSum(payments, ReceivedBy(user)))
  }

  /** The user's signed net position: positive when others owe the user. */
  function Net(t: Totals): real {
    t.paidByMe - t.myShare - t.paidToMe
  }

  datatype Balance = Balance(owedToMe: real, iOwe: real)

  /**
   * `getOverallBalance`: both figures are clamped at 0, at most one of them is
   * non-zero, and their difference is the user's net position.
   */
  function OverallBalance(expenses: seq<Expense>, payments: seq<Payment>, user: Email): (b: Balance)
    ensures b.owedToMe >= 0.0 && b.iOwe >= 0.0
    ensures b.owedToMe == 0.0 || b.iOwe == 0.0
    ensures b.owedToMe - b.iOwe == Net(UserTotals(expenses, payments, user))
    ensures b.owedToMe > 0.0 <==> Net(UserTotals(expenses, payments, user)) > 0.0
    ensures b.iOwe > 0.0 <==> Net(UserTotals(expenses, payments, user)) < 0.0
  {
    var t := UserTotals(expenses, payments, user);
    Balance(Max0(t.paidByMe - t.myShare - t.paidToMe), Max0(t.myShare - t.paidByMe + t.paidToMe))
  }

  /** Reordering the stored expenses and payments does not change anyone's balance. */
  lemma BalanceOrderIndependent(e1: seq<Expense>, e2: seq<Expense>, p1: seq<Payment>, p2: seq<Payment>, user: Email)
    requires multiset(e1) == multiset(e2) && multiset(p1) == multiset(p2)
    ensures OverallBalance(e1, p1, user) == OverallBalance(e2, p2, user)
  {
    ExpenseSumPermutation(e1, e2, PaidByUser(user));
    ExpenseSumPermutation(e1, e2, OwedByUser(user));
    PaymentSumPermutation(p1, p2, SentBy(user));
    PaymentSumPermutation(p1, p2, ReceivedBy(user));
  }

  /** The user has no split entry and is party to no payment. */
  predicate Uninvolved(expenses: seq<Expense>, payments: seq<Payment>, user: Email) {
    && (forall i, j :: 0 <= i < |expenses| && 0 <= j < |expenses[i].splits| ==> expenses[i].splits[j].user != user)
    && (forall k :: 0 <= k < |payments| ==> payments[k].from != user && payments[k].to != user)
  }

  lemma {:induction false} AbsentFromSplits(splits: seq<Split>, user: Email)
    requires forall j :: 0 <= j < |splits| ==> splits[j].user != user
    ensures PaidBy(splits, user) == 0.0 && OwedBy(splits, user) == 0.0
  {
    if splits != [] {
      AbsentFromSplits(splits[1..], user);
    }
  }

  lemma {:induction false} AbsentFromExpenses(expenses: seq<Expense>, user: Email)
    requires forall i, j :: 0 <= i < |expenses| && 0 <= j < |expenses[i].splits| ==> expenses[i].splits[j].user != user
    ensures ExpenseSum(expenses, PaidByUser(user)) == 0.0 && ExpenseSum(expenses, OwedByUser(user)) == 0.0
  {
    if expenses != [] {
      AbsentFromSplits(expenses[0].splits, user);
      AbsentFromExpenses(expenses[1..], user);
    }
  }

  lemma {:induction false} AbsentFromPayments(payments: seq<Payment>, user: Email)
    requires forall k :: 0 <= k < |payments| ==> payments[k].from != user && payments[k].to != user
    ensures PaymentSum(payments, SentBy(user)) == 0.0 && PaymentSum(payments, ReceivedBy(user)) == 0.0
  {
    if payments != [] {
      AbsentFromPayments(payments[1..], user);
    }
  }

  /** A user with no matching splits or payments has a zero balance, not an error. */
  lemma NoActivityNoBalance(expenses: seq<Expense>, payments: seq<Payment>, user: Email)
    requires Uninvolved(expenses, payments, user)
    ensures OverallBalance(expenses, payments, user) == Balance(0.0, 0.0)
  {
    AbsentFromExpenses(expenses, user);
    AbsentFromPayments(payments, user);
  }

  // ---- group summary ----

  datatype Summary = Summary(totalExpenses: real, settledAmount: real)

  /** Σ amount, with no filter. */
  function TotalAmount(es: seq<Expense>): real {
    if es == [] then 0.0 else es[0].amount + TotalAmount(es[1..])
  }

  /** The payments recorded against a group, in store order. */
  function PaymentsOf(payments: seq<Payment>, id: GroupId): (r: seq<Payment>)
    ensures forall p :: p in r <==> p in payments && p.groupId == id
    ensures r == [] <==> forall p :: p in payments ==> p.groupId != id
    ensures forall p :: multiset(r)[p] == if p.groupId == id then multiset(payments)[p] else 0
  {
    if payments == [] then []
    else
      assert payments == [payments[0]] + payments[1..];
      var rest := PaymentsOf(payments[1..], id);
      if payments[0].groupId == id then [payments[0]] + rest else rest
  }

  function TotalSettled(ps: seq<Payment>): real {
    if ps == [] then 0.0 else ps[0].amount + TotalSettled(ps[1..])
  }

  /**
   * `getGroupSummary`: a malformed id throws; otherwise the sum of the group's
   * expense amounts and the sum of its payment amounts, each 0 when there are none.
   */
  function GroupSummary(expenses: seq<Expense>, payments: seq<Payment>, id: Option<GroupId>): (r: Result<Summary, Failure>)
    ensures r.Err? <==> id.None?
    ensures r.Err? ==> r.error == Thrown && Status(r.error) == 500
    ensures r.Ok? ==> r.value.totalExpenses == TotalAmount(OfGroup(expenses, id.value))
    ensures r.Ok? ==> r.value.settledAmount == TotalSettled(PaymentsOf(payments, id.value))
  {
    match id
    case None => Err(Thrown)
    case Some(g) =>
      GroupTotalIsItsAmounts(expenses, g);
      SettledIsItsAmounts(payments, g);
      Ok(Summary(ExpenseSum(expenses, AmountInGroup(g)), PaymentSum(payments, SettledInGroup(g))))
  }

  lemma {:induction false} GroupTotalIsItsAmounts(expenses: seq<Expense>, id: GroupId)
    ensures ExpenseSum(expenses, AmountInGroup(id)) == TotalAmount(OfGroup(expenses, id))
  {
    if expenses != [] {
      GroupTotalIsItsAmounts(expenses[1..], id);
    }
  }

  lemma {:induction false} SettledIsItsAmounts(payments: seq<Payment>, id: GroupId)
    ensures PaymentSum(payments, SettledInGroup(id)) == TotalSettled(PaymentsOf(payments, id))
  {
    if payments != [] {
      SettledIsItsAmounts(payments[1..], id);
    }
  }

  /** A group with no expenses and no payments has a zero summary. */
  lemma EmptyGroupSummary(expenses: seq<Expense>, payments: seq<Payment>, id: GroupId)
    requires forall e :: e in expenses ==> e.groupId != id
    requires forall p :: p in payments ==> p.groupId != id
    ensures GroupSummary(expenses, payments, Some(id)) == Ok(Summary(0.0, 0.0))
  {
  }

  /** The settled amount is not capped by the expense total: an overpayment shows as more. */
  lemma OverpaymentNotCapped(e: Expense, p: Payment)
    requires e.groupId == 0 && e.amount == 10.0
    requires p.groupId == 0 && p.amount == 25.0
    ensures GroupSummary([e], [p], Some(0)) == Ok(Summary(10.0, 25.0))
  {
    assert [e][1..] == [] && [p][1..] == [];
    assert OfGroup([e], 0) == [e];
    assert PaymentsOf([p], 0) == [p];
    assert TotalAmount([e]) == 10.0;
    assert TotalSettled([p]) == 25.0;
    var r := GroupSummary([e], [p], Some(0));
    assert r.Ok?;
    assert r.value.totalExpenses == 10.0;
    assert r.value.settledAmount == 25.0;
  }

  // ---- recent expenses and the expense count ----

  /** `Group.find({ members: email })` mapped to ids: the groups the user belongs to. */
  function UserGroupIds(groups: seq<Group>, email: Email): (ids: set<GroupId>)
    ensures forall id :: id in ids <==> exists g :: g in groups && g.id == id && email in g.members
  {
    set g | g in groups && email in g.members :: g.id
  }

  /** `Expense.find({ group_id: { $in: ids } })`, in store order. */
  function InGroups(expenses: seq<Expense>, ids: set<GroupId>): (r: seq<Expense>)
    ensures forall e :: e in r <==> e in expenses && e.groupId in ids
    ensures forall e :: multiset(r)[e] == if e.groupId in ids then multiset(expenses)[e] else 0
    ensures |r| <= |expenses|
  {
    if expenses == [] then []
    else
      assert expenses == [expenses[0]] + expenses[1..];
      var rest := InGroups(expenses[1..], ids);
      if expenses[0].groupId in ids then [expenses[0]] + rest else rest
  }

  /** `sort({ date: -1, createdAt: -1 })`: later dates first, then later creation. */
  predicate Newer(a: Expense, b: Expense) {
    a.date > b.date || (a.date == b.date && a.createdAt >= b.createdAt)
  }

  /**
   * `getTotalExpensesCount`: how many expenses the user's groups hold, each
   * stored copy counted (`InGroups` keeps every copy of a visible expense and
   * nothing else).
   */
  function TotalExpensesCount(groups: seq<Group>, expenses: seq<Expense>, email: Email): (count: nat)
    ensures count == |multiset(InGroups(expenses, UserGroupIds(groups, email)))|
    ensures count <= |expenses|
    ensures count == 0 <==> forall e :: e in expenses ==> e.groupId !in UserGroupIds(groups, email)
  {
    var visible := InGroups(expenses, UserGroupIds(groups, email));
    assert visible != [] ==> visible[0] in visible;
    |visible|
  }

  const RecentLimit := 5

  /**
   * The first k expenses once sorted newest first: k of the given ones, still
   * newest first, and none of those left out is newer than one taken.
   */
  lemma NewestFirst(visible: seq<Expense>, k: nat)
    requires k <= |visible|
    ensures |SortBy(visible, Newer)[..k]| == k
    ensures forall e :: e in SortBy(visible, Newer)[..k] ==> e in visible
    ensures multiset(SortBy(visible, Newer)[..k]) <= multiset(visible)
    ensures SortedBy(SortBy(visible, Newer)[..k], Newer)
    ensures forall x, y :: x in SortBy(visible, Newer)[..k] && y in visible
                           && multiset(SortBy(visible, Newer)[..k])[y] < multiset(visible)[y]
                           ==> Newer(x, y)
  {
    var sorted := SortBy(visible, Newer);
    assert TotalPreorder(Newer);
    SortBySorted(visible, Newer);
    TakeBest(sorted, k, Newer);
    assert forall y :: y in visible <==> y in sorted by {
      assert forall y :: y in visible <==> y in multiset(visible);
      assert forall y :: y in sorted <==> y in multiset(sorted);
    }
    forall e | e in sorted[..k] ensures e in visible {
      assert e in multiset(sorted[..k]);
    }
  }


  /**
   * `getRecentExpenses`: up to five expenses from the user's groups, newest
   * first, and no expense of those groups left out is newer than one listed.
   */
  function RecentExpenses(groups: seq<Group>, expenses: seq<Expense>, email: Email): (r: seq<Expense>)
    ensures |r| <= RecentLimit
    ensures |r| == if TotalExpensesCount(groups, expenses, email) < RecentLimit
                   then TotalExpensesCount(groups, expenses, email) else RecentLimit
    ensures forall e :: e in r ==> e in expenses && e.groupId in UserGroupIds(groups, email)
    ensures multiset(r) <= multiset(InGroups(expenses, UserGroupIds(groups, email)))
    ensures SortedBy(r, Newer)
    ensures forall x, y :: x in r && y in InGroups(expenses, UserGroupIds(groups, email))
                           && multiset(r)[y] < multiset(InGroups(expenses, UserGroupIds(groups, email)))[y]
                           ==> Newer(x, y)
  {
    var visible := InGroups(expenses, UserGroupIds(groups, email));
    var k := if |visible| < RecentLimit then |visible| else RecentLimit;
    NewestFirst(visible, k);
    SortBy(visible, Newer)[..k]
  }
}
