/**
 * The sums the ledger is built from. The document store computes them with
 * aggregation pipelines; here each is a recursive sum over an explicit
 * sequence of records, and each is shown not to depend on the order of the
 * records.
 */
module Sums {
  import opened ExpenseSchema
  import opened Records

  /** Σ paid over all split entries (`splits.reduce((sum, s) => sum + s.paid, 0)`). */
  function SumPaid(splits: seq<Split>): real {
    if splits == [] then 0.0 else splits[0].paid + SumPaid(splits[1..])
  }

  /** Σ owes over all split entries. */
  function SumOwes(splits: seq<Split>): real {
    if splits == [] then 0.0 else splits[0].owes + SumOwes(splits[1..])
  }

  /** Σ paid over the entries of one user. */
  function PaidBy(splits: seq<Split>, user: Email): real {
    if splits == [] then 0.0
    else (if splits[0].user == user then splits[0].paid else 0.0) + PaidBy(splits[1..], user)
  }

  /** Σ owes over the entries of one user. */
  function OwedBy(splits: seq<Split>, user: Email): real {
    if splits == [] then 0.0
    else (if splits[0].user == user then splits[0].owes else 0.0) + OwedBy(splits[1..], user)
  }

  lemma {:induction false} SumPaidAppend(a: seq<Split>, b: seq<Split>)
    ensures SumPaid(a + b) == SumPaid(a) + SumPaid(b)
  {
    if a != [] {
      assert (a + b)[1..] == a[1..] + b;
      SumPaidAppend(a[1..], b);
    } else {
      assert a + b == b;
    }
  }

  lemma {:induction false} SumOwesAppend(a: seq<Split>, b: seq<Split>)
    ensures SumOwes(a + b) == SumOwes(a) + SumOwes(b)
  {
    if a != [] {
      assert (a + b)[1..] == a[1..] + b;
      SumOwesAppend(a[1..], b);
    } else {
      assert a + b == b;
    }
  }

  /** Removing the element at k removes one occurrence of it. */
  lemma RemoveAt<T>(s: seq<T>, k: nat)
    requires k < |s|
    ensures multiset(s[..k] + s[k + 1..]) == multiset(s) - multiset{s[k]}
  {
    assert s == s[..k] + [s[k]] + s[k + 1..];
  }

  /** Two sequences with the same elements: the first element of one sits at some k in the other, and the rests match. */
  lemma MatchFirst<T>(a: seq<T>, b: seq<T>) returns (k: nat)
    requires a != [] && multiset(a) == multiset(b)
    ensures k < |b| && b[k] == a[0]
    ensures multiset(a[1..]) == multiset(b[..k] + b[k + 1..])
  {
    assert a[0] in multiset(b);
    k :| 0 <= k < |b| && b[k] == a[0];
    RemoveAt(b, k);
    RemoveAt(a, 0);
    assert a[..0] + a[1..] == a[1..];
  }

  /** What one expense contributes to a sum over expenses. */
  datatype ExpenseMeasure =
    | PaidByUser(user: Email)                       // Σ paid in the user's split entries
    | OwedByUser(user: Email)                       // Σ owes in the user's split entries
    | AmountInGroup(groupId: GroupId)               // the amount, for expenses of the group
    | AmountInCategory(groupId: GroupId, category: Category)  // the amount, for expenses of the group in the category

  function ExpenseValue(m: ExpenseMeasure, e: Expense): real {
    match m
    case PaidByUser(u) => PaidBy(e.splits, u)
    case OwedByUser(u) => OwedBy(e.splits, u)
    case AmountInGroup(g) => if e.groupId == g then e.amount else 0.0
    case AmountInCategory(g, c) => if e.groupId == g && e.category == c then e.amount else 0.0
  }

  function ExpenseSum(es: seq<Expense>, m: ExpenseMeasure): real {
    if es == [] then 0.0 else ExpenseValue(m, es[0]) + ExpenseSum(es[1..], m)
  }

  lemma {:induction false} ExpenseSumAppend(a: seq<Expense>, b: seq<Expense>, m: ExpenseMeasure)
    ensures ExpenseSum(a + b, m) == ExpenseSum(a, m) + ExpenseSum(b, m)
  {
    if a != [] {
      assert (a + b)[1..] == a[1..] + b;
      ExpenseSumAppend(a[1..], b, m);
    } else {
      assert a + b == b;
    }
  }

  /** Taking one record out of a sum takes out its value. */
  lemma ExpenseSumRemove(b: seq<Expense>, k: nat, m: ExpenseMeasure)
    requires k < |b|
    ensures ExpenseSum(b, m) == ExpenseValue(m, b[k]) + ExpenseSum(b[..k] + b[k + 1..], m)
  {
    assert b == b[..k] + ([b[k]] + b[k + 1..]);
    ExpenseSumAppend(b[..k], [b[k]] + b[k + 1..], m);
    ExpenseSumAppend(b[..k], b[k + 1..], m);
    assert ([b[k]] + b[k + 1..])[1..] == b[k + 1..];
  }

  /** A sum over expenses depends only on which records there are, not on their order. */
  lemma {:induction false} ExpenseSumPermutation(a: seq<Expense>, b: seq<Expense>, m: ExpenseMeasure)
    requires multiset(a) == multiset(b)
    ensures ExpenseSum(a, m) == ExpenseSum(b, m)
    decreases |a|
  {
    if a == [] {
      assert |b| == |multiset(b)| == 0;
      assert b == [];
    } else {
      var k := MatchFirst(a, b);
      ExpenseSumPermutation(a[1..], b[..k] + b[k + 1..], m);
      ExpenseSumRemove(b, k, m);
    }
  }


  /** What one payment contributes to a sum over payments. */
  datatype PaymentMeasure =
    | SentBy(user: Email)             // amounts the user paid
    | ReceivedBy(user: Email)         // amounts the user received
    | SettledInGroup(groupId: GroupId)  // amounts recorded in the group

  function PaymentValue(m: PaymentMeasure, p: Payment): real {
    match m
    case SentBy(u) => if p.from == u then p.amount else 0.0
    case ReceivedBy(u) => if p.to == u then p.amount else 0.0
    case SettledInGroup(g) => if p.groupId == g then p.amount else 0.0
  }

  function PaymentSum(ps: seq<Payment>, m: PaymentMeasure): real {
    if ps == [] then 0.0 else PaymentValue(m, ps[0]) + PaymentSum(ps[1..], m)
  }

  lemma {:induction false} PaymentSumAppend(a: seq<Payment>, b: seq<Payment>, m: PaymentMeasure)
    ensures PaymentSum(a + b, m) == PaymentSum(a, m) + PaymentSum(b, m)
  {
    if a != [] {
      assert (a + b)[1..] == a[1..] + b;
      PaymentSumAppend(a[1..], b, m);
    } else {
      assert a + b == b;
    }
  }

  /** Taking one record out of a sum takes out its value. */
  lemma PaymentSumRemove(b: seq<Payment>, k: nat, m: PaymentMeasure)
    requires k < |b|
    ensures PaymentSum(b, m) == PaymentValue(m, b[k]) + PaymentSum(b[..k] + b[k + 1..], m)
  {
    assert b == b[..k] + ([b[k]] + b[k + 1..]);
    PaymentSumAppend(b[..k], [b[k]] + b[k + 1..], m);
    PaymentSumAppend(b[..k], b[k + 1..], m);
    assert ([b[k]] + b[k + 1..])[1..] == b[k + 1..];
  }

  /** A sum over payments depends only on which records there are, not on their order. */
  lemma {:induction false} PaymentSumPermutation(a: seq<Payment>, b: seq<Payment>, m: PaymentMeasure)
    requires multiset(a) == multiset(b)
    ensures PaymentSum(a, m) == PaymentSum(b, m)
    decreases |a|
  {
    if a == [] {
      assert |b| == |multiset(b)| == 0;
      assert b == [];
    } else {
      var k := MatchFirst(a, b);
      PaymentSumPermutation(a[1..], b[..k] + b[k + 1..], m);
      PaymentSumRemove(b, k, m);
    }
  }

}
