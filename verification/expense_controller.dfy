/**
 * The expense request handlers: validating and accepting a new expense,
 * choosing who is told about it by email, listing a group's expenses, and the
 * per-category breakdown of a group's spending.
 */
module ExpenseController {
  import opened Wrappers
  import opened ExpenseSchema
  import opened Records
  import opened Sums
  import opened Sorting

  /**
   * The body of a create-expense request. An absent title or category is "", an
   * absent amount is 0; each split entry may lack any of its fields.
   */
  datatype ExpenseRequest = ExpenseRequest(
    title: string,
    amount: real,
    category: string,
    date: Option<int>,
    splits: Option<seq<SplitFields>>)

  function Abs(x: real): (r: real)
    ensures r >= 0.0 && (r == x || r == -x)
  {
    if x < 0.0 then -x else x
  }

  /** Every required field is truthy and the splits list is non-empty (an amount of 0 is falsy). */
  predicate FieldsPresent(req: ExpenseRequest) {
    && req.title != ""
    && req.amount != 0.0
    && req.category != ""
    && req.date.Some?
    && req.splits.Some?
    && |req.splits.value| > 0
  }

  /**
   * `splits.reduce((sum, s) => sum + s.paid, 0)` over the entries as sent: None
   * stands for NaN, which one entry without `paid` makes of the whole sum.
   */
  function PaidAsSent(fs: seq<SplitFields>): (r: Option<real>)
    ensures r.Some? <==> forall i :: 0 <= i < |fs| ==> fs[i].paid.Some?
  {
    if fs == [] then Some(0.0)
    else
      var rest := PaidAsSent(fs[1..]);
      assert forall i :: 1 <= i < |fs| ==> fs[i] == fs[1..][i - 1];
      if fs[0].paid.None? || rest.None? then None else Some(fs[0].paid.value + rest.value)
  }

  /** The same sum over `owes`. */
  function OwesAsSent(fs: seq<SplitFields>): (r: Option<real>)
    ensures r.Some? <==> forall i :: 0 <= i < |fs| ==> fs[i].owes.Some?
  {
    if fs == [] then Some(0.0)
    else
      var rest := OwesAsSent(fs[1..]);
      assert forall i :: 1 <= i < |fs| ==> fs[i] == fs[1..][i - 1];
      if fs[0].owes.None? || rest.None? then None else Some(fs[0].owes.value + rest.value)
  }

  /** `Math.abs(total - amount) > 0.01` is false for a NaN total, so such a total passes. */
  predicate WithinCent(total: Option<real>, amount: real) {
    total.None? || Abs(total.value - amount) <= 0.01
  }

  /** The handler's sum check on the entries as sent (a difference of exactly 0.01 passes). */
  predicate PassesSumCheck(fs: seq<SplitFields>, amount: real) {
    WithinCent(PaidAsSent(fs), amount) && WithinCent(OwesAsSent(fs), amount)
  }

  /** Σpaid and Σowes of complete entries are each within one cent of the amount. */
  predicate Balanced(splits: seq<Split>, amount: real) {
    Abs(SumPaid(splits) - amount) <= 0.01 && Abs(SumOwes(splits) - amount) <= 0.01
  }

  /** Complete entries sum to the same totals as sent. */
  lemma {:induction false} SentSums(splits: seq<Split>)
    ensures PaidAsSent(SentAll(splits)) == Some(SumPaid(splits))
    ensures OwesAsSent(SentAll(splits)) == Some(SumOwes(splits))
  {
    if splits != [] {
      assert SentAll(splits)[1..] == SentAll(splits[1..]);
      SentSums(splits[1..]);
    }
  }

  /** On complete entries the handler's check is exactly balance. */
  lemma SentSumCheck(splits: seq<Split>, amount: real)
    ensures PassesSumCheck(SentAll(splits), amount) <==> Balanced(splits, amount)
  {
    SentSums(splits);
  }

  /** `s.paid > 0`: false for a missing `paid`. */
  predicate Pays(f: SplitFields) {
    f.paid.Some? && f.paid.value > 0.0
  }

  /** `splits.find(s => s.paid > 0)`: the first entry with a positive payment. */
  function FirstPayer(fs: seq<SplitFields>): (r: Option<SplitFields>)
    ensures r.Some? ==> r.value in fs && Pays(r.value)
    ensures r.None? <==> forall i :: 0 <= i < |fs| ==> !Pays(fs[i])
  {
    if fs == [] then None
    else if Pays(fs[0]) then Some(fs[0])
    else FirstPayer(fs[1..])
  }

  /** What an accepted request resolves to: the group it goes to and its first payer. */
  datatype Accepted = Accepted(group: Group, payer: SplitFields)

  /**
   * The checks of the create-expense handler, in their fixed order: required
   * fields (400), group exists (404), acting user is a member (403), the sums
   * of the entries as sent are within a cent of the amount (400), some entry
   * pays (400). The first failing check decides the error.
   */
  function CheckExpense(req: ExpenseRequest, group: Option<Group>, actor: Email): (r: Result<Accepted, Failure>)
    ensures r == Err(MissingFields) <==> !FieldsPresent(req)
    ensures r == Err(GroupNotFound) <==> FieldsPresent(req) && group.None?
    ensures r == Err(NotAMember) <==> FieldsPresent(req) && group.Some? && actor !in group.value.members
    ensures r == Err(SplitSumMismatch) <==>
      && FieldsPresent(req) && group.Some? && actor in group.value.members
      && !PassesSumCheck(req.splits.value, req.amount)
    ensures r == Err(NoPayer) <==>
      && FieldsPresent(req) && group.Some? && actor in group.value.members
      && PassesSumCheck(req.splits.value, req.amount)
      && forall s :: s in req.splits.value ==> !Pays(s)
    ensures r.Ok? <==>
      && FieldsPresent(req) && group.Some? && actor in group.value.members
      && PassesSumCheck(req.splits.value, req.amount)
      && exists s :: s in req.splits.value && Pays(s)
    ensures r.Ok? ==> r.value.group == group.value && r.value.payer in req.splits.value && Pays(r.value.payer)
  {
    if !FieldsPresent(req) then Err(MissingFields)
    else if group.None? then Err(GroupNotFound)
    else if actor !in group.value.members then Err(NotAMember)
    else
      var splits := req.splits.value;
      if !PassesSumCheck(splits, req.amount) then Err(SplitSumMismatch)
      else
        match FirstPayer(splits)
        case None =>
          assert forall s :: s in splits ==> !Pays(s) by {
            forall s | s in splits ensures !Pays(s) {
              var i :| 0 <= i < |splits| && splits[i] == s;
            }
          }
          Err(NoPayer)
        case Some(payer) => Ok(Accepted(group.value, payer))
  }

  /** Example: a difference of exactly one cent in both sums is accepted. */
  lemma OneCentDifferenceAccepted(group: Group, actor: Email)
    requires actor in group.members
    ensures CheckExpense(
      ExpenseRequest("Dinner", 100.0, "Food & Drinks", Some(0),
                     Some([SplitFields(Some(actor), Some(100.01), Some(99.99))])),
      Some(group), actor).Ok?
  {
    var splits := [SplitFields(Some(actor), Some(100.01), Some(99.99))];
    assert splits[1..] == [];
    assert PaidAsSent(splits) == Some(100.01) && OwesAsSent(splits) == Some(99.99);
    assert Pays(splits[0]);
  }

  /** Example: sums that match are not enough; without a positive payment the expense has no payer. */
  lemma BalancedWithoutPayerRejected(group: Group, actor: Email)
    requires actor in group.members
    ensures CheckExpense(
      ExpenseRequest("Refund", -20.0, "Other", Some(0),
                     Some([SplitFields(Some(actor), Some(-20.0), Some(-20.0))])),
      Some(group), actor) == Err(NoPayer)
  {
    var splits := [SplitFields(Some(actor), Some(-20.0), Some(-20.0))];
    assert splits[1..] == [];
    assert PaidAsSent(splits) == Some(-20.0) && OwesAsSent(splits) == Some(-20.0);
  }

  /**
   * Example: split entries are checked only through their sums, so negative
   * shares and users outside the group are accepted.
   */
  lemma UncheckedSplitsAccepted(group: Group, actor: Email, outsider: Email)
    requires actor in group.members && outsider !in group.members
    ensures CheckExpense(
      ExpenseRequest("Taxi", 30.0, "Transportation", Some(0),
                     Some([SplitFields(Some(actor), Some(40.0), Some(45.0)),
                           SplitFields(Some(outsider), Some(-10.0), Some(-15.0))])),
      Some(group), actor) == Ok(Accepted(group, SplitFields(Some(actor), Some(40.0), Some(45.0))))
  {
    var splits := [SplitFields(Some(actor), Some(40.0), Some(45.0)),
                   SplitFields(Some(outsider), Some(-10.0), Some(-15.0))];
    assert splits[1..] == [SplitFields(Some(outsider), Some(-10.0), Some(-15.0))];
    assert splits[1..][1..] == [];
    assert PaidAsSent(splits[1..]) == Some(-10.0) && OwesAsSent(splits[1..]) == Some(-15.0);
    assert PaidAsSent(splits) == Some(30.0) && OwesAsSent(splits) == Some(30.0);
  }

  /** The entry the schema stores for a submitted one: missing numbers are 0. */
  function Stored(f: SplitFields): (s: Split)
    ensures f.user.Some? && f.user.value != "" ==> NewSplit(f) == Some(s)
  {
    Split(if f.user.Some? then f.user.value else "",
          if f.paid.Some? then f.paid.value else 0.0,
          if f.owes.Some? then f.owes.value else 0.0)
  }

  /**
   * The sum check as evidently intended: on the entries as the schema stores
   * them, so a missing number counts as the 0 it is stored as.
   */
  predicate PassesStoredSumCheck(fs: seq<SplitFields>, amount: real) {
    Balanced(seq(|fs|, i requires 0 <= i < |fs| => Stored(fs[i])), amount)
  }

  /**
   * As written, an entry without `paid` turns Σpaid into NaN and skips that
   * half of the check: a 100 expense is accepted and stored with Σpaid = 5.
   */
  lemma MissingPaidSkipsSumCheck(group: Group, a: Email, b: Email)
    requires a != "" && b != "" && a in group.members
    ensures var fs := [SplitFields(Some(a), Some(5.0), Some(100.0)), SplitFields(Some(b), None, Some(0.0))];
            && CheckExpense(ExpenseRequest("Taxi", 100.0, "Transportation", Some(0), Some(fs)), Some(group), a).Ok?
            && NewSplits(fs).Some?
            && SumPaid(NewSplits(fs).value) == 5.0
            && !PassesStoredSumCheck(fs, 100.0)
  {
    var fs := [SplitFields(Some(a), Some(5.0), Some(100.0)), SplitFields(Some(b), None, Some(0.0))];
    assert fs[1..] == [fs[1]] && fs[1..][1..] == [];
    assert OwesAsSent(fs[1..]) == Some(0.0);
    assert OwesAsSent(fs) == Some(100.0);
    assert PaidAsSent(fs).None?;
    assert Pays(fs[0]) && fs[0] in fs;
    var ss := NewSplits(fs).value;
    assert ss == [Split(a, 5.0, 100.0), Split(b, 0.0, 0.0)];
    assert ss[1..] == [Split(b, 0.0, 0.0)] && ss[1..][1..] == [];
    assert SumPaid(ss[1..]) == 0.0;
    var stored := seq(|fs|, i requires 0 <= i < |fs| => Stored(fs[i]));
    assert stored == ss;
  }

  /** The corrected check accepts only entries whose stored sums are within a cent of the amount. */
  lemma StoredSumCheckKeepsBalance(fs: seq<SplitFields>, amount: real)
    requires PassesStoredSumCheck(fs, amount) && NewSplits(fs).Some?
    ensures Balanced(NewSplits(fs).value, amount)
  {
    var stored := seq(|fs|, i requires 0 <= i < |fs| => Stored(fs[i]));
    assert NewSplits(fs).value == stored;
  }

  /** On complete entries the corrected check and the check as written agree. */
  lemma StoredSumCheckAgrees(splits: seq<Split>, amount: real)
    ensures PassesStoredSumCheck(SentAll(splits), amount) <==> PassesSumCheck(SentAll(splits), amount)
  {
    var fs := SentAll(splits);
    assert seq(|fs|, i requires 0 <= i < |fs| => Stored(fs[i])) == splits;
    SentSumCheck(splits, amount);
  }

  /**
   * Complete entries that balance, one of which pays something, are accepted
   * from a member of an existing group once a title, a category, a non-zero
   * amount and a date are given.
   */
  lemma BalancedSplitsAccepted(req: ExpenseRequest, splits: seq<Split>, g: Group, actor: Email, k: nat)
    requires req.title != "" && req.category != "" && req.amount != 0.0 && req.date.Some?
    requires req.splits == Some(SentAll(splits)) && Balanced(splits, req.amount)
    requires k < |splits| && splits[k].paid > 0.0
    requires actor in g.members
    ensures CheckExpense(req, Some(g), actor).Ok?
  {
    SentSumCheck(splits, req.amount);
    var sent := SentAll(splits);
    assert sent[k] in sent && Pays(sent[k]);
  }

  /**
   * `splits.filter(s => s.owes > 0 && s.user !== payer.user).map(s => s.user)`:
   * the users who owe something, other than the first payer, in split order.
   * It is taken over the entries as stored: an entry sent without `owes` is
   * stored with 0, which fails `> 0` just as the missing value does.
   */
  function Participants(splits: seq<Split>, payer: Email): (r: seq<Email>)
    ensures |r| <= |splits|
    ensures forall s :: s in splits && s.owes > 0.0 && s.user != payer ==> s.user in r
    ensures forall x :: x in r ==> x != payer && exists s :: s in splits && s.user == x && s.owes > 0.0
  {
    if splits == [] then []
    else
      var rest := Participants(splits[1..], payer);
      assert forall s :: s in splits[1..] ==> s in splits;
      if splits[0].owes > 0.0 && splits[0].user != payer then [splits[0].user] + rest else rest
  }

  /**
   * Who is emailed about a new expense: the participants whose account does not
   * have notifications switched off. `notifiable` is the set of registered
   * users whose notifications flag is not false.
   */
  function EmailRecipients(splits: seq<Split>, payer: Email, notifiable: set<Email>): (r: set<Email>)
    ensures forall x :: x in r <==>
      x in notifiable && x != payer && exists s :: s in splits && s.user == x && s.owes > 0.0
  {
    set x | x in Participants(splits, payer) && x in notifiable
  }

  /** `Group.findOne({ _id, members: email })`: a group with that id which the user belongs to. */
  function MemberGroup(groups: seq<Group>, id: GroupId, email: Email): (r: Option<Group>)
    ensures r.Some? ==> r.value in groups && r.value.id == id && email in r.value.members
    ensures r.None? ==> forall g :: g in groups && g.id == id ==> email !in g.members
  {
    if groups == [] then None
    else if groups[0].id == id && email in groups[0].members then Some(groups[0])
    else
      assert forall g :: g in groups[1..] ==> g in groups;
      MemberGroup(groups[1..], id, email)
  }

  /** The expenses recorded against a group, in store order. */
  function OfGroup(expenses: seq<Expense>, id: GroupId): (r: seq<Expense>)
    ensures forall e :: e in r <==> e in expenses && e.groupId == id
    ensures r == [] <==> forall e :: e in expenses ==> e.groupId != id
    ensures forall e :: multiset(r)[e] == if e.groupId == id then multiset(expenses)[e] else 0
  {
    if expenses == [] then []
    else
      assert expenses == [expenses[0]] + expenses[1..];
      var rest := OfGroup(expenses[1..], id);
      if expenses[0].groupId == id then [expenses[0]] + rest else rest
  }

  /** `sort({ date: -1 })`: later dates first. */
  predicate LaterDate(a: Expense, b: Expense) {
    a.date >= b.date
  }

  /**
   * Listing a group's expenses: a malformed id makes the query throw (500);
   * otherwise 404 unless the user is a member of a group with that id, and
   * then exactly that group's expenses, each as often as stored, latest date
   * first.
   */
  function ListExpenses(groups: seq<Group>, expenses: seq<Expense>, id: Option<GroupId>, email: Email)
    : (r: Result<seq<Expense>, Failure>)
    ensures r == Err(Thrown) <==> id.None?
    ensures id.Some? ==> (r.Err? <==> forall g :: g in groups && g.id == id.value ==> email !in g.members)
    ensures id.Some? && r.Err? ==> r.error == GroupNotFound
    ensures r.Ok? ==> multiset(r.value) == multiset(OfGroup(expenses, id.value))
    ensures r.Ok? ==> forall e :: multiset(r.value)[e] == if e.groupId == id.value then multiset(expenses)[e] else 0
    ensures r.Ok? ==> SortedBy(r.value, LaterDate)
  {
    match id
    case None => Err(Thrown)
    case Some(gid) =>
      match MemberGroup(groups, gid, email)
      case None => Err(GroupNotFound)
      case Some(_) =>
        var listed := SortBy(OfGroup(expenses, gid), LaterDate);
        assert TotalPreorder(LaterDate);
        SortBySorted(OfGroup(expenses, gid), LaterDate);
        Ok(listed)
  }

  /** One row of the category breakdown. */
  datatype Row = Row(category: Category, totalAmount: real)

  /** Σ totalAmount over the rows. */
  function RowsTotal(rows: seq<Row>): real {
    if rows == [] then 0.0 else rows[0].totalAmount + RowsTotal(rows[1..])
  }

  /** Σ totalAmount over the rows of one category. */
  function RowAmount(rows: seq<Row>, c: Category): real {
    if rows == [] then 0.0
    else (if rows[0].category == c then rows[0].totalAmount else 0.0) + RowAmount(rows[1..], c)
  }

  /** The categories the rows are for. */
  function Categories(rows: seq<Row>): set<Category> {
    if rows == [] then {} else {rows[0].category} + Categories(rows[1..])
  }

  /** No category has two rows. */
  predicate DistinctCategories(rows: seq<Row>) {
    rows == [] || (rows[0].category !in Categories(rows[1..]) && DistinctCategories(rows[1..]))
  }

  /** Adds an amount to the row of its category, opening a row at the end for a category not seen yet. */
  function AddToRows(rows: seq<Row>, c: Category, amount: real): (r: seq<Row>)
    ensures RowsTotal(r) == RowsTotal(rows) + amount
    ensures forall d :: RowAmount(r, d) == RowAmount(rows, d) + (if d == c then amount else 0.0)
    ensures Categories(r) == Categories(rows) + {c}
    ensures DistinctCategories(rows) ==> DistinctCategories(r)
  {
    if rows == [] then [Row(c, amount)]
    else if rows[0].category == c then
      var r := [Row(c, rows[0].totalAmount + amount)] + rows[1..];
      assert r[1..] == rows[1..];
      r
    else
      var r := [rows[0]] + AddToRows(rows[1..], c, amount);
      assert r[1..] == AddToRows(rows[1..], c, amount);
      r
  }

  /** The `$group` stage: one row per category of the group's expenses, in the order the categories first appear. */
  function Breakdown(expenses: seq<Expense>, id: GroupId): seq<Row> {
    if expenses == [] then []
    else
      var last := expenses[|expenses| - 1];
      var rows := Breakdown(expenses[..|expenses| - 1], id);
      if last.groupId == id then AddToRows(rows, last.category, last.amount) else rows
  }

  /** The categories occurring among a group's expenses. */
  function GroupCategories(expenses: seq<Expense>, id: GroupId): set<Category> {
    set e | e in expenses && e.groupId == id :: e.category
  }

  lemma {:induction false} BreakdownCorrect(expenses: seq<Expense>, id: GroupId)
    ensures DistinctCategories(Breakdown(expenses, id))
    ensures Categories(Breakdown(expenses, id)) == GroupCategories(expenses, id)
    ensures forall c :: RowAmount(Breakdown(expenses, id), c) == ExpenseSum(expenses, AmountInCategory(id, c))
    ensures RowsTotal(Breakdown(expenses, id)) == ExpenseSum(expenses, AmountInGroup(id))
  {
    if expenses != [] {
      var n := |expenses| - 1;
      var init, last := expenses[..n], expenses[n];
      BreakdownCorrect(init, id);
      assert expenses == init + [last];
      assert GroupCategories(expenses, id) ==
        GroupCategories(init, id) + (if last.groupId == id then {last.category} else {}) by {
        forall e | e in expenses ensures e in init || e == last { }
      }
      forall c ensures ExpenseSum(expenses, AmountInCategory(id, c)) ==
        ExpenseSum(init, AmountInCategory(id, c)) + ExpenseValue(AmountInCategory(id, c), last) {
        ExpenseSumAppend(init, [last], AmountInCategory(id, c));
      }
      ExpenseSumAppend(init, [last], AmountInGroup(id));
    }
  }

  /** With distinct categories, a row's total is the amount of its category. */
  lemma {:induction false} RowIsCategoryAmount(rows: seq<Row>, i: nat)
    requires DistinctCategories(rows) && i < |rows|
    ensures rows[i].totalAmount == RowAmount(rows, rows[i].category)
  {
    if i == 0 {
      RowAmountAbsent(rows[1..], rows[0].category);
    } else {
      RowIsCategoryAmount(rows[1..], i - 1);
      RowCategoryListed(rows[1..], i - 1);
    }
  }

  lemma {:induction false} RowCategoryListed(rows: seq<Row>, i: nat)
    requires i < |rows|
    ensures rows[i].category in Categories(rows)
  {
    if i > 0 {
      RowCategoryListed(rows[1..], i - 1);
    }
  }

  lemma {:induction false} RowAmountAbsent(rows: seq<Row>, c: Category)
    requires c !in Categories(rows)
    ensures RowAmount(rows, c) == 0.0
  {
    if rows != [] {
      RowAmountAbsent(rows[1..], c);
    }
  }

  /**
   * The analytics handler: 400 for a malformed id (None); otherwise one row per
   * distinct category among the group's expenses, each holding the sum of that
   * category's amounts, the rows together summing to the group's total.
   */
  function GroupAnalytics(expenses: seq<Expense>, id: Option<GroupId>): (r: Result<seq<Row>, Failure>)
    ensures id.None? <==> r == Err(InvalidId)
    ensures r.Ok? ==> DistinctCategories(r.value)
    ensures r.Ok? ==> Categories(r.value) == GroupCategories(expenses, id.value)
    ensures r.Ok? ==> forall i :: 0 <= i < |r.value| ==>
      r.value[i].totalAmount == ExpenseSum(expenses, AmountInCategory(id.value, r.value[i].category))
    ensures r.Ok? ==> RowsTotal(r.value) == ExpenseSum(expenses, AmountInGroup(id.value))
  {
    match id
    case None => Err(InvalidId)
    case Some(g) =>
      var rows := Breakdown(expenses, g);
      BreakdownCorrect(expenses, g);
      assert forall i :: 0 <= i < |rows| ==> rows[i].totalAmount == RowAmount(rows, rows[i].category) by {
        forall i | 0 <= i < |rows| ensures rows[i].totalAmount == RowAmount(rows, rows[i].category) {
          RowIsCategoryAmount(rows, i);
        }
      }
      Ok(rows)
  }
}
