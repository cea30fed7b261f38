/** The analytics page: the category rows of one group, each as a share of the group's total. */
module AnalyticsPage {
  import opened Wrappers
  import opened ExpenseSchema
  import opened Records
  import opened Sums
  import opened ExpenseController
  import opened Reals

  /** `rows.reduce((sum, item) => sum + item.totalAmount, acc)`: a left fold. */
  function FoldTotal(acc: real, rows: seq<Row>): real
    decreases |rows|
  {
    if rows == [] then acc else FoldTotal(acc + rows[0].totalAmount, rows[1..])
  }

  /** `totalAmount`. */
  function PageTotal(rows: seq<Row>): real {
    FoldTotal(0.0, rows)
  }

  /** The left fold adds up the same as the rows' sum. */
  lemma {:induction false} FoldTotalIsSum(acc: real, rows: seq<Row>)
    ensures FoldTotal(acc, rows) == acc + RowsTotal(rows)
    decreases |rows|
  {
    if rows != [] {
      FoldTotalIsSum(acc + rows[0].totalAmount, rows[1..]);
    }
  }

  /** The page's total for the rows the server returns is the group's spending. */
  lemma PageTotalIsGroupSpending(expenses: seq<Expense>, id: GroupId)
    ensures GroupAnalytics(expenses, Some(id)).Ok?
    ensures PageTotal(GroupAnalytics(expenses, Some(id)).value) == ExpenseSum(expenses, AmountInGroup(id))
  {
    FoldTotalIsSum(0.0, GroupAnalytics(expenses, Some(id)).value);
  }

  /** A row's percentage of the total; None when the total is 0 and the division has no value. */
  function Share(row: Row, total: real): (r: Option<real>)
    ensures r.None? <==> total == 0.0
    ensures r.Some? ==> r.value * total == row.totalAmount * 100.0
  {
    if total == 0.0 then None else Some((row.totalAmount / total) * 100.0)
  }

  /** Σ of the rows' percentages of `total`. */
  function ShareSum(rows: seq<Row>, total: real): real
    requires total != 0.0
  {
    if rows == [] then 0.0 else Share(rows[0], total).value + ShareSum(rows[1..], total)
  }

  lemma {:induction false} ShareSumScaled(rows: seq<Row>, total: real)
    requires total != 0.0
    ensures ShareSum(rows, total) * total == RowsTotal(rows) * 100.0
  {
    if rows != [] {
      ShareSumScaled(rows[1..], total);
      var a := Share(rows[0], total).value;
      var rest := ShareSum(rows[1..], total);
      assert (a + rest) * total == a * total + rest * total;
      assert (rows[0].totalAmount + RowsTotal(rows[1..])) * 100.0
             == rows[0].totalAmount * 100.0 + RowsTotal(rows[1..]) * 100.0;
    }
  }

  /** With a non-zero total, the percentages add up to 100. */
  lemma SharesAddUpTo100(rows: seq<Row>)
    requires PageTotal(rows) != 0.0
    ensures ShareSum(rows, PageTotal(rows)) == 100.0
  {
    var t := PageTotal(rows);
    FoldTotalIsSum(0.0, rows);
    ShareSumScaled(rows, t);
    assert ShareSum(rows, t) * t == 100.0 * t;
  }

  /** Every row's amount is at most the total when no amount is negative. */
  lemma {:induction false} RowWithinTotal(rows: seq<Row>, i: nat)
    requires i < |rows|
    requires forall k :: 0 <= k < |rows| ==> rows[k].totalAmount >= 0.0
    ensures 0.0 <= rows[i].totalAmount <= RowsTotal(rows)
  {
    if i > 0 {
      RowWithinTotal(rows[1..], i - 1);
    }
    NonNegativeTotal(rows[1..]);
  }

  lemma {:induction false} NonNegativeTotal(rows: seq<Row>)
    requires forall k :: 0 <= k < |rows| ==> rows[k].totalAmount >= 0.0
    ensures RowsTotal(rows) >= 0.0
  {
    if rows != [] {
      NonNegativeTotal(rows[1..]);
    }
  }

  /** With no negative row and a positive total, every percentage lies in [0, 100]. */
  lemma ShareWithinBounds(rows: seq<Row>, i: nat)
    requires i < |rows|
    requires forall k :: 0 <= k < |rows| ==> rows[k].totalAmount >= 0.0
    requires PageTotal(rows) > 0.0
    ensures var s := Share(rows[i], PageTotal(rows)).value; 0.0 <= s <= 100.0
  {
    var t := PageTotal(rows);
    FoldTotalIsSum(0.0, rows);
    RowWithinTotal(rows, i);
    var s := Share(rows[i], t).value;
    assert s * t == rows[i].totalAmount * 100.0;
    assert (100.0 - s) * t == (t - rows[i].totalAmount) * 100.0;
    PositiveFactorSign(100.0 - s, t);
  }

  /** The page's selection and the rows it shows. */
  class AnalyticsView {
    var selectedGroupId: Option<GroupId>
    var analyticsData: seq<Row>

    constructor ()
      ensures selectedGroupId == None && analyticsData == []
    {
      selectedGroupId, analyticsData := None, [];
    }

    /** Choosing a group; clearing the choice empties the rows at once, so the page shows a total of 0. */
    method Select(id: Option<GroupId>)
      modifies this
      ensures selectedGroupId == id
      ensures analyticsData == if id.None? then [] else old(analyticsData)
      ensures id.None? ==> Total() == 0.0
    {
      selectedGroupId := id;
      if id.None? {
        analyticsData := [];
      }
    }

    /** The rows arriving for the selected group. */
    method Loaded(rows: seq<Row>)
      modifies this
      ensures analyticsData == rows && selectedGroupId == old(selectedGroupId)
    {
      analyticsData := rows;
    }

    /** `totalAmount` of the rows shown. */
    function Total(): (t: real)
      reads this
      ensures t == RowsTotal(analyticsData)
    {
      FoldTotalIsSum(0.0, analyticsData);
      PageTotal(analyticsData)
    }
  }
}
