/**
 * The expense document: its split entries, the category enumeration and the
 * defaults and required fields the document schema applies when an expense is
 * created.
 */
module ExpenseSchema {
  import opened Wrappers

  /** The eight categories the schema's enumeration admits. */
  datatype Category =
    | FoodAndDrinks | Transportation | Accommodation | Entertainment
    | Shopping | Utilities | Healthcare | Other

  /** The stored spelling of each category. */
  function CategoryName(c: Category): string {
    match c
    case FoodAndDrinks => "Food & Drinks"
    case Transportation => "Transportation"
    case Accommodation => "Accommodation"
    case Entertainment => "Entertainment"
    case Shopping => "Shopping"
    case Utilities => "Utilities"
    case Healthcare => "Healthcare"
    case Other => "Other"
  }

  /** The enumeration check: a string names a category iff it is one of the eight spellings. */
  function ParseCategory(s: string): (r: Option<Category>)
    ensures r.Some? ==> CategoryName(r.value) == s
    ensures r.None? ==> forall c :: CategoryName(c) != s
  {
    if s == "Food & Drinks" then Some(FoodAndDrinks)
    else if s == "Transportation" then Some(Transportation)
    else if s == "Accommodation" then Some(Accommodation)
    else if s == "Entertainment" then Some(Entertainment)
    else if s == "Shopping" then Some(Shopping)
    else if s == "Utilities" then Some(Utilities)
    else if s == "Healthcare" then Some(Healthcare)
    else if s == "Other" then Some(Other)
    else None
  }

  /** Every category survives the round trip through its stored spelling. */
  lemma ParseCategoryName(c: Category)
    ensures ParseCategory(CategoryName(c)) == Some(c)
  {
  }

  /** The category field as the schema resolves it: absent means 'Other', present must be in the enumeration. */
  function ResolveCategory(given: Option<string>): (r: Option<Category>)
    ensures given.None? ==> r == Some(Other)
    ensures given.Some? ==> (r.Some? <==> exists c :: CategoryName(c) == given.value)
  {
    match given
    case None => Some(Other)
    case Some(s) =>
      var r := ParseCategory(s);
      assert r.Some? ==> CategoryName(r.value) == s;
      r
  }

  /** One member's share of an expense: what they paid and what they owe. */
  datatype Split = Split(user: string, paid: real, owes: real)

  /** A stored expense. `date` and `createdAt` are timestamps. */
  datatype Expense = Expense(
    groupId: nat,
    title: string,
    amount: real,
    category: Category,
    date: int,
    createdAt: int,
    splits: seq<Split>)

  /** A split entry as submitted, each field possibly absent. */
  datatype SplitFields = SplitFields(user: Option<string>, paid: Option<real>, owes: Option<real>)

  /** The split entry the schema stores: the user is required (a string must be non-empty), paid and owes default to 0. */
  function NewSplit(f: SplitFields): (r: Option<Split>)
    ensures r.Some? <==> f.user.Some? && f.user.value != ""
    ensures r.Some? ==> r.value.user == f.user.value
    ensures r.Some? ==> r.value.paid == (if f.paid.Some? then f.paid.value else 0.0)
    ensures r.Some? ==> r.value.owes == (if f.owes.Some? then f.owes.value else 0.0)
  {
    if f.user.None? || f.user.value == "" then None
    else
      var paid := if f.paid.Some? then f.paid.value else 0.0;
      var owes := if f.owes.Some? then f.owes.value else 0.0;
      Some(Split(f.user.value, paid, owes))
  }

  /** Every split entry names a user, as the schema requires. */
  predicate SplitsWellFormed(splits: seq<Split>) {
    forall i :: 0 <= i < |splits| ==> splits[i].user != ""
  }

  /**
   * The schema applied to every submitted split entry: the document is refused
   * when one entry lacks a user; otherwise each entry is stored with its defaults.
   */
  function NewSplits(fs: seq<SplitFields>): (r: Option<seq<Split>>)
    ensures r.Some? <==> forall i :: 0 <= i < |fs| ==> NewSplit(fs[i]).Some?
    ensures r.Some? ==> |r.value| == |fs| && forall i :: 0 <= i < |fs| ==> NewSplit(fs[i]) == Some(r.value[i])
    ensures r.Some? ==> SplitsWellFormed(r.value)
  {
    if fs == [] then Some([])
    else
      match (NewSplit(fs[0]), NewSplits(fs[1..]))
      case (Some(s), Some(rest)) =>
        var r := [s] + rest;
        assert forall i :: 1 <= i < |fs| ==> fs[i] == fs[1..][i - 1] && r[i] == rest[i - 1];
        Some(r)
      case (None, _) => None
      case (_, None) =>
        var k :| 0 <= k < |fs[1..]| && NewSplit(fs[1..][k]).None?;
        assert fs[k + 1] == fs[1..][k];
        None
  }

  /** A split entry sent with every field present. */
  function Sent(s: Split): SplitFields {
    SplitFields(Some(s.user), Some(s.paid), Some(s.owes))
  }

  /** A list of complete split entries as sent. */
  function SentAll(splits: seq<Split>): (r: seq<SplitFields>)
    ensures |r| == |splits| && forall i :: 0 <= i < |splits| ==> r[i] == Sent(splits[i])
  {
    seq(|splits|, i requires 0 <= i < |splits| => Sent(splits[i]))
  }

  /** Complete entries that name their users are stored as they were sent. */
  lemma NewSplitsSent(splits: seq<Split>)
    requires SplitsWellFormed(splits)
    ensures NewSplits(SentAll(splits)) == Some(splits)
  {
    var r := NewSplits(SentAll(splits));
    assert forall i :: 0 <= i < |splits| ==> NewSplit(SentAll(splits)[i]) == Some(splits[i]);
    assert r.Some?;
    assert r.value == splits;
  }

  /** An expense as submitted to the schema, each field possibly absent. */
  datatype ExpenseFields = ExpenseFields(
    groupId: Option<nat>,
    title: Option<string>,
    amount: Option<real>,
    category: Option<string>,
    date: Option<int>,
    splits: seq<Split>)

  /**
   * The document the schema stores, stamped with `now`, or None when validation
   * fails: group, title, amount and date are required (a required string must be
   * non-empty, a required number may be 0), the category must be in the
   * enumeration and defaults to 'Other', and every split names a user.
   */
  function NewExpense(f: ExpenseFields, now: int): (r: Option<Expense>)
    ensures r.Some? <==>
      && f.groupId.Some? && f.title.Some? && f.title.value != "" && f.amount.Some? && f.date.Some?
      && ResolveCategory(f.category).Some? && SplitsWellFormed(f.splits)
    ensures r.Some? ==>
      && r.value.groupId == f.groupId.value && r.value.title == f.title.value
      && r.value.amount == f.amount.value && r.value.date == f.date.value
      && r.value.category == ResolveCategory(f.category).value
      && r.value.splits == f.splits && r.value.createdAt == now
    ensures f.category.None? && r.Some? ==> r.value.category == Other
  {
    var category := ResolveCategory(f.category);
    if f.groupId.None? || f.title.None? || f.title.value == "" || f.amount.None? || f.date.None?
       || category.None? || !SplitsWellFormed(f.splits)
    then None
    else Some(Expense(f.groupId.value, f.title.value, f.amount.value, category.value,
                      f.date.value, now, f.splits))
  }
}
