/**
 * The add-expense form: the state it keeps while the user picks a group,
 * toggles members and types custom amounts, and the split list it builds on
 * submit, which the server's expense checks then judge.
 */
module AddExpensePage {
  import opened Wrappers
  import opened ExpenseSchema
  import opened Records
  import opened Sums
  import opened ExpenseController
  import opened MemberLists
  import opened Reals

  /** `handleMemberToggle`: a selected email is removed (every copy), an unselected one appended. */
  function Toggle(selected: seq<Email>, email: Email): (r: seq<Email>)
    ensures email in r <==> email !in selected
    ensures forall x :: x != email ==> (x in r <==> x in selected)
    ensures email !in selected ==> r == selected + [email]
  {
    if email in selected then Without(selected, email) else selected + [email]
  }

  /** Toggling the same email twice gives back the same selection (as a set). */
  lemma ToggleTwice(selected: seq<Email>, email: Email)
    ensures forall x :: x in Toggle(Toggle(selected, email), email) <==> x in selected
  {
  }

  /** The typed custom amounts: one entry per email, in the order first typed. */
  type Entries = seq<(Email, real)>

  function Keys(c: Entries): (r: seq<Email>)
    ensures |r| == |c| && forall i :: 0 <= i < |c| ==> r[i] == c[i].0
  {
    if c == [] then [] else [c[0].0] + Keys(c[1..])
  }

  /** `parseFloat(customSplits[email] || 0)`: the amount typed for the email, 0 when none. */
  function Lookup(c: Entries, email: Email): (r: real)
    ensures email !in Keys(c) ==> r == 0.0
    ensures forall i :: 0 <= i < |c| && c[i].0 == email && email !in Keys(c[..i]) ==> r == c[i].1
  {
    if c == [] then 0.0
    else if c[0].0 == email then c[0].1
    else
      assert forall i :: 1 <= i < |c| ==> c[1..][i - 1] == c[i] && Keys(c[..i]) == [c[0].0] + Keys(c[1..][..i - 1]) by {
        forall i | 1 <= i < |c| ensures Keys(c[..i]) == [c[0].0] + Keys(c[1..][..i - 1]) {
          assert c[..i][1..] == c[1..][..i - 1];
        }
      }
      Lookup(c[1..], email)
  }

  /** `{ ...customSplits, [email]: value }`: the email's amount replaced, or a new entry at the end. */
  function Assign(c: Entries, email: Email, value: real): (r: Entries)
    ensures Lookup(r, email) == value
    ensures forall x :: x != email ==> Lookup(r, x) == Lookup(c, x)
    ensures Keys(r) == if email in Keys(c) then Keys(c) else Keys(c) + [email]
  {
    if c == [] then [(email, value)]
    else if c[0].0 == email then [(email, value)] + c[1..]
    else [c[0]] + Assign(c[1..], email, value)
  }

  /** `Object.values(customSplits).reduce(...)`: Σ of the typed amounts. */
  function EnteredTotal(c: Entries): real {
    if c == [] then 0.0 else c[0].1 + EnteredTotal(c[1..])
  }

  /** The entries whose email is currently selected. */
  function Restrict(c: Entries, selected: seq<Email>): (r: Entries)
    ensures forall x :: x in Keys(r) <==> x in Keys(c) && x in selected
    ensures Distinct(Keys(c)) ==> Distinct(Keys(r))
    ensures forall x :: Lookup(r, x) == if x in selected then Lookup(c, x) else 0.0
  {
    if c == [] then []
    else
      var rest := Restrict(c[1..], selected);
      assert Distinct(Keys(c)) ==> c[0].0 !in Keys(c[1..]) by {
        if Distinct(Keys(c)) {
          forall j | 0 <= j < |c| - 1 ensures Keys(c[1..])[j] != c[0].0 {
            assert Keys(c)[j + 1] == Keys(c[1..])[j];
          }
        }
      }
      if c[0].0 in selected then [c[0]] + rest else rest
  }

  /** How the amount is shared out: equally among the selected members, or as typed. */
  datatype Shares = EqualAmong(selected: seq<Email>, amount: real) | Entered(entries: Entries)

  /** What one member owes under a sharing. */
  function Owes(s: Shares, email: Email): real {
    match s
    case EqualAmong(selected, amount) => if email in selected then Share(selected, amount) else 0.0
    case Entered(entries) => Lookup(entries, email)
  }

  /**
   * The split list `handleSubmit` sends: one entry per group member in member
   * order; the payer's entry has paid the whole amount, everyone else 0.
   */
  function BuildSplits(members: seq<Email>, payer: Email, amount: real, shares: Shares): (r: seq<Split>)
    ensures |r| == |members|
    ensures forall i :: 0 <= i < |members| ==>
      && r[i].user == members[i]
      && r[i].paid == (if members[i] == payer then amount else 0.0)
      && r[i].owes == Owes(shares, members[i])
  {
    if members == [] then []
    else
      [Split(members[0], if members[0] == payer then amount else 0.0, Owes(shares, members[0]))]
      + BuildSplits(members[1..], payer, amount, shares)
  }

  /** Σpaid of entries in which exactly the payer's entries paid the amount. */
  lemma {:induction false} PaidOncePerPayerEntry(splits: seq<Split>, users: seq<Email>, payer: Email, amount: real)
    requires |splits| == |users|
    requires forall i :: 0 <= i < |splits| ==> splits[i].paid == if users[i] == payer then amount else 0.0
    ensures SumPaid(splits) == Repeated(Count(users, payer), amount)
  {
    if splits != [] {
      PaidOncePerPayerEntry(splits[1..], users[1..], payer, amount);
      var n := Count(users[1..], payer);
      assert Count(users, payer) == (if users[0] == payer then 1 else 0) + n;
      assert Repeated(n + 1, amount) == amount + Repeated(n, amount);
    }
  }

  /**
   * Whichever way it is shared, Σpaid is the amount added once for every entry
   * of the payer: 0 when the payer is not a member, twice the amount when listed
   * twice (`RepeatedIsProduct`: that is the number of entries times the amount).
   */
  lemma PaidPerPayerEntry(members: seq<Email>, payer: Email, amount: real, shares: Shares)
    ensures SumPaid(BuildSplits(members, payer, amount, shares)) == Repeated(Count(members, payer), amount)
  {
    PaidOncePerPayerEntry(BuildSplits(members, payer, amount, shares), members, payer, amount);
  }

  /** A payer listed exactly once makes Σpaid the amount. */
  lemma PayerListedOnce(members: seq<Email>, payer: Email, amount: real, shares: Shares)
    requires Count(members, payer) == 1
    ensures SumPaid(BuildSplits(members, payer, amount, shares)) == amount
  {
    PaidPerPayerEntry(members, payer, amount, shares);
  }

  /** Σ of what each listed member owes. */
  function OwesTotal(members: seq<Email>, shares: Shares): real {
    if members == [] then 0.0 else Owes(shares, members[0]) + OwesTotal(members[1..], shares)
  }

  /** Σowes of the built splits is what the listed members owe. */
  lemma {:induction false} OwedTotal(members: seq<Email>, payer: Email, amount: real, shares: Shares)
    ensures SumOwes(BuildSplits(members, payer, amount, shares)) == OwesTotal(members, shares)
  {
    if members != [] {
      OwedTotal(members[1..], payer, amount, shares);
      assert BuildSplits(members, payer, amount, shares)[1..] == BuildSplits(members[1..], payer, amount, shares);
    }
  }

  /** Each selected member's equal share (0 when nobody is selected). */
  function Share(selected: seq<Email>, amount: real): real {
    if |selected| == 0 then 0.0 else amount / (|selected| as real)
  }

  /** The shares add back to the amount: |selected| copies of the share make the amount. */
  lemma SharesRecombine(selected: seq<Email>, amount: real)
    requires |selected| > 0
    ensures Repeated(|selected|, Share(selected, amount)) == amount
  {
    RepeatedIsProduct(|selected|, Share(selected, amount));
  }

  /**
   * An equal sharing charges the share once for each listed member who is
   * selected (`RepeatedIsProduct`: the share times that number).
   */
  lemma {:induction false} EqualOwesTotal(members: seq<Email>, selected: seq<Email>, amount: real)
    ensures OwesTotal(members, EqualAmong(selected, amount))
            == Repeated(CountIn(members, Elements(selected)), Share(selected, amount))
  {
    if members != [] {
      EqualOwesTotal(members[1..], selected, amount);
    }
  }

  /** Every selected member, each listed once, is counted once. */
  lemma CountSelected(members: seq<Email>, selected: seq<Email>)
    requires Distinct(members) && Distinct(selected)
    requires forall x :: x in selected ==> x in members
    ensures CountIn(members, Elements(selected)) == |selected|
  {
    CountInDistinct(members, Elements(selected));
    assert Elements(members) * Elements(selected) == Elements(selected);
    DistinctCardinality(selected);
  }

  /**
   * With no repeated members and a non-empty selection of distinct members,
   * an equal sharing owes exactly the amount.
   */
  lemma EqualSharesAddUp(members: seq<Email>, selected: seq<Email>, amount: real)
    requires Distinct(members) && Distinct(selected) && |selected| > 0
    requires forall x :: x in selected ==> x in members
    ensures OwesTotal(members, EqualAmong(selected, amount)) == amount
  {
    EqualOwesTotal(members, selected, amount);
    CountSelected(members, selected);
    SharesRecombine(selected, amount);
  }

  /**
   * Among distinct members, dropping the first entry (whose email no later
   * entry has) takes its amount off the total when that email is a member.
   */
  lemma {:induction false} OwesTotalFirstEntry(members: seq<Email>, c: Entries)
    requires Distinct(members)
    requires c != [] && c[0].0 !in Keys(c[1..])
    ensures OwesTotal(members, Entered(c))
            == (if c[0].0 in members then c[0].1 else 0.0) + OwesTotal(members, Entered(c[1..]))
  {
    if members != [] {
      assert Distinct(members[1..]) by {
        forall i, j | 0 <= i < j < |members| - 1 ensures members[1..][i] != members[1..][j] {
          assert members[1..][i] == members[i + 1] && members[1..][j] == members[j + 1];
        }
      }
      OwesTotalFirstEntry(members[1..], c);
      if members[0] == c[0].0 {
        assert c[0].0 !in members[1..] by {
          forall j | 1 <= j < |members| ensures members[j] != c[0].0 {
          }
        }
      }
    }
  }

  lemma {:induction false} ZeroOwes(members: seq<Email>)
    ensures OwesTotal(members, Entered([])) == 0.0
  {
    if members != [] {
      ZeroOwes(members[1..]);
    }
  }

  /**
   * When every typed email is a member and neither list repeats an email, the
   * members owe exactly the typed total.
   */
  lemma {:induction false} EnteredSharesAddUp(members: seq<Email>, c: Entries)
    requires Distinct(members) && Distinct(Keys(c))
    requires forall x :: x in Keys(c) ==> x in members
    ensures OwesTotal(members, Entered(c)) == EnteredTotal(c)
  {
    if c == [] {
      ZeroOwes(members);
    } else {
      var k := Keys(c);
      assert Keys(c[1..]) == k[1..];
      assert Distinct(k[1..]) by {
        forall i, j | 0 <= i < j < |k| - 1 ensures k[1..][i] != k[1..][j] {
          assert k[1..][i] == k[i + 1] && k[1..][j] == k[j + 1];
        }
      }
      assert c[0].0 !in k[1..] by {
        forall j | 1 <= j < |k| ensures k[j] != c[0].0 {
          assert k[0] == c[0].0;
        }
      }
      assert forall x :: x in k[1..] ==> x in k;
      OwesTotalFirstEntry(members, c);
      assert c[0].0 in k by { assert k[0] == c[0].0; }
      EnteredSharesAddUp(members, c[1..]);
    }
  }

  // ---- the form ----

  datatype SplitType = Equal | Custom

  /** Why the form refuses to submit. */
  datatype FormError =
    | Incomplete      // "Please fill out all required fields."
    | CustomMismatch  // "Custom split amounts must add up to the total expense."
    | NoGroupLoaded   // the chosen group is not among those loaded, so its members cannot be read

  /**
   * The custom amounts as evidently intended: only the entries of members still
   * selected, the only ones whose input the form shows.
   */
  function CustomShares(c: Entries, selected: seq<Email>): Shares {
    Entered(Restrict(c, selected))
  }

  /** The custom amounts as the form's code uses them: every entry, selected or not. */
  function CustomSharesAsWritten(c: Entries, selected: seq<Email>): Shares {
    Entered(c)
  }

  /** A member typed in and then deselected still owes their amount under the code as written. */
  lemma DeselectedMemberStillOwes(a: Email, b: Email)
    requires a != b
    ensures var members := [a, b];
            var selected := Toggle([a, b], b);
            var typed: Entries := [(a, 5.0), (b, 5.0)];
            var splits := BuildSplits(members, a, 10.0, CustomSharesAsWritten(typed, selected));
            && selected == [a]
            && EnteredTotal(typed) == 10.0
            && b !in selected && splits[1].owes == 5.0
  {
    var typed: Entries := [(a, 5.0), (b, 5.0)];
    var tail: Entries := typed[1..];
    assert tail == [(b, 5.0)] && |tail[1..]| == 0;
    assert EnteredTotal(tail) == 5.0;
    assert Keys(typed) == [a, b];
    assert Without([a, b], b) == [a] by {
      assert [a, b][1..] == [b];
      assert [b][1..] == [];
    }
  }

  /** With the corrected sharing, a member who is not selected owes nothing. */
  lemma DeselectedOwesNothing(members: seq<Email>, payer: Email, amount: real, c: Entries, selected: seq<Email>, i: nat)
    requires i < |members| && members[i] !in selected
    ensures BuildSplits(members, payer, amount, CustomShares(c, selected))[i].owes == 0.0
  {
  }

  class ExpenseForm {
    var groups: seq<Group>
    var groupId: Option<GroupId>
    var paidBy: Email
    var selectedMembers: seq<Email>
    var customSplits: Entries

    constructor (loaded: seq<Group>)
      ensures groups == loaded && groupId == None && paidBy == ""
      ensures selectedMembers == [] && customSplits == []
    {
      groups, groupId, paidBy, selectedMembers, customSplits := loaded, None, "", [], [];
    }

    /** `groups.find(g => g._id === groupId)`. */
    function SelectedGroup(): (r: Option<Group>)
      reads this
      ensures r.Some? ==> groupId.Some? && r.value in groups && r.value.id == groupId.value
    {
      if groupId.None? then None else FindGroup(groups, groupId.value)
    }

    /**
     * `handleGroupChange`: all members of the newly chosen group are selected
     * (none when it is not found); the payer and the custom amounts are cleared.
     */
    method HandleGroupChange(id: Option<GroupId>)
      modifies this
      ensures groups == old(groups) && groupId == id
      ensures selectedMembers == if SelectedGroup().Some? then SelectedGroup().value.members else []
      ensures paidBy == "" && customSplits == []
    {
      groupId := id;
      var group := SelectedGroup();
      if group.Some? {
        selectedMembers := group.value.members;
      } else {
        selectedMembers := [];
      }
      paidBy := "";
      customSplits := [];
    }

    /** `handleMemberToggle`. */
    method HandleMemberToggle(email: Email)
      modifies this
      ensures selectedMembers == Toggle(old(selectedMembers), email)
      ensures groups == old(groups) && groupId == old(groupId) && paidBy == old(paidBy)
      ensures customSplits == old(customSplits)
    {
      if email in selectedMembers {
        selectedMembers := Without(selectedMembers, email);
      } else {
        selectedMembers := selectedMembers + [email];
      }
    }

    /** Typing an amount into a member's custom field. */
    method EnterCustomAmount(email: Email, value: real)
      modifies this
      ensures customSplits == Assign(old(customSplits), email, value)
      ensures groups == old(groups) && groupId == old(groupId) && paidBy == old(paidBy)
      ensures selectedMembers == old(selectedMembers)
    {
      customSplits := Assign(customSplits, email, value);
    }

    /** Choosing who paid. */
    method ChoosePayer(email: Email)
      modifies this
      ensures paidBy == email
      ensures groups == old(groups) && groupId == old(groupId)
      ensures selectedMembers == old(selectedMembers) && customSplits == old(customSplits)
    {
      paidBy := email;
    }

    /** `parseFloat(amount) <= 0 || !title || !groupId || !paidBy || !category || selectedMembers.length === 0`. */
    predicate MissingInput(title: string, amount: real, category: string)
      reads this
    {
      amount <= 0.0 || title == "" || groupId.None? || paidBy == "" || category == "" || |selectedMembers| == 0
    }

    /** The sharing the form's split type selects, as written: a custom split uses every typed amount. */
    function SharesFor(splitType: SplitType, amount: real): Shares
      reads this
    {
      if splitType == Equal then EqualAmong(selectedMembers, amount)
      else CustomSharesAsWritten(customSplits, selectedMembers)
    }

    /**
     * `handleSubmit` up to the request: refused when the amount is not
     * positive, a required choice is empty or nobody is selected; a custom
     * split is then refused unless every typed amount together is within one
     * cent of the amount; only after that are the chosen group's members read,
     * and the request carries one entry per member.
     */
    function Submit(title: string, amount: real, category: string, date: Option<int>, splitType: SplitType)
      : (r: Result<ExpenseRequest, FormError>)
      reads this
      ensures r == Err(Incomplete) <==> MissingInput(title, amount, category)
      ensures r == Err(CustomMismatch) <==>
        && !MissingInput(title, amount, category)
        && splitType == Custom && Abs(EnteredTotal(customSplits) - amount) > 0.01
      ensures r == Err(NoGroupLoaded) <==>
        && !MissingInput(title, amount, category)
        && !(splitType == Custom && Abs(EnteredTotal(customSplits) - amount) > 0.01)
        && SelectedGroup().None?
      ensures r.Ok? <==>
        && !MissingInput(title, amount, category)
        && !(splitType == Custom && Abs(EnteredTotal(customSplits) - amount) > 0.01)
        && SelectedGroup().Some?
      ensures r.Ok? ==>
        r.value == ExpenseRequest(title, amount, category, date,
          Some(SentAll(BuildSplits(SelectedGroup().value.members, paidBy, amount, SharesFor(splitType, amount)))))
    {
      if MissingInput(title, amount, category) then Err(Incomplete)
      else if splitType == Custom && Abs(EnteredTotal(customSplits) - amount) > 0.01 then Err(CustomMismatch)
      else if SelectedGroup().None? then Err(NoGroupLoaded)
      else
        var members := SelectedGroup().value.members;
        Ok(ExpenseRequest(title, amount, category, date,
                          Some(SentAll(BuildSplits(members, paidBy, amount, SharesFor(splitType, amount))))))
    }
  }

  /**
   * With the payer listed exactly once, the built splits balance when the
   * shares owed are within a cent of the amount.
   */
  lemma BuiltSplitsBalanced(members: seq<Email>, payer: Email, amount: real, shares: Shares)
    requires Count(members, payer) == 1
    requires Abs(OwesTotal(members, shares) - amount) <= 0.01
    ensures Balanced(BuildSplits(members, payer, amount, shares), amount)
  {
    var splits := BuildSplits(members, payer, amount, shares);
    assert SumPaid(splits) == amount by { PayerListedOnce(members, payer, amount, shares); }
    assert Abs(SumOwes(splits) - amount) <= 0.01 by { OwedTotal(members, payer, amount, shares); }
  }

  /**
   * The server accepts a request carrying the built splits when title and
   * category are given, the amount is positive, the payer is listed exactly
   * once, the submitter is a member and the shares owed are within a cent of
   * the amount.
   */
  lemma BuiltRequestAccepted(g: Group, payer: Email, amount: real, shares: Shares,
                             title: string, category: string, date: int, actor: Email)
    requires title != "" && category != "" && amount > 0.0
    requires Count(g.members, payer) == 1 && actor in g.members
    requires Abs(OwesTotal(g.members, shares) - amount) <= 0.01
    ensures CheckExpense(ExpenseRequest(title, amount, category, Some(date),
                                        Some(SentAll(BuildSplits(g.members, payer, amount, shares)))),
                         Some(g), actor).Ok?
  {
    var splits := BuildSplits(g.members, payer, amount, shares);
    BuiltSplitsBalanced(g.members, payer, amount, shares);
    CountPositive(g.members, payer);
    var k :| 0 <= k < |g.members| && g.members[k] == payer;
    assert splits[k].paid == amount;
    BalancedSplitsAccepted(ExpenseRequest(title, amount, category, Some(date), Some(SentAll(splits))),
                           splits, g, actor, k);
  }

  /**
   * End to end: a request the form submits passes every server check when the
   * group's members are distinct, the payer and every selected or typed email
   * are members, the submitter is a member and a date is given.
   */
  lemma SubmittedExpenseAccepted(f: ExpenseForm, title: string, amount: real, category: string, date: int,
                                 splitType: SplitType, actor: Email)
    requires f.Submit(title, amount, category, Some(date), splitType).Ok?
    requires Distinct(f.SelectedGroup().value.members)
    requires f.paidBy in f.SelectedGroup().value.members
    requires actor in f.SelectedGroup().value.members
    requires Distinct(f.selectedMembers)
    requires forall x :: x in f.selectedMembers ==> x in f.SelectedGroup().value.members
    requires Distinct(Keys(f.customSplits))
    requires forall x :: x in Keys(f.customSplits) ==> x in f.SelectedGroup().value.members
    ensures CheckExpense(f.Submit(title, amount, category, Some(date), splitType).value, f.SelectedGroup(), actor).Ok?
  {
    var g := f.SelectedGroup().value;
    var shares := f.SharesFor(splitType, amount);
    assert !f.MissingInput(title, amount, category);
    assert Abs(OwesTotal(g.members, shares) - amount) <= 0.01 by {
      if splitType == Equal {
        EqualSharesAddUp(g.members, f.selectedMembers, amount);
      } else {
        EnteredSharesAddUp(g.members, f.customSplits);
      }
    }
    CountDistinct(g.members, f.paidBy);
    BuiltRequestAccepted(g, f.paidBy, amount, shares, title, category, date, actor);
  }

  /**
   * With the corrected sharing, the amounts owed add up to what the selected
   * members were given, so a corrected form would total only those.
   */
  lemma CorrectedSharesAddUp(members: seq<Email>, payer: Email, amount: real, c: Entries, selected: seq<Email>)
    requires Distinct(members) && Distinct(Keys(c))
    requires forall x :: x in Keys(c) ==> x in members
    ensures SumOwes(BuildSplits(members, payer, amount, CustomShares(c, selected))) == EnteredTotal(Restrict(c, selected))
  {
    OwedTotal(members, payer, amount, CustomShares(c, selected));
    EnteredSharesAddUp(members, Restrict(c, selected));
  }

  /** The categories the form offers. */
  const FormCategories: seq<string> :=
    ["Food & Drinks", "Transportation", "Accommodation", "Entertainment", "Utilities", "Other"]

  /** Every category the form offers is one the expense schema admits. */
  lemma FormCategoriesAdmitted()
    ensures forall i :: 0 <= i < |FormCategories| ==> ParseCategory(FormCategories[i]).Some?
  {
  }
}
