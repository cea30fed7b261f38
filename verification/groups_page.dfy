/**
 * The groups list page: a case-insensitive search over names and
 * descriptions, then one of three orders.
 */
module GroupsPage {
  import opened Wrappers
  import opened Text
  import opened Records
  import opened Sorting

  /** The order chosen in the sort menu; by date is also the default. */
  datatype SortKey = ByName | ByMembers | ByDate

  /** The name, or a non-empty description, contains the search term, ignoring case. */
  predicate Matches(g: Group, term: string) {
    || Contains(ToLower(g.name), ToLower(term))
    || (g.description.Some? && g.description.value != "" && Contains(ToLower(g.description.value), ToLower(term)))
  }

  /** The `filter` step: the matching groups, each as often as listed. */
  function Search(groups: seq<Group>, term: string): (r: seq<Group>)
    ensures forall g :: g in r <==> g in groups && Matches(g, term)
    ensures forall g :: multiset(r)[g] == if Matches(g, term) then multiset(groups)[g] else 0
  {
    if groups == [] then []
    else
      assert groups == [groups[0]] + groups[1..];
      var rest := Search(groups[1..], term);
      if Matches(groups[0], term) then [groups[0]] + rest else rest
  }

  /** `compare(a, b) <= 0` for each sort key. */
  function Order(key: SortKey): (Group, Group) -> bool {
    match key
    case ByName => (a: Group, b: Group) => LexLeq(a.name, b.name)
    case ByMembers => (a: Group, b: Group) => |a.members| >= |b.members|
    case ByDate => (a: Group, b: Group) => a.createdAt >= b.createdAt
  }

  lemma OrderIsTotalPreorder(key: SortKey)
    ensures TotalPreorder(Order(key))
  {
    if key == ByName {
      forall a: Group, b: Group ensures Order(key)(a, b) || Order(key)(b, a) {
        LexLeqTotal(a.name, b.name);
      }
      forall a: Group, b: Group, c: Group | Order(key)(a, b) && Order(key)(b, c) ensures Order(key)(a, c) {
        LexLeqTransitive(a.name, b.name, c.name);
      }
    }
  }

  /** `filteredAndSortedGroups`: the matching groups, each as often as listed, in the chosen order. */
  function FilteredAndSorted(groups: seq<Group>, term: string, key: SortKey): (r: seq<Group>)
    ensures multiset(r) == multiset(Search(groups, term))
    ensures forall g :: g in r <==> g in groups && Matches(g, term)
    ensures SortedBy(r, Order(key))
  {
    var found := Search(groups, term);
    OrderIsTotalPreorder(key);
    SortBySorted(found, Order(key));
    var r := SortBy(found, Order(key));
    assert forall g :: g in r <==> g in multiset(r);
    r
  }

  /** Every string contains the empty one, so an empty search keeps every group. */
  lemma EmptyTermKeepsAll(groups: seq<Group>, key: SortKey)
    ensures multiset(FilteredAndSorted(groups, "", key)) == multiset(groups)
  {
    forall g ensures Matches(g, "") {
      ContainsEmpty(ToLower(g.name));
    }
    assert forall g :: multiset(Search(groups, ""))[g] == multiset(groups)[g];
  }

  /** The members order: non-increasing member counts. */
  lemma MembersDescending(groups: seq<Group>, term: string)
    ensures var r := FilteredAndSorted(groups, term, ByMembers);
            forall i, j :: 0 <= i < j < |r| ==> |r[i].members| >= |r[j].members|
  {
    var r := FilteredAndSorted(groups, term, ByMembers);
    assert forall i, j :: 0 <= i < j < |r| ==> Order(ByMembers)(r[i], r[j]);
  }

  /** The date order: non-increasing creation times. */
  lemma NewestFirst(groups: seq<Group>, term: string)
    ensures var r := FilteredAndSorted(groups, term, ByDate);
            forall i, j :: 0 <= i < j < |r| ==> r[i].createdAt >= r[j].createdAt
  {
    var r := FilteredAndSorted(groups, term, ByDate);
    assert forall i, j :: 0 <= i < j < |r| ==> Order(ByDate)(r[i], r[j]);
  }

  /** The name order: ascending names. */
  lemma NamesAscending(groups: seq<Group>, term: string)
    ensures var r := FilteredAndSorted(groups, term, ByName);
            forall i, j :: 0 <= i < j < |r| ==> LexLeq(r[i].name, r[j].name)
  {
    var r := FilteredAndSorted(groups, term, ByName);
    assert forall i, j :: 0 <= i < j < |r| ==> Order(ByName)(r[i], r[j]);
  }

  /** The search ignores case: a term and its lowercase find the same groups. */
  lemma SearchIgnoresCase(groups: seq<Group>, term: string)
    ensures Search(groups, term) == Search(groups, ToLower(term))
  {
    ToLowerIdempotent(term);
    assert forall g :: Matches(g, term) == Matches(g, ToLower(term));
    SearchSameMatches(groups, term, ToLower(term));
  }

  lemma {:induction false} SearchSameMatches(groups: seq<Group>, t: string, u: string)
    requires forall g :: Matches(g, t) == Matches(g, u)
    ensures Search(groups, t) == Search(groups, u)
  {
    if groups != [] {
      SearchSameMatches(groups[1..], t, u);
    }
  }
}
