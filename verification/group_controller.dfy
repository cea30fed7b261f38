/**
 * The group handlers: creating a group (its checks, the creator's membership
 * and who is told), fetching one group with its access rule, and listing the
 * user's groups.
 */
module GroupController {
  import opened Wrappers
  import opened Records
  import opened Sorting

  /** The body of a create-group request. An absent name is "". */
  datatype GroupRequest = GroupRequest(name: string, description: Option<string>, members: Option<seq<Email>>)

  /** A name and a non-empty members list are required. */
  predicate GroupFieldsPresent(req: GroupRequest) {
    req.name != "" && req.members.Some? && |req.members.value| > 0
  }

  /**
   * The members a new group is stored with: the requested list, with the
   * creator appended at the end when absent. The prior order and any duplicates
   * of other emails are kept.
   */
  function WithCreator(members: seq<Email>, creator: Email): (r: seq<Email>)
    ensures creator in r
    ensures |r| >= |members| && r[..|members|] == members
    ensures creator in members ==> r == members
    ensures creator !in members ==> |r| == |members| + 1
    ensures multiset(r) == multiset(members) + (if creator in members then multiset{} else multiset{creator})
  {
    if creator in members then members else members + [creator]
  }

  /** Everybody the new group's email goes to: its members other than the creator, unless they opted out. */
  function GroupInvitees(members: seq<Email>, creator: Email, notifiable: set<Email>): (r: set<Email>)
    ensures forall x :: x in r <==> x in members && x != creator && x in notifiable
  {
    set x | x in members && x != creator && x in notifiable
  }

  /** Every member of a group is a non-empty string, as the group schema requires. */
  predicate MembersWellFormed(members: seq<Email>) {
    forall i :: 0 <= i < |members| ==> members[i] != ""
  }

  /**
   * Fetching one group: a malformed id makes `findById` throw (500); then 404
   * when there is no group with that id, then 403 unless the caller created it
   * or is one of its members.
   */
  function GroupById(groups: seq<Group>, id: Option<GroupId>, actor: Actor): (r: Result<Group, Failure>)
    ensures r == Err(Thrown) <==> id.None?
    ensures id.Some? ==> (FindGroup(groups, id.value).None? <==> r == Err(GroupNotFound))
    ensures id.Some? && FindGroup(groups, id.value).Some? ==>
      var g := FindGroup(groups, id.value).value;
      && (r.Ok? <==> g.createdBy == actor.id || actor.email in g.members)
      && (r.Ok? ==> r.value == g)
      && (r.Err? ==> r.error == NoAccess)
  {
    match id
    case None => Err(Thrown)
    case Some(gid) =>
      match FindGroup(groups, gid)
      case None => Err(GroupNotFound)
      case Some(g) =>
        if g.createdBy != actor.id && actor.email !in g.members then Err(NoAccess) else Ok(g)
  }

  /** The groups whose members contain the email, in store order. */
  function GroupsWithMember(groups: seq<Group>, email: Email): (r: seq<Group>)
    ensures forall g :: g in r <==> g in groups && email in g.members
    ensures forall g :: multiset(r)[g] == if email in g.members then multiset(groups)[g] else 0
  {
    if groups == [] then []
    else
      assert groups == [groups[0]] + groups[1..];
      var rest := GroupsWithMember(groups[1..], email);
      if email in groups[0].members then [groups[0]] + rest else rest
  }

  /** `sort({ createdAt: -1 })`: newest first. */
  predicate NewerGroup(a: Group, b: Group) {
    a.createdAt >= b.createdAt
  }

  /** Listing groups: exactly the groups the user's email is a member of, newest first. */
  function GroupsOf(groups: seq<Group>, email: Email): (r: seq<Group>)
    ensures forall g :: g in r <==> g in groups && email in g.members
    ensures multiset(r) == multiset(GroupsWithMember(groups, email))
    ensures SortedBy(r, NewerGroup)
  {
    var listed := SortBy(GroupsWithMember(groups, email), NewerGroup);
    assert TotalPreorder(NewerGroup);
    SortBySorted(GroupsWithMember(groups, email), NewerGroup);
    assert forall g :: g in listed <==> g in multiset(listed);
    listed
  }
}
