/**
 * The group and payment documents, the acting user, the errors the request
 * handlers raise, and the real-time events they emit.
 */
module Records {
  import opened Wrappers
  import opened ExpenseSchema

  /** Users are referred to by their (normalised) email address. */
  type Email = string

  /** Document identities are abstract; the store numbers groups 0, 1, 2, ... */
  type GroupId = nat
  type UserId = nat

  /** The already-authenticated user a request acts for. */
  datatype Actor = Actor(id: UserId, email: Email)

  /** A group: its members are emails, kept in insertion order; `createdBy` is the creator's id. */
  datatype Group = Group(
    id: GroupId,
    name: string,
    description: Option<string>,
    members: seq<Email>,
    createdBy: UserId,
    createdAt: int)

  /** A settling payment inside a group. */
  datatype Payment = Payment(groupId: GroupId, from: Email, to: Email, amount: real, createdAt: int)

  /** The errors the ledger handlers raise. */
  datatype Failure =
    | MissingFields     // a required request field is falsy
    | GroupNotFound     // no group with that id (or, for listing expenses, none the user belongs to)
    | NotAMember        // the acting user is not in the group's members
    | NoAccess          // neither the creator nor a member
    | SplitSumMismatch  // the splits do not add up to the amount
    | NoPayer           // no split has paid > 0
    | InvalidId         // the id is not a well-formed document id
    | SchemaRejected    // the document schema refused the record
    | Thrown            // an exception without a status, such as an id the ObjectId constructor refuses

  /** The HTTP status each error is reported with. */
  function Status(f: Failure): (code: int)
    ensures code in {400, 403, 404, 500}
    ensures code == 400 <==> f in {MissingFields, SplitSumMismatch, NoPayer, InvalidId}
    ensures code == 403 <==> f in {NotAMember, NoAccess}
    ensures code == 404 <==> f == GroupNotFound
    ensures code == 500 <==> f in {SchemaRejected, Thrown}
  {
    match f
    case MissingFields => 400
    case GroupNotFound => 404
    case NotAMember => 403
    case NoAccess => 403
    case SplitSumMismatch => 400
    case NoPayer => 400
    case InvalidId => 400
    case SchemaRejected => 500
    case Thrown => 500
  }

  /** What a real-time event carries: the record just created. */
  datatype Created = NewGroup(group: Group) | NewExpense(expense: Expense) | NewPayment(payment: Payment)

  /** One event sent to one member's room. */
  datatype Event = Event(room: Email, payload: Created)

  /** `findById`: the first group with the given id. */
  function FindGroup(groups: seq<Group>, id: GroupId): (r: Option<Group>)
    ensures r.Some? ==> r.value in groups && r.value.id == id
    ensures r.None? <==> forall i :: 0 <= i < |groups| ==> groups[i].id != id
  {
    if groups == [] then None
    else if groups[0].id == id then Some(groups[0])
    else FindGroup(groups[1..], id)
  }

  /** Group ids are their positions, the numbering the store keeps. */
  ghost predicate IdsArePositions(groups: seq<Group>) {
    forall i :: 0 <= i < |groups| ==> groups[i].id == i
  }

  /** With ids numbered by position, finding a group is indexing. */
  lemma FindGroupByPosition(groups: seq<Group>, id: GroupId)
    requires IdsArePositions(groups)
    ensures FindGroup(groups, id) == if id < |groups| then Some(groups[id]) else None
  {
    if id < |groups| {
      assert groups[id].id == id;
      var r := FindGroup(groups, id);
      var k :| 0 <= k < |groups| && groups[k] == r.value;
    }
  }
}
