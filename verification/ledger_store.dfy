/**
 * The ledger's stored state and the three handlers that add to it: creating a
 * group, adding an expense and recording a payment. Each appends exactly one
 * record on success and nothing on failure, and announces the new record to
 * every member of the group.
 */
module LedgerStore {
  import opened Wrappers
  import opened ExpenseSchema
  import opened Records
  import opened ExpenseController
  import opened PaymentController
  import opened GroupController

  /** `members.forEach(m => io.to(m).emit(...))`: one event per member entry, in member order. */
  method FanOut(members: seq<Email>, payload: Created) returns (events: seq<Event>)
    ensures |events| == |members|
    ensures forall i :: 0 <= i < |members| ==> events[i] == Event(members[i], payload)
  {
    events := [];
    var i := 0;
    while i < |members|
      invariant 0 <= i <= |members|
      invariant |events| == i
      invariant forall k :: 0 <= k < i ==> events[k] == Event(members[k], payload)
    {
      events := events + [Event(members[i], payload)];
      i := i + 1;
    }
  }

  /** What a successful handler reports: the new record, the events sent, and the users emailed. */
  datatype Outcome = Outcome(record: Created, events: seq<Event>, emails: set<Email>)

  /** The group document a valid create-group request produces. */
  function GroupRecord(req: GroupRequest, actor: Actor, id: GroupId, now: int): (g: Group)
    requires GroupFieldsPresent(req)
    ensures actor.email in g.members
  {
    Group(id, req.name, req.description, WithCreator(req.members.value, actor.email), actor.id, now)
  }

  /**
   * The expense document an accepted request produces, or None when the schema
   * refuses it: an entry without a user, or a category outside the enumeration.
   * Each entry is stored with its missing numbers set to 0.
   */
  function ExpenseRecord(req: ExpenseRequest, id: GroupId, now: int): (e: Option<Expense>)
    requires FieldsPresent(req)
    ensures e.Some? <==> NewSplits(req.splits.value).Some? && ParseCategory(req.category).Some?
    ensures e.Some? ==>
      && e.value.splits == NewSplits(req.splits.value).value
      && e.value.groupId == id && e.value.amount == req.amount && e.value.title == req.title
      && e.value.date == req.date.value && e.value.createdAt == now
  {
    match NewSplits(req.splits.value)
    case None => None
    case Some(splits) =>
      ExpenseSchema.NewExpense(ExpenseFields(Some(id), Some(req.title), Some(req.amount), Some(req.category),
                               req.date, splits), now)
  }

  /** The payment document a settle-up request produces. */
  function PaymentRecord(req: PaymentRequest, id: GroupId, now: int): (p: Payment)
    ensures p.groupId == id && p.from == req.from && p.to == req.to && p.amount == req.amount
  {
    Payment(id, req.from, req.to, req.amount, now)
  }

  class Ledger {
    var groups: seq<Group>
    var expenses: seq<Expense>
    var payments: seq<Payment>

    /** Groups are numbered by position, so a new group's id is the number of groups before it. */
    ghost predicate Valid()
      reads this
    {
      IdsArePositions(groups)
    }

    constructor ()
      ensures Valid()
      ensures groups == [] && expenses == [] && payments == []
    {
      groups, expenses, payments := [], [], [];
    }

    /**
     * Creating a group: 400 without a name or members; otherwise the creator is
     * made a member, the group is stored, every member gets a `new_group` event,
     * and every other member who has not opted out is emailed.
     */
    method AddGroup(actor: Actor, req: GroupRequest, now: int, notifiable: set<Email>)
      returns (r: Result<Outcome, Failure>)
      requires Valid()
      modifies this
      ensures Valid()
      ensures expenses == old(expenses) && payments == old(payments)
      ensures r == Err(MissingFields) <==> !GroupFieldsPresent(req)
      ensures r == Err(SchemaRejected) <==>
        GroupFieldsPresent(req) && !MembersWellFormed(WithCreator(req.members.value, actor.email))
      ensures r.Ok? <==> GroupFieldsPresent(req) && MembersWellFormed(WithCreator(req.members.value, actor.email))
      ensures r.Err? ==> groups == old(groups)
      ensures r.Ok? ==>
        var g := GroupRecord(req, actor, |old(groups)|, now);
        && groups == old(groups) + [g]
        && actor.email in g.members
        && r.value.record == NewGroup(g)
        && |r.value.events| == |g.members|
        && (forall i :: 0 <= i < |g.members| ==> r.value.events[i] == Event(g.members[i], NewGroup(g)))
        && r.value.emails == GroupInvitees(g.members, actor.email, notifiable)
    {
      if req.name == "" || req.members.None? || |req.members.value| == 0 {
        return Err(MissingFields);
      }
      var members := req.members.value;
      if actor.email !in members {
        members := members + [actor.email];
      }
      if !MembersWellFormed(members) {
        return Err(SchemaRejected);
      }
      var g := Group(|groups|, req.name, req.description, members, actor.id, now);
      groups := groups + [g];
      var events := FanOut(members, NewGroup(g));
      var emails := GroupInvitees(members, actor.email, notifiable);
      r := Ok(Outcome(NewGroup(g), events, emails));
    }

    /**
     * Adding an expense: 400 without the required fields; a malformed id makes
     * `findById` throw (500); then the remaining checks of `CheckExpense` in
     * their order, then the schema. On success exactly one expense, with the
     * entries as the schema stores them, is appended, every member gets one
     * `new_expense` event in member order, and the participants other than the
     * first payer who have not opted out are emailed. On any failure nothing is
     * stored.
     */
    method AddExpense(id: Option<GroupId>, actor: Actor, req: ExpenseRequest, now: int, notifiable: set<Email>)
      returns (r: Result<Outcome, Failure>)
      requires Valid()
      modifies this
      ensures Valid()
      ensures groups == old(groups) && payments == old(payments)
      ensures r.Err? ==> expenses == old(expenses)
      ensures r == Err(MissingFields) <==> !FieldsPresent(req)
      ensures r == Err(Thrown) <==> FieldsPresent(req) && id.None?
      ensures id.Some? && CheckExpense(req, FindGroup(groups, id.value), actor.email).Err? ==>
        r == Err(CheckExpense(req, FindGroup(groups, id.value), actor.email).error)
      ensures r == Err(SchemaRejected) <==>
        id.Some? && CheckExpense(req, FindGroup(groups, id.value), actor.email).Ok?
        && ExpenseRecord(req, id.value, now).None?
      ensures r.Ok? <==>
        id.Some? && CheckExpense(req, FindGroup(groups, id.value), actor.email).Ok?
        && ExpenseRecord(req, id.value, now).Some?
      ensures r.Ok? ==>
        var accepted := CheckExpense(req, FindGroup(groups, id.value), actor.email);
        var e := ExpenseRecord(req, id.value, now);
        && accepted.Ok? && e.Some?
        && expenses == old(expenses) + [e.value]
        && e.value.splits == NewSplits(req.splits.value).value
        && r.value.record == NewExpense(e.value)
        && |r.value.events| == |accepted.value.group.members|
        && (forall i :: 0 <= i < |accepted.value.group.members| ==>
              r.value.events[i] == Event(accepted.value.group.members[i], NewExpense(e.value)))
        && accepted.value.payer.user.Some?
        && r.value.emails == EmailRecipients(e.value.splits, accepted.value.payer.user.value, notifiable)
    {
      if !FieldsPresent(req) {
        return Err(MissingFields);
      }
      if id.None? {
        return Err(Thrown);
      }
      var checked := CheckExpense(req, FindGroup(groups, id.value), actor.email);
      if checked.Err? {
        return Err(checked.error);
      }
      var created := ExpenseRecord(req, id.value, now);
      if created.None? {
        return Err(SchemaRejected);
      }
      var e := created.value;
      var payer := checked.value.payer;
      var k :| 0 <= k < |req.splits.value| && req.splits.value[k] == payer;
      assert NewSplit(req.splits.value[k]).Some?;
      expenses := expenses + [e];
      var events := FanOut(checked.value.group.members, NewExpense(e));
      var emails := EmailRecipients(e.splits, payer.user.value, notifiable);
      r := Ok(Outcome(NewExpense(e), events, emails));
    }

    /**
     * Recording a payment: 400 without from, to or amount; a malformed id makes
     * `findById` throw (500); then the rest of the guard chain of
     * `CheckPayment`. On success exactly one payment carrying the given group,
     * parties and amount is appended and every member gets one `new_payment`
     * event. On failure nothing is stored.
     */
    method SettleUp(id: Option<GroupId>, actor: Actor, req: PaymentRequest, now: int)
      returns (r: Result<Outcome, Failure>)
      requires Valid()
      modifies this
      ensures Valid()
      ensures groups == old(groups) && expenses == old(expenses)
      ensures r.Err? ==> payments == old(payments)
      ensures r == Err(MissingFields) <==> !PaymentFieldsPresent(req)
      ensures r == Err(Thrown) <==> PaymentFieldsPresent(req) && id.None?
      ensures id.Some? ==> (r.Err? <==> CheckPayment(req, FindGroup(groups, id.value), actor.email).Err?)
      ensures id.Some? && r.Err? ==> r.error == CheckPayment(req, FindGroup(groups, id.value), actor.email).error
      ensures r.Ok? <==> id.Some? && CheckPayment(req, FindGroup(groups, id.value), actor.email).Ok?
      ensures r.Ok? && id.Some? ==>
        var g := CheckPayment(req, FindGroup(groups, id.value), actor.email).value;
        var p := PaymentRecord(req, id.value, now);
        && payments == old(payments) + [p]
        && r.value.record == NewPayment(p)
        && |r.value.events| == |g.members|
        && (forall i :: 0 <= i < |g.members| ==> r.value.events[i] == Event(g.members[i], NewPayment(p)))
        && r.value.emails == {}
    {
      if !PaymentFieldsPresent(req) {
        return Err(MissingFields);
      }
      if id.None? {
        return Err(Thrown);
      }
      var checked := CheckPayment(req, FindGroup(groups, id.value), actor.email);
      if checked.Err? {
        return Err(checked.error);
      }
      var p := PaymentRecord(req, id.value, now);
      payments := payments + [p];
      var events := FanOut(checked.value.members, NewPayment(p));
      r := Ok(Outcome(NewPayment(p), events, {}));
    }
  }

  /** After a group is created, a request acting for its creator finds it. */
  lemma CreatorCanOpenNewGroup(groups: seq<Group>, req: GroupRequest, actor: Actor, now: int)
    requires IdsArePositions(groups) && GroupFieldsPresent(req)
    ensures GroupById(groups + [GroupRecord(req, actor, |groups|, now)], Some(|groups|), actor)
            == Ok(GroupRecord(req, actor, |groups|, now))
  {
    var all := groups + [GroupRecord(req, actor, |groups|, now)];
    assert IdsArePositions(all);
    FindGroupByPosition(all, |groups|);
  }
}
