/**
 * The settle-up form: choosing a group fills in its members and makes the
 * signed-in user the payer; submitting runs three guards before the payment
 * request is sent.
 */
module SettleUpPage {
  import opened Wrappers
  import opened Records
  import opened PaymentController

  /** Why the form refuses to send. */
  datatype SettleError =
    | FieldsMissing  // "Please fill out all fields."
    | SamePerson     // "Payer and recipient cannot be the same person."
    | NotPositive    // "Amount must be greater than zero."

  class SettleForm {
    var groups: seq<Group>
    var selectedGroupId: Option<GroupId>
    var members: seq<Email>
    var fromUser: Email
    var toUser: Email
    /** The amount field: None while it is empty. */
    var amount: Option<real>

    constructor (preselected: Option<GroupId>)
      ensures groups == [] && selectedGroupId == preselected && members == []
      ensures fromUser == "" && toUser == "" && amount == None
    {
      groups, selectedGroupId, members := [], preselected, [];
      fromUser, toUser, amount := "", "", None;
    }

    /**
     * The effect that runs whenever the selection or the loaded groups change:
     * a known group supplies the members and makes `me` the payer; no
     * selection empties the members; an unknown id changes nothing.
     */
    method SyncMembers(me: Email)
      modifies this
      ensures groups == old(groups) && selectedGroupId == old(selectedGroupId)
      ensures toUser == old(toUser) && amount == old(amount)
      ensures selectedGroupId.None? ==> members == [] && fromUser == old(fromUser)
      ensures selectedGroupId.Some? && FindGroup(groups, selectedGroupId.value).Some? ==>
        members == FindGroup(groups, selectedGroupId.value).value.members && fromUser == me
      ensures selectedGroupId.Some? && FindGroup(groups, selectedGroupId.value).None? ==>
        members == old(members) && fromUser == old(fromUser)
    {
      if selectedGroupId.Some? {
        var g := FindGroup(groups, selectedGroupId.value);
        if g.Some? {
          members := g.value.members;
          fromUser := me;
        }
      } else {
        members := [];
      }
    }

    /** Picking a group (or clearing the choice), followed by the effect. */
    method SelectGroup(id: Option<GroupId>, me: Email)
      modifies this
      ensures selectedGroupId == id && groups == old(groups)
      ensures toUser == old(toUser) && amount == old(amount)
      ensures id.None? ==> members == [] && fromUser == old(fromUser)
      ensures id.Some? && FindGroup(groups, id.value).Some? ==>
        members == FindGroup(groups, id.value).value.members && fromUser == me
      ensures id.Some? && FindGroup(groups, id.value).None? ==>
        members == old(members) && fromUser == old(fromUser)
    {
      selectedGroupId := id;
      SyncMembers(me);
    }

    /** The groups arriving from the server, followed by the effect. */
    method GroupsLoaded(loaded: seq<Group>, me: Email)
      modifies this
      ensures groups == loaded && selectedGroupId == old(selectedGroupId)
      ensures toUser == old(toUser) && amount == old(amount)
      ensures selectedGroupId.None? ==> members == [] && fromUser == old(fromUser)
      ensures selectedGroupId.Some? && FindGroup(loaded, selectedGroupId.value).Some? ==>
        members == FindGroup(loaded, selectedGroupId.value).value.members && fromUser == me
      ensures selectedGroupId.Some? && FindGroup(loaded, selectedGroupId.value).None? ==>
        members == old(members) && fromUser == old(fromUser)
    {
      groups := loaded;
      SyncMembers(me);
    }

    /** Filling in the recipient, the payer and the amount. */
    method EditParties(from: Email, to: Email, value: Option<real>)
      modifies this
      ensures fromUser == from && toUser == to && amount == value
      ensures groups == old(groups) && selectedGroupId == old(selectedGroupId) && members == old(members)
    {
      fromUser, toUser, amount := from, to, value;
    }

    /**
     * `handleSubmit` up to the request: the group and the request body, or
     * the first guard that fails — empty field, then same person, then an
     * amount that is not positive.
     */
    function Submit(): (r: Result<(GroupId, PaymentRequest), SettleError>)
      reads this
      ensures r == Err(FieldsMissing) <==>
        selectedGroupId.None? || fromUser == "" || toUser == "" || amount.None?
      ensures r == Err(SamePerson) <==>
        !(selectedGroupId.None? || fromUser == "" || toUser == "" || amount.None?) && fromUser == toUser
      ensures r == Err(NotPositive) <==>
        !(selectedGroupId.None? || fromUser == "" || toUser == "" || amount.None?) && fromUser != toUser
        && amount.value <= 0.0
      ensures r.Ok? ==> r.value == (selectedGroupId.value, PaymentRequest(fromUser, toUser, amount.value))
    {
      if selectedGroupId.None? || fromUser == "" || toUser == "" || amount.None? then Err(FieldsMissing)
      else if fromUser == toUser then Err(SamePerson)
      else if amount.value <= 0.0 then Err(NotPositive)
      else Ok((selectedGroupId.value, PaymentRequest(fromUser, toUser, amount.value)))
    }
  }

  /**
   * A request the form sends, for a group that exists and has the sender as a
   * member, passes the server's checks; and it carries the two checks the
   * server leaves out: distinct parties and a positive amount.
   */
  lemma SubmittedPaymentAccepted(f: SettleForm, store: seq<Group>, actor: Email)
    requires f.Submit().Ok?
    requires FindGroup(store, f.Submit().value.0).Some?
    requires actor in FindGroup(store, f.Submit().value.0).value.members
    ensures var (id, req) := f.Submit().value;
            && CheckPayment(req, FindGroup(store, id), actor).Ok?
            && req.from != req.to && req.amount > 0.0
  {
  }

  /** The form refuses a payment to oneself that the server would take. */
  lemma FormStricterThanServer(f: SettleForm, g: Group, actor: Email)
    requires f.selectedGroupId.Some? && f.amount.Some? && f.amount.value > 0.0
    requires f.fromUser != "" && f.fromUser == f.toUser
    requires actor in g.members
    ensures f.Submit() == Err(SamePerson)
    ensures CheckPayment(PaymentRequest(f.fromUser, f.toUser, f.amount.value), Some(g), actor).Ok?
  {
  }
}
