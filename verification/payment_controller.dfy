/** The settle-up handler's checks and the payment record it stores. */
module PaymentController {
  import opened Wrappers
  import opened Records

  /** The body of a settle-up request. An absent party is "", an absent amount is 0. */
  datatype PaymentRequest = PaymentRequest(from: Email, to: Email, amount: real)

  /** `from`, `to` and `amount` are all truthy (an amount of 0 is falsy; a negative one is not). */
  predicate PaymentFieldsPresent(req: PaymentRequest) {
    req.from != "" && req.to != "" && req.amount != 0.0
  }

  /**
   * The guard chain, in order: fields present (400), group exists (404), acting
   * user is a member (403). Nothing else is checked: not the parties'
   * membership, not that they differ, not the amount's sign.
   */
  function CheckPayment(req: PaymentRequest, group: Option<Group>, actor: Email): (r: Result<Group, Failure>)
    ensures r == Err(MissingFields) <==> !PaymentFieldsPresent(req)
    ensures r == Err(GroupNotFound) <==> PaymentFieldsPresent(req) && group.None?
    ensures r == Err(NotAMember) <==> PaymentFieldsPresent(req) && group.Some? && actor !in group.value.members
    ensures r.Ok? <==> PaymentFieldsPresent(req) && group.Some? && actor in group.value.members
    ensures r.Ok? ==> r.value == group.value
  {
    if req.from == "" || req.to == "" || req.amount == 0.0 then Err(MissingFields)
    else if group.None? then Err(GroupNotFound)
    else if actor !in group.value.members then Err(NotAMember)
    else Ok(group.value)
  }

  /**
   * Any member may record a payment between any two parties: outsiders, a party
   * paying themself and negative amounts all pass.
   */
  lemma PartiesUnchecked(group: Group, actor: Email, outsider: Email)
    requires actor in group.members && outsider != "" && outsider !in group.members
    ensures CheckPayment(PaymentRequest(outsider, outsider, -5.0), Some(group), actor) == Ok(group)
  {
  }
}
