/**
 * `POST /api/create-payment-intent`: the donation creation guard and the
 * insert of one `pending` donation. `paymentClient.create` is the
 * MercadoPago SDK; its result enters as a parameter.
 */
module PaymentIntent {
  import opened Common
  import opened Schema
  import opened Donations

  /** R$ 2.00 and R$ 1,000.00, in cents. */
  const MinDonationCents := 200
  const MaxDonationCents := 100000

  /** `{ amount, ecopointId }`: the amount in cents (`None` when missing)
      and the ecopoint id ("" when missing). */
  datatype DonationRequest = DonationRequest(amount: Option<int>, ecopointId: string)

  datatype Reason =
    | AmountOutOfRange
    | MissingEcopoint
    | Unauthenticated
    | EcopointNotFound
    | NotValidated
    | DonationsDisabled
    | ProviderFailed
    | InsertFailed

  /** The answer's status: 401 and 404 for their own refusals, 500 exactly
      when the provider or the insert failed, and 400 otherwise. */
  function HttpStatus(r: Reason): (status: int)
    ensures status == 500 <==> r.ProviderFailed? || r.InsertFailed?
    ensures status == 401 <==> r.Unauthenticated?
    ensures status in {400, 401, 404, 500}
  {
    match r
    case Unauthenticated => 401
    case EcopointNotFound => 404
    case ProviderFailed | InsertFailed => 500
    case _ => 400
  }

  /** `!amount || amount < MIN || amount > MAX`: zero and a missing amount
      are both refused. */
  predicate AmountAccepted(amount: Option<int>) {
    amount.Some? && amount.value != 0 && MinDonationCents <= amount.value <= MaxDonationCents
  }

  /** The checks before the provider is called, in the source's order. */
  function Guard(req: DonationRequest, caller: Option<Id>, ecopoints: map<Id, Ecopoint>): (r: Option<Reason>)
    ensures !AmountAccepted(req.amount) ==> r == Some(AmountOutOfRange)
    ensures AmountAccepted(req.amount) && req.ecopointId == "" ==> r == Some(MissingEcopoint)
    ensures AmountAccepted(req.amount) && req.ecopointId != "" && caller.None? ==> r == Some(Unauthenticated)
    ensures r.None? <==>
      AmountAccepted(req.amount) && req.ecopointId != "" && caller.Some?
      && req.ecopointId in ecopoints
      && ecopoints[req.ecopointId].status == EcopointStatus.Validated
      && ecopoints[req.ecopointId].acceptsDonations
  {
    if !AmountAccepted(req.amount) then Some(AmountOutOfRange)
    else if req.ecopointId == "" then Some(MissingEcopoint)
    else if caller.None? then Some(Unauthenticated)
    else if req.ecopointId !in ecopoints then Some(EcopointNotFound)
    else if ecopoints[req.ecopointId].status != EcopointStatus.Validated then Some(NotValidated)
    else if !ecopoints[req.ecopointId].acceptsDonations then Some(DonationsDisabled)
    else None
  }

  /** The amount is refused before authentication is looked at: the answer
      to an out-of-range amount does not depend on the caller. */
  lemma AmountCheckedBeforeAuth(req: DonationRequest, c1: Option<Id>, c2: Option<Id>, ecopoints: map<Id, Ecopoint>)
    requires !AmountAccepted(req.amount)
    ensures Guard(req, c1, ecopoints) == Guard(req, c2, ecopoints) == Some(AmountOutOfRange)
    ensures HttpStatus(AmountOutOfRange) == 400
  {
  }

  /** A donation passes the guard only for an existing, validated ecopoint
      that accepts donations; otherwise the answer is 404 or 400. */
  lemma EcopointGate(req: DonationRequest, caller: Id, ecopoints: map<Id, Ecopoint>)
    requires AmountAccepted(req.amount) && req.ecopointId != ""
    ensures req.ecopointId !in ecopoints ==> Guard(req, Some(caller), ecopoints) == Some(EcopointNotFound)
    ensures req.ecopointId in ecopoints && ecopoints[req.ecopointId].status != EcopointStatus.Validated ==>
      Guard(req, Some(caller), ecopoints) == Some(NotValidated)
    ensures req.ecopointId in ecopoints && ecopoints[req.ecopointId].status == EcopointStatus.Validated
            && !ecopoints[req.ecopointId].acceptsDonations ==>
      Guard(req, Some(caller), ecopoints) == Some(DonationsDisabled)
  {
  }

  /** The created MercadoPago payment: its id's text, when present. */
  datatype ProviderPayment = ProviderPayment(id: Option<string>)

  /** The `donations` row the handler inserts: status `pending`, the caller
      as donor, the requested amount (the column holds `amount / 100` reais,
      which is exactly this many cents) and the provider id or "". */
  function PendingDonation(req: DonationRequest, caller: Id, payment: ProviderPayment,
                           newId: Id, now: int): (d: Donation)
    requires AmountAccepted(req.amount)
    ensures d.status == DonationStatus.Pending && d.userId == caller && d.ecopointId == req.ecopointId
    ensures d.amount == req.amount.value && MinDonationCents <= d.amount <= MaxDonationCents
    ensures d.paymentId == IdText(payment.id)
  {
    Donation(newId, req.ecopointId, caller, req.amount.value, IdText(payment.id), DonationStatus.Pending, now)
  }

  datatype Response = Created(paymentId: string) | Refused(reason: Reason)

  /** The handler: the guard, the provider call, then the insert. When the
      insert fails the answer is 500 although the provider payment exists
      (`providerCalled`). */
  method CreatePaymentIntent(table: DonationTable, req: DonationRequest, caller: Option<Id>,
                             ecopoints: map<Id, Ecopoint>, created: Remote<ProviderPayment>,
                             insertSucceeds: bool, newId: Id, now: int)
    returns (resp: Response, providerCalled: bool)
    modifies table
    ensures providerCalled <==> Guard(req, caller, ecopoints).None?
    ensures Guard(req, caller, ecopoints).Some? ==> resp == Refused(Guard(req, caller, ecopoints).value)
    ensures resp.Created? <==> Guard(req, caller, ecopoints).None? && created.Success? && insertSucceeds
    ensures resp.Created? ==>
      table.rows == old(table.rows) + [PendingDonation(req, caller.value, created.data, newId, now)]
      && resp.paymentId == IdText(created.data.id)
    ensures !resp.Created? ==> table.rows == old(table.rows)
    ensures providerCalled && created.Success? && !insertSucceeds ==> resp == Refused(InsertFailed)
    ensures table.reputationCalls == old(table.reputationCalls)
  {
    var refusal := Guard(req, caller, ecopoints);
    if refusal.Some? {
      return Refused(refusal.value), false;
    }
    providerCalled := true;
    if created.Failure? {
      return Refused(ProviderFailed), providerCalled;
    }
    if !insertSucceeds {
      return Refused(InsertFailed), providerCalled;
    }
    var donation := PendingDonation(req, caller.value, created.data, newId, now);
    table.rows := table.rows + [donation];
    resp := Created(IdText(created.data.id));
  }
}
