/**
 * Donation status reconciliation: the MercadoPago and Stripe webhook
 * handlers. Each provider's notification is mapped, purely, to a shared
 * `Transition` (a payment id and the status to write, or nothing to do);
 * the `donations` table then updates every row carrying that payment id,
 * whatever its current status, and a completed payment with a donor in its
 * metadata requests a reputation increment.
 *
 * The provider SDK calls (`paymentClient.get`, `constructEvent`) enter as
 * their results; `increment_user_reputation` is recorded as a request,
 * since its body is not part of this model and its error is swallowed.
 */
module Donations {
  import opened Common
  import opened Schema

  /** +10 reputation points and +1 donation per completed payment. */
  const DonationPoints := 10

  /** The shared shape both providers are mapped to. `donor` is the
      `user_id` metadata ("" when absent). */
  datatype Transition =
    | MarkCompleted(paymentId: string, donor: Id)
    | MarkFailed(paymentId: string)
    | NoChange

  /** What a webhook does: answer at once with a status, or apply a
      transition and answer 200 (500 when the donation update fails). */
  datatype Dispatch = Reply(status: int) | Apply(transition: Transition)

  // ---------------------------------------------------------------------
  // MercadoPago

  /** The `{ type, data }` body; `dataId` is "" when `data.id` is missing. */
  datatype MpNotification = MpNotification(kind: string, dataId: string)

  /** A payment fetched with `paymentClient.get`; `id` is its decimal text
      when present, `metadataUserId` is "" when absent. */
  datatype MpPayment = MpPayment(id: Option<string>, status: string, metadataUserId: Id)

  /** `payment.id?.toString() || ''`. */
  function IdText(id: Option<string>): (t: string)
    ensures id.None? ==> t == ""
    ensures id.Some? ==> t == id.value
  {
    match id
    case None => ""
    case Some(s) => s
  }

  /** The status `switch`. */
  function MercadoPagoTransition(p: MpPayment): (t: Transition)
    ensures t.MarkCompleted? <==> p.status == "approved"
    ensures t.MarkFailed? <==> p.status in {"rejected", "cancelled"}
    ensures t.NoChange? <==> p.status !in {"approved", "rejected", "cancelled"}
    ensures !t.NoChange? ==> t.paymentId == IdText(p.id)
    ensures t.MarkCompleted? ==> t.donor == p.metadataUserId
  {
    if p.status == "approved" then MarkCompleted(IdText(p.id), p.metadataUserId)
    else if p.status == "rejected" || p.status == "cancelled" then MarkFailed(IdText(p.id))
    else NoChange
  }

  /** The MercadoPago `POST`: a non-payment notification is acknowledged, a
      payment notification without id is a 400, a failed fetch throws (500),
      otherwise the fetched status is dispatched. */
  function MercadoPagoDispatch(n: MpNotification, fetched: Remote<MpPayment>): (d: Dispatch)
    ensures n.kind != "payment" ==> d == Reply(200)
    ensures n.kind == "payment" && n.dataId == "" ==> d == Reply(400)
    ensures n.kind == "payment" && n.dataId != "" && fetched.Failure? ==> d == Reply(500)
    ensures d.Apply? <==> n.kind == "payment" && n.dataId != "" && fetched.Success?
    ensures d.Apply? ==> d.transition == MercadoPagoTransition(fetched.data)
  {
    if n.kind != "payment" then Reply(200)
    else if n.dataId == "" then Reply(400)
    else match fetched
      case Failure => Reply(500)
      case Success(p) => Apply(MercadoPagoTransition(p))
  }

  // ---------------------------------------------------------------------
  // Stripe

  /** An event that passed `constructEvent`: its type, the payment intent's
      id and its `metadata.user_id` ("" when absent). */
  datatype StripeEvent = StripeEvent(kind: string, intentId: string, metadataUserId: Id)

  /** The event-type `switch`. */
  function StripeTransition(e: StripeEvent): (t: Transition)
    ensures t.MarkCompleted? <==> e.kind == "payment_intent.succeeded"
    ensures t.MarkFailed? <==> e.kind in {"payment_intent.payment_failed", "payment_intent.canceled"}
    ensures !t.NoChange? ==> t.paymentId == e.intentId
    ensures t.MarkCompleted? ==> t.donor == e.metadataUserId
  {
    if e.kind == "payment_intent.succeeded" then MarkCompleted(e.intentId, e.metadataUserId)
    else if e.kind == "payment_intent.payment_failed" || e.kind == "payment_intent.canceled"
    then MarkFailed(e.intentId)
    else NoChange
  }

  /** The Stripe `POST`: a missing `stripe-signature` header and an event
      that `constructEvent` rejects (`None`) are both 400. */
  function StripeDispatch(signature: string, verified: Option<StripeEvent>): (d: Dispatch)
    ensures signature == "" ==> d == Reply(400)
    ensures signature != "" && verified.None? ==> d == Reply(400)
    ensures d.Apply? <==> signature != "" && verified.Some?
    ensures d.Apply? ==> d.transition == StripeTransition(verified.value)
  {
    if signature == "" then Reply(400)
    else match verified
      case None => Reply(400)
      case Some(e) => Apply(StripeTransition(e))
  }

  // ---------------------------------------------------------------------
  // The effect on the donations table

  /** `.update({ status }).eq('payment_id', paymentId)`. */
  function SetStatusWhere(rows: seq<Donation>, paymentId: string, status: DonationStatus): (r: seq<Donation>)
    ensures |r| == |rows|
  {
    seq(|rows|, i requires 0 <= i < |rows| =>
      if rows[i].paymentId == paymentId then rows[i].(status := status) else rows[i])
  }

  /** The rows after a dispatch; a failed update changes nothing. */
  function NextRows(rows: seq<Donation>, d: Dispatch, updateSucceeds: bool): (r: seq<Donation>)
    ensures |r| == |rows|
    ensures !updateSucceeds || d.Reply? || d.transition.NoChange? ==> r == rows
    ensures forall i :: 0 <= i < |rows| ==> r[i] == rows[i] || r[i] == rows[i].(status := r[i].status)
    ensures updateSucceeds && d.Apply? && !d.transition.NoChange? ==>
      forall i :: 0 <= i < |rows| ==>
        if rows[i].paymentId == d.transition.paymentId
        then r[i].status == (if d.transition.MarkCompleted? then DonationStatus.Completed else DonationStatus.Failed)
        else r[i] == rows[i]
  {
    if !updateSucceeds then rows
    else match d
      case Apply(MarkCompleted(p, _)) => SetStatusWhere(rows, p, DonationStatus.Completed)
      case Apply(MarkFailed(p)) => SetStatusWhere(rows, p, DonationStatus.Failed)
      case _ => rows
  }

  /** The `increment_user_reputation` calls a dispatch makes: one, after a
      successful completion update, when the donor is known. */
  function ReputationRequests(d: Dispatch, updateSucceeds: bool): (r: seq<ReputationIncrement>)
    ensures r != [] <==> updateSucceeds && d.Apply? && d.transition.MarkCompleted? && d.transition.donor != ""
    ensures r != [] ==> r == [ReputationIncrement(d.transition.donor, DonationPoints, 1, 0)]
  {
    if updateSucceeds && d.Apply? && d.transition.MarkCompleted? && d.transition.donor != ""
    then [ReputationIncrement(d.transition.donor, DonationPoints, 1, 0)]
    else []
  }

  /** The HTTP status of the answer; the reputation call cannot change it. */
  function ResponseStatus(d: Dispatch, updateSucceeds: bool): (s: int)
    ensures d.Apply? && !d.transition.NoChange? ==> (s == 200 <==> updateSucceeds)
    ensures d.Apply? && d.transition.NoChange? ==> s == 200
  {
    match d
    case Reply(s) => s
    case Apply(t) => if t.NoChange? || updateSucceeds then 200 else 500
  }

  class DonationTable {
    var rows: seq<Donation>
    var reputationCalls: seq<ReputationIncrement>

    constructor (initial: seq<Donation>)
      ensures rows == initial && reputationCalls == []
    {
      rows := initial;
      reputationCalls := [];
    }

    /** Sets `status` on every row with that payment id, one row at a time. */
    method SetStatus(paymentId: string, status: DonationStatus)
      modifies this
      ensures rows == SetStatusWhere(old(rows), paymentId, status)
      ensures reputationCalls == old(reputationCalls)
    {
      var i := 0;
      while i < |rows|
        invariant 0 <= i <= |rows| == |old(rows)|
        invariant forall j :: 0 <= j < i ==> rows[j] == SetStatusWhere(old(rows), paymentId, status)[j]
        invariant forall j :: i <= j < |rows| ==> rows[j] == old(rows)[j]
        invariant reputationCalls == old(reputationCalls)
      {
        if rows[i].paymentId == paymentId {
          rows := rows[i := rows[i].(status := status)];
        }
        i := i + 1;
      }
    }

    /** Runs a dispatch: writes the new status (unless the update fails,
        which makes the handler answer 500) and requests the reputation
        increment after a completion. */
    method Handle(d: Dispatch, updateSucceeds: bool) returns (status: int)
      modifies this
      ensures rows == NextRows(old(rows), d, updateSucceeds)
      ensures reputationCalls == old(reputationCalls) + ReputationRequests(d, updateSucceeds)
      ensures status == ResponseStatus(d, updateSucceeds)
    {
      match d
      case Reply(s) =>
        status := s;
      case Apply(t) =>
        if t.NoChange? {
          status := 200;
        } else if !updateSucceeds {
          status := 500;
        } else {
          status := 200;
          match t
          case MarkCompleted(p, donor) =>
            SetStatus(p, DonationStatus.Completed);
            if donor != "" {
              reputationCalls := reputationCalls + [ReputationIncrement(donor, DonationPoints, 1, 0)];
            }
          case MarkFailed(p) =>
            SetStatus(p, DonationStatus.Failed);
        }
    }

    method MercadoPagoWebhook(n: MpNotification, fetched: Remote<MpPayment>, updateSucceeds: bool)
      returns (status: int)
      modifies this
      ensures rows == NextRows(old(rows), MercadoPagoDispatch(n, fetched), updateSucceeds)
      ensures reputationCalls == old(reputationCalls) + ReputationRequests(MercadoPagoDispatch(n, fetched), updateSucceeds)
      ensures status == ResponseStatus(MercadoPagoDispatch(n, fetched), updateSucceeds)
    {
      status := Handle(MercadoPagoDispatch(n, fetched), updateSucceeds);
    }

    method StripeWebhook(signature: string, verified: Option<StripeEvent>, updateSucceeds: bool)
      returns (status: int)
      modifies this
      ensures rows == NextRows(old(rows), StripeDispatch(signature, verified), updateSucceeds)
      ensures reputationCalls == old(reputationCalls) + ReputationRequests(StripeDispatch(signature, verified), updateSucceeds)
      ensures status == ResponseStatus(StripeDispatch(signature, verified), updateSucceeds)
    {
      status := Handle(StripeDispatch(signature, verified), updateSucceeds);
    }
  }

  // ---------------------------------------------------------------------
  // Properties of the reconciliation

  /** After `SetStatusWhere`, every row with the payment id has the new
      status, every other row is as it was, and the rows keep their order,
      ids, donors and amounts. */
  lemma SetStatusWhereEffect(rows: seq<Donation>, p: string, s: DonationStatus)
    ensures |SetStatusWhere(rows, p, s)| == |rows|
    ensures forall i :: 0 <= i < |rows| && rows[i].paymentId == p ==>
              SetStatusWhere(rows, p, s)[i].status == s
    ensures forall i :: 0 <= i < |rows| && rows[i].paymentId != p ==>
              SetStatusWhere(rows, p, s)[i] == rows[i]
    ensures forall i :: 0 <= i < |rows| ==>
              SetStatusWhere(rows, p, s)[i] == rows[i].(status := SetStatusWhere(rows, p, s)[i].status)
  {
  }

  /** A status update never changes the amounts on the table. */
  lemma {:induction false} SetStatusKeepsAmounts(rows: seq<Donation>, p: string, s: DonationStatus)
    ensures SumOf(SetStatusWhere(rows, p, s), Amount) == SumOf(rows, Amount)
  {
    if rows != [] {
      assert SetStatusWhere(rows, p, s)[1..] == SetStatusWhere(rows[1..], p, s);
      SetStatusKeepsAmounts(rows[1..], p, s);
    }
  }

  /** Writing the same status twice is the same as writing it once. */
  lemma SetStatusIdempotent(rows: seq<Donation>, p: string, s: DonationStatus)
    ensures SetStatusWhere(SetStatusWhere(rows, p, s), p, s) == SetStatusWhere(rows, p, s)
  {
  }

  /** A notification whose type is not "payment" changes nothing. */
  lemma NonPaymentNotificationIgnored(rows: seq<Donation>, n: MpNotification,
                                      fetched: Remote<MpPayment>, updateSucceeds: bool)
    requires n.kind != "payment"
    ensures NextRows(rows, MercadoPagoDispatch(n, fetched), updateSucceeds) == rows
    ensures ReputationRequests(MercadoPagoDispatch(n, fetched), updateSucceeds) == []
    ensures ResponseStatus(MercadoPagoDispatch(n, fetched), updateSucceeds) == 200
  {
  }

  /** A payment notification without `data.id` is a 400 and changes nothing. */
  lemma MissingPaymentIdRejected(rows: seq<Donation>, n: MpNotification,
                                 fetched: Remote<MpPayment>, updateSucceeds: bool)
    requires n.kind == "payment" && n.dataId == ""
    ensures NextRows(rows, MercadoPagoDispatch(n, fetched), updateSucceeds) == rows
    ensures ReputationRequests(MercadoPagoDispatch(n, fetched), updateSucceeds) == []
    ensures ResponseStatus(MercadoPagoDispatch(n, fetched), updateSucceeds) == 400
  {
  }

  /** "approved" completes exactly the donations with that payment id. */
  lemma MercadoPagoApprovedCompletes(rows: seq<Donation>, n: MpNotification, p: MpPayment)
    requires n.kind == "payment" && n.dataId != "" && p.status == "approved"
    ensures var r := NextRows(rows, MercadoPagoDispatch(n, Success(p)), true);
      |r| == |rows|
      && (forall i :: 0 <= i < |rows| && rows[i].paymentId == IdText(p.id) ==> r[i].status == DonationStatus.Completed)
      && (forall i :: 0 <= i < |rows| && rows[i].paymentId != IdText(p.id) ==> r[i] == rows[i])
    ensures ResponseStatus(MercadoPagoDispatch(n, Success(p)), true) == 200
  {
    SetStatusWhereEffect(rows, IdText(p.id), DonationStatus.Completed);
  }

  /** "rejected" and "cancelled" fail the matching donations; "in_process",
      "pending" and any other status change nothing. */
  lemma MercadoPagoOtherStatuses(rows: seq<Donation>, n: MpNotification, p: MpPayment, updateSucceeds: bool)
    requires n.kind == "payment" && n.dataId != ""
    ensures p.status in {"rejected", "cancelled"} && updateSucceeds ==>
      var r := NextRows(rows, MercadoPagoDispatch(n, Success(p)), updateSucceeds);
      forall i :: 0 <= i < |rows| ==>
        r[i] == (if rows[i].paymentId == IdText(p.id) then rows[i].(status := DonationStatus.Failed) else rows[i])
    ensures p.status !in {"approved", "rejected", "cancelled"} ==>
      NextRows(rows, MercadoPagoDispatch(n, Success(p)), updateSucceeds) == rows
      && ResponseStatus(MercadoPagoDispatch(n, Success(p)), updateSucceeds) == 200
  {
  }

  /** A failed donation update answers 500 instead of acknowledging, and
      requests no reputation increment. */
  lemma UpdateFailureIs500(rows: seq<Donation>, d: Dispatch)
    requires d.Apply? && !d.transition.NoChange?
    ensures ResponseStatus(d, false) == 500
    ensures NextRows(rows, d, false) == rows
    ensures ReputationRequests(d, false) == []
  {
  }

  /** No prior-status guard: a failure that arrives after a completion turns
      the completed donations of that payment into failed ones. */
  lemma FailureOverwritesCompleted(rows: seq<Donation>, p: string, donor: Id)
    ensures var after := NextRows(NextRows(rows, Apply(MarkCompleted(p, donor)), true), Apply(MarkFailed(p)), true);
      forall i :: 0 <= i < |rows| && rows[i].paymentId == p ==> after[i].status == DonationStatus.Failed
  {
    var mid := SetStatusWhere(rows, p, DonationStatus.Completed);
    SetStatusWhereEffect(rows, p, DonationStatus.Completed);
    SetStatusWhereEffect(mid, p, DonationStatus.Failed);
  }

  /** No prior-status guard: the same approval delivered twice leaves the
      table as one delivery does but requests the reputation increment twice. */
  lemma RepeatedApprovalRewardsTwice(rows: seq<Donation>, p: string, donor: Id)
    requires donor != ""
    ensures var d := Apply(MarkCompleted(p, donor));
      NextRows(NextRows(rows, d, true), d, true) == NextRows(rows, d, true)
      && ReputationRequests(d, true) + ReputationRequests(d, true)
         == [ReputationIncrement(donor, DonationPoints, 1, 0), ReputationIncrement(donor, DonationPoints, 1, 0)]
  {
    SetStatusIdempotent(rows, p, DonationStatus.Completed);
  }

  /** A missing signature header and a signature `constructEvent` rejects
      are both 400 and change nothing. */
  lemma StripeSignatureGate(rows: seq<Donation>, signature: string, verified: Option<StripeEvent>, updateSucceeds: bool)
    requires signature == "" || verified.None?
    ensures ResponseStatus(StripeDispatch(signature, verified), updateSucceeds) == 400
    ensures NextRows(rows, StripeDispatch(signature, verified), updateSucceeds) == rows
    ensures ReputationRequests(StripeDispatch(signature, verified), updateSucceeds) == []
  {
  }

  /** `payment_failed` and `canceled` have the same effect; an unknown event
      type is acknowledged with no change. */
  lemma StripeEventEffects(rows: seq<Donation>, e: StripeEvent, signature: string, updateSucceeds: bool)
    requires signature != ""
    ensures e.kind in {"payment_intent.payment_failed", "payment_intent.canceled"} ==>
      NextRows(rows, StripeDispatch(signature, Some(e)), updateSucceeds)
      == NextRows(rows, Apply(MarkFailed(e.intentId)), updateSucceeds)
    ensures e.kind !in {"payment_intent.succeeded", "payment_intent.payment_failed", "payment_intent.canceled"} ==>
      NextRows(rows, StripeDispatch(signature, Some(e)), updateSucceeds) == rows
      && ResponseStatus(StripeDispatch(signature, Some(e)), updateSucceeds) == 200
  {
  }

  /** The two providers agree: an approved MercadoPago payment and a
      succeeded Stripe intent with the same id and donor have the same effect. */
  lemma ProvidersAgreeOnSuccess(rows: seq<Donation>, n: MpNotification, p: MpPayment, e: StripeEvent,
                                signature: string, updateSucceeds: bool)
    requires n.kind == "payment" && n.dataId != "" && p.status == "approved"
    requires signature != "" && e.kind == "payment_intent.succeeded"
    requires e.intentId == IdText(p.id) && e.metadataUserId == p.metadataUserId
    ensures NextRows(rows, MercadoPagoDispatch(n, Success(p)), updateSucceeds)
            == NextRows(rows, StripeDispatch(signature, Some(e)), updateSucceeds)
    ensures ReputationRequests(MercadoPagoDispatch(n, Success(p)), updateSucceeds)
            == ReputationRequests(StripeDispatch(signature, Some(e)), updateSucceeds)
  {
  }
}
