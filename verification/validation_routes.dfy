/**
 * The two routes around validation tokens: `POST /api/verify-token` and
 * `POST /api/send-validation-email`. Resend is an external service: whether
 * it is configured and whether a send reports an error enter as parameters,
 * and the e-mail that would be sent is returned as a value.
 */
module ValidationRoutes {
  import opened Common
  import opened Schema
  import opened Tokens

  /** The address shown in the invitation when none is given. */
  const DefaultAddress := "Endereço não disponível"

  // ---------------------------------------------------------------------
  // POST /api/verify-token

  datatype VerifyResponse =
    | Verified(ecopoint: Ecopoint, tokenData: Payload)
    | MissingToken
    | InvalidOrExpired
    | NotFound
    | AlreadyValidated

  /** The answer's status: 200 exactly for a verified token, 404 for a
      missing ecopoint, and 400 for every other refusal. */
  function VerifyStatus(r: VerifyResponse): (status: int)
    ensures status == 200 <==> r.Verified?
    ensures status == 404 <==> r.NotFound?
    ensures status in {200, 400, 404}
  {
    match r
    case Verified(_, _) => 200
    case NotFound => 404
    case _ => 400
  }

  /** The guard chain: token present, token verifies, ecopoint exists, and
      the ecopoint is not yet validated. */
  function VerifyTokenRoute(c: Codec, token: string, now: int, ecopoints: map<Id, Ecopoint>): (r: VerifyResponse)
    ensures token == "" ==> r == MissingToken
    ensures token != "" && Verify(c, token, now).None? ==> r == InvalidOrExpired
    ensures r.Verified? <==>
      token != "" && Verify(c, token, now).Some?
      && Verify(c, token, now).value.ecopointId in ecopoints
      && ecopoints[Verify(c, token, now).value.ecopointId].status != EcopointStatus.Validated
    ensures r.Verified? ==>
      r.tokenData == Verify(c, token, now).value && r.ecopoint == ecopoints[r.tokenData.ecopointId]
  {
    if token == "" then MissingToken
    else match Verify(c, token, now)
      case None => InvalidOrExpired
      case Some(data) =>
        if data.ecopointId !in ecopoints then NotFound
        else if ecopoints[data.ecopointId].status == EcopointStatus.Validated then VerifyResponse.AlreadyValidated
        else Verified(ecopoints[data.ecopointId], data)
  }

  /** A verified token for a missing ecopoint is a 404; for an ecopoint that
      is already validated it is a 400. */
  lemma VerifyTokenLookups(c: Codec, token: string, now: int, ecopoints: map<Id, Ecopoint>)
    requires token != "" && Verify(c, token, now).Some?
    ensures Verify(c, token, now).value.ecopointId !in ecopoints ==>
      VerifyTokenRoute(c, token, now, ecopoints) == NotFound
      && VerifyStatus(VerifyTokenRoute(c, token, now, ecopoints)) == 404
    ensures Verify(c, token, now).value.ecopointId in ecopoints
            && ecopoints[Verify(c, token, now).value.ecopointId].status == EcopointStatus.Validated ==>
      VerifyTokenRoute(c, token, now, ecopoints) == VerifyResponse.AlreadyValidated
      && VerifyStatus(VerifyTokenRoute(c, token, now, ecopoints)) == 400
  {
  }

  // ---------------------------------------------------------------------
  // POST /api/send-validation-email

  /** `{ ecopointId, ecopointName, ecopointAddress, ecopointEmail }`, with
      "" for a missing field. */
  datatype InviteRequest = InviteRequest(
    ecopointId: Id,
    ecopointName: string,
    ecopointAddress: string,
    ecopointEmail: string)

  /** The invitation handed to Resend; the validation URL ends in `token`. */
  datatype Invite = Invite(to: string, ecopointName: string, address: string, token: string)

  datatype SendReason =
    | Unauthorized
    | MissingFields
    | EcopointNotFound
    | NotImporter
    | AlreadyValidated
    | EmailNotConfigured
    | SendFailed

  /** The answer's status: 401, 403 and 404 for their own refusals, 500
      exactly when e-mail is not configured or the send failed, and 400
      otherwise. */
  function SendStatus(r: SendReason): (status: int)
    ensures status == 500 <==> r.EmailNotConfigured? || r.SendFailed?
    ensures status == 401 <==> r.Unauthorized?
    ensures status in {400, 401, 403, 404, 500}
  {
    match r
    case Unauthorized => 401
    case EcopointNotFound => 404
    case NotImporter => 403
    case EmailNotConfigured | SendFailed => 500
    case _ => 400
  }

  /** The checks before the token is made, in the source's order. */
  function SendGuard(caller: Option<Id>, req: InviteRequest, ecopoints: map<Id, Ecopoint>,
                     emailConfigured: bool): (r: Option<SendReason>)
    ensures caller.None? ==> r == Some(Unauthorized)
    ensures caller.Some? && (req.ecopointId == "" || req.ecopointName == "" || req.ecopointEmail == "") ==>
              r == Some(MissingFields)
    ensures r.None? <==>
      caller.Some? && req.ecopointId != "" && req.ecopointName != "" && req.ecopointEmail != ""
      && req.ecopointId in ecopoints && ecopoints[req.ecopointId].importedBy == caller
      && ecopoints[req.ecopointId].status != EcopointStatus.Validated && emailConfigured
  {
    if caller.None? then Some(Unauthorized)
    else if req.ecopointId == "" || req.ecopointName == "" || req.ecopointEmail == "" then Some(MissingFields)
    else if req.ecopointId !in ecopoints then Some(EcopointNotFound)
    else if ecopoints[req.ecopointId].importedBy != caller then Some(NotImporter)
    else if ecopoints[req.ecopointId].status == EcopointStatus.Validated then Some(SendReason.AlreadyValidated)
    else if !emailConfigured then Some(EmailNotConfigured)
    else None
  }

  /** The ownership checks come in the order 404, 403, 400. */
  lemma SendGuardOrder(caller: Id, req: InviteRequest, ecopoints: map<Id, Ecopoint>, emailConfigured: bool)
    requires req.ecopointId != "" && req.ecopointName != "" && req.ecopointEmail != ""
    ensures req.ecopointId !in ecopoints ==>
      SendGuard(Some(caller), req, ecopoints, emailConfigured) == Some(EcopointNotFound)
    ensures req.ecopointId in ecopoints && ecopoints[req.ecopointId].importedBy != Some(caller) ==>
      SendGuard(Some(caller), req, ecopoints, emailConfigured) == Some(NotImporter)
    ensures req.ecopointId in ecopoints && ecopoints[req.ecopointId].importedBy == Some(caller)
            && ecopoints[req.ecopointId].status == EcopointStatus.Validated ==>
      SendGuard(Some(caller), req, ecopoints, emailConfigured) == Some(SendReason.AlreadyValidated)
  {
  }

  /** The invitation for a request: a token for the ecopoint id and the
      e-mail, and the default text when the address is missing. */
  function InviteFor(c: Codec, req: InviteRequest, expiresAt: int): (inv: Invite)
    requires Sound(c)
    ensures inv.to == req.ecopointEmail && inv.ecopointName == req.ecopointName
    ensures inv.address == (if req.ecopointAddress == "" then DefaultAddress else req.ecopointAddress)
    ensures inv.address != ""
    ensures inv.token == Generate(c, req.ecopointId, req.ecopointEmail, expiresAt)
  {
    Invite(req.ecopointEmail, req.ecopointName,
           if req.ecopointAddress == "" then DefaultAddress else req.ecopointAddress,
           Generate(c, req.ecopointId, req.ecopointEmail, expiresAt))
  }

  datatype SendResponse = Sent(invite: Invite) | Refused(reason: SendReason)

  /** The `ecopoints` rows the route reads and flags. */
  class EcopointTable {
    var ecopoints: map<Id, Ecopoint>

    constructor (initial: map<Id, Ecopoint>)
      ensures ecopoints == initial
    {
      ecopoints := initial;
    }

    /** The route: the guard chain, the invitation, and the
        `validation_email_sent` flag, set only once Resend reported no
        error. The flag update's own error is ignored, so the answer is a
        success either way. */
    method SendValidationEmail(c: Codec, caller: Option<Id>, req: InviteRequest, emailConfigured: bool,
                               sendSucceeds: bool, flagUpdateSucceeds: bool, expiresAt: int)
      returns (resp: SendResponse)
      requires Sound(c)
      modifies this
      ensures SendGuard(caller, req, old(ecopoints), emailConfigured).Some? ==>
        resp == Refused(SendGuard(caller, req, old(ecopoints), emailConfigured).value)
      ensures SendGuard(caller, req, old(ecopoints), emailConfigured).None? && !sendSucceeds ==>
        resp == Refused(SendFailed)
      ensures resp.Sent? <==> SendGuard(caller, req, old(ecopoints), emailConfigured).None? && sendSucceeds
      ensures resp.Sent? ==> resp.invite == InviteFor(c, req, expiresAt)
      ensures resp.Sent? && flagUpdateSucceeds ==>
        ecopoints == old(ecopoints)[req.ecopointId := old(ecopoints)[req.ecopointId].(validationEmailSent := true)]
      ensures !(resp.Sent? && flagUpdateSucceeds) ==> ecopoints == old(ecopoints)
    {
      var refusal := SendGuard(caller, req, ecopoints, emailConfigured);
      if refusal.Some? {
        return Refused(refusal.value);
      }
      var invite := InviteFor(c, req, expiresAt);
      if !sendSucceeds {
        return Refused(SendFailed);
      }
      if flagUpdateSucceeds {
        ecopoints := ecopoints[req.ecopointId := ecopoints[req.ecopointId].(validationEmailSent := true)];
      }
      resp := Sent(invite);
    }
  }

  /** The two routes fit together: the token in an invitation, followed
      before it expires while the ecopoint is still not validated, verifies
      to the invited ecopoint and e-mail. */
  lemma InviteTokenVerifies(c: Codec, req: InviteRequest, expiresAt: int, now: int, ecopoints: map<Id, Ecopoint>)
    requires Sound(c) && now <= expiresAt
    requires req.ecopointId in ecopoints && ecopoints[req.ecopointId].status != EcopointStatus.Validated
    ensures VerifyTokenRoute(c, InviteFor(c, req, expiresAt).token, now, ecopoints)
            == Verified(ecopoints[req.ecopointId], Payload(req.ecopointId, req.ecopointEmail, expiresAt))
  {
    RoundTrip(c, req.ecopointId, req.ecopointEmail, expiresAt, now);
  }
}
