/**
 * The withdrawal request processor: the `POST /api/withdrawals/request`
 * guard chain, the 10% platform fee, the append of one `pending`
 * withdrawal, and the `GET` history query.
 *
 * `get_available_balance` and `validate_pix_key` are database functions
 * whose bodies are not part of this model; they enter as the function
 * values of a `Rpcs` record, so nothing is assumed about them.
 */
module Withdrawals {
  import opened Common
  import opened Schema

  /** R$ 10.00, in cents. */
  const MinWithdrawalCents := 1000

  /** The platform keeps 10% of the gross amount. */
  const PlatformFeeRate: real := 0.1

  datatype PixKeyType = CPF | CNPJ | EMAIL | PHONE | RANDOM

  /** `['CPF', 'CNPJ', 'EMAIL', 'PHONE', 'RANDOM'].includes(t)`. */
  function ParsePixKeyType(t: string): (r: Option<PixKeyType>)
    ensures r.Some? <==> t in {"CPF", "CNPJ", "EMAIL", "PHONE", "RANDOM"}
    ensures r.Some? ==> PixKeyTypeName(r.value) == t
  {
    if t == "CPF" then Some(CPF)
    else if t == "CNPJ" then Some(CNPJ)
    else if t == "EMAIL" then Some(EMAIL)
    else if t == "PHONE" then Some(PHONE)
    else if t == "RANDOM" then Some(RANDOM)
    else None
  }

  function PixKeyTypeName(k: PixKeyType): string {
    match k
    case CPF => "CPF"
    case CNPJ => "CNPJ"
    case EMAIL => "EMAIL"
    case PHONE => "PHONE"
    case RANDOM => "RANDOM"
  }

  datatype WithdrawalStatus = Pending | Processing | Completed | Rejected

  /** `pending` and `processing` withdrawals are still in flight. */
  predicate InFlight(s: WithdrawalStatus) {
    s == WithdrawalStatus.Pending || s == Processing
  }

  /** A `withdrawals` row. Amounts are in cents; the fee and the net amount
      are exact fractions of a cent because the source does not round. */
  datatype Withdrawal = Withdrawal(
    id: Id,
    ecopointId: Id,
    userId: Id,
    amountGross: int,
    platformFee: real,
    amountNet: real,
    pixKey: string,
    pixKeyType: PixKeyType,
    status: WithdrawalStatus,
    createdAt: int)

  // ---------------------------------------------------------------------
  // Fee arithmetic

  datatype FeeSplit = FeeSplit(platformFee: real, amountNet: real)

  /** `platformFee = gross * 0.1; amountNet = gross - platformFee`. */
  function Fees(grossCents: int): (f: FeeSplit)
    ensures f.platformFee + f.amountNet == grossCents as real
    ensures 10.0 * f.platformFee == grossCents as real
  {
    var fee := grossCents as real * PlatformFeeRate;
    FeeSplit(fee, grossCents as real - fee)
  }

  /** The fee and the net amount add up to the gross amount, the net amount
      is 90% of it, and for a non-negative amount neither part exceeds it. */
  lemma FeesSplitGross(grossCents: int)
    ensures Fees(grossCents).platformFee + Fees(grossCents).amountNet == grossCents as real
    ensures 10.0 * Fees(grossCents).platformFee == grossCents as real
    ensures 10.0 * Fees(grossCents).amountNet == 9.0 * grossCents as real
    ensures grossCents >= 0 ==>
      0.0 <= Fees(grossCents).platformFee <= Fees(grossCents).amountNet <= grossCents as real
  {
  }

  // ---------------------------------------------------------------------
  // The request body and the guard chain

  /** `amount_gross` as the handler sees it: a falsy value (absent, null,
      "", 0), or a value that `parseFloat` turns into a number of cents or
      into NaN (`None`). */
  datatype AmountField = Falsy | Given(parsed: Option<int>)

  datatype RequestBody = RequestBody(
    ecopointId: string,
    amountGross: AmountField,
    pixKey: string,
    pixKeyType: string)

  /** The two database functions the handler calls. `availableBalance` gives
      the parsed balance in cents (`None` for NaN). */
  datatype Rpcs = Rpcs(
    availableBalance: Id -> Remote<Option<int>>,
    validatePixKey: (string, PixKeyType) -> Remote<bool>)

  /** Why a request was refused; each reason has its own message. */
  datatype Reason =
    | Unauthorized
    | MissingFields
    | BelowMinimum
    | InvalidPixKeyType
    | EcopointNotFound
    | NotOwner
    | InFlightExists
    | BalanceUnavailable
    | InsufficientBalance
    | PixValidationUnavailable
    | InvalidPixKey
    | InsertFailed
    | QueryFailed

  /** The answer's status: 401, 403 and 404 for their own refusals, 500
      exactly for a failure of the database, and 400 for every other refusal
      of the request. */
  function HttpStatus(r: Reason): (status: int)
    ensures status == 500 <==> r.BalanceUnavailable? || r.PixValidationUnavailable? || r.InsertFailed? || r.QueryFailed?
    ensures status == 401 <==> r.Unauthorized?
    ensures status in {400, 401, 403, 404, 500}
  {
    match r
    case Unauthorized => 401
    case EcopointNotFound => 404
    case NotOwner => 403
    case BalanceUnavailable | PixValidationUnavailable | InsertFailed | QueryFailed => 500
    case _ => 400
  }

  /** A request that passed every guard, ready to be inserted. */
  datatype Approved = Approved(
    ecopointId: Id,
    userId: Id,
    amountGross: int,
    pixKey: string,
    pixKeyType: PixKeyType)

  datatype Decision = Approve(request: Approved) | Refuse(reason: Reason)

  /** Number of in-flight withdrawals of ecopoint `e`. */
  function InFlightCount(rows: seq<Withdrawal>, e: Id): nat {
    if rows == [] then 0
    else (if rows[0].ecopointId == e && InFlight(rows[0].status) then 1 else 0)
         + InFlightCount(rows[1..], e)
  }

  /** What the `.in('status', ['pending', 'processing']).maybeSingle()`
      lookup reports when its query succeeds over `rows`: a row only when
      exactly one matches (with two or more it reports an error and no
      data, which the handler drops). A failed query is `LookupView`. */
  predicate ExistingInFlight(rows: seq<Withdrawal>, e: Id) {
    InFlightCount(rows, e) == 1
  }

  /** The handler's guards in source order: the reason of the first one
      that fails, or nothing when all hold. */
  function FirstRefusal(caller: Option<Id>, body: RequestBody, ecopoints: map<Id, Ecopoint>,
                        rows: seq<Withdrawal>, rpcs: Rpcs): (r: Option<Reason>)
    ensures r.None? <==> Acceptable(caller, body, ecopoints, rows, rpcs)
    ensures caller.None? ==> r == Some(Unauthorized)
    ensures r != Some(InsertFailed) && r != Some(QueryFailed)
  {
    if caller.None? then Some(Unauthorized)
    else if body.ecopointId == "" || body.amountGross.Falsy? || body.pixKey == "" || body.pixKeyType == ""
    then Some(MissingFields)
    else if body.amountGross.parsed.None? || body.amountGross.parsed.value < MinWithdrawalCents
    then Some(BelowMinimum)
    else if ParsePixKeyType(body.pixKeyType).None? then Some(InvalidPixKeyType)
    else if body.ecopointId !in ecopoints then Some(EcopointNotFound)
    else if ecopoints[body.ecopointId].ownerId != Some(caller.value) then Some(NotOwner)
    else if ExistingInFlight(rows, body.ecopointId) then Some(InFlightExists)
    else if rpcs.availableBalance(body.ecopointId).Failure? then Some(BalanceUnavailable)
    else if rpcs.availableBalance(body.ecopointId).data.None?
            || rpcs.availableBalance(body.ecopointId).data.value < body.amountGross.parsed.value
    then Some(InsufficientBalance)
    else if rpcs.validatePixKey(body.pixKey, ParsePixKeyType(body.pixKeyType).value).Failure?
    then Some(PixValidationUnavailable)
    else if !rpcs.validatePixKey(body.pixKey, ParsePixKeyType(body.pixKeyType).value).data
    then Some(InvalidPixKey)
    else None
  }

  /** Every guard of the handler holds, taken together rather than in order. */
  predicate Acceptable(caller: Option<Id>, body: RequestBody, ecopoints: map<Id, Ecopoint>,
                       rows: seq<Withdrawal>, rpcs: Rpcs)
  {
    && caller.Some?
    && body.ecopointId != "" && body.pixKey != ""
    && body.amountGross.Given? && body.amountGross.parsed.Some?
    && body.amountGross.parsed.value >= MinWithdrawalCents
    && ParsePixKeyType(body.pixKeyType).Some?
    && body.ecopointId in ecopoints
    && ecopoints[body.ecopointId].ownerId == caller
    && !ExistingInFlight(rows, body.ecopointId)
    && rpcs.availableBalance(body.ecopointId).Success?
    && rpcs.availableBalance(body.ecopointId).data.Some?
    && rpcs.availableBalance(body.ecopointId).data.value >= body.amountGross.parsed.value
    && rpcs.validatePixKey(body.pixKey, ParsePixKeyType(body.pixKeyType).value) == Success(true)
  }

  /** The POST handler's decision before the insert: the first failing
      guard, or the approved request when every guard holds. */
  function Decide(caller: Option<Id>, body: RequestBody, ecopoints: map<Id, Ecopoint>,
                  rows: seq<Withdrawal>, rpcs: Rpcs): (d: Decision)
    ensures d.Approve? <==> Acceptable(caller, body, ecopoints, rows, rpcs)
    ensures d.Approve? ==> d.request == Approved(body.ecopointId, caller.value,
              body.amountGross.parsed.value, body.pixKey, ParsePixKeyType(body.pixKeyType).value)
    ensures d.Approve? ==> d.request.amountGross >= MinWithdrawalCents
    ensures d.Approve? ==> ecopoints[d.request.ecopointId].ownerId == Some(d.request.userId)
    ensures d.Refuse? ==> d.reason != InsertFailed && d.reason != QueryFailed
  {
    match FirstRefusal(caller, body, ecopoints, rows, rpcs)
    case Some(reason) => Refuse(reason)
    case None =>
      Approve(Approved(body.ecopointId, caller.value, body.amountGross.parsed.value,
                       body.pixKey, ParsePixKeyType(body.pixKeyType).value))
  }

  /** The row the handler inserts for an approved request. */
  function NewRecord(a: Approved, id: Id, createdAt: int): (w: Withdrawal)
    ensures w.status == WithdrawalStatus.Pending && w.userId == a.userId && w.ecopointId == a.ecopointId
    ensures w.amountGross == a.amountGross && w.pixKey == a.pixKey && w.pixKeyType == a.pixKeyType
    ensures w.platformFee + w.amountNet == a.amountGross as real
    ensures 10.0 * w.platformFee == a.amountGross as real
  {
    var f := Fees(a.amountGross);
    FeesSplitGross(a.amountGross);
    Withdrawal(id, a.ecopointId, a.userId, a.amountGross, f.platformFee, f.amountNet,
               a.pixKey, a.pixKeyType, WithdrawalStatus.Pending, createdAt)
  }

  // ---------------------------------------------------------------------
  // Guard-order lemmas

  /** An amount that is NaN or below R$ 10.00 is refused with 400, once
      the caller is known and the fields are present. */
  lemma BelowMinimumRefused(caller: Option<Id>, body: RequestBody, ecopoints: map<Id, Ecopoint>,
                            rows: seq<Withdrawal>, rpcs: Rpcs)
    requires caller.Some? && body.ecopointId != "" && body.pixKey != "" && body.pixKeyType != ""
    requires body.amountGross.Given?
    requires body.amountGross.parsed.None? || body.amountGross.parsed.value < MinWithdrawalCents
    ensures Decide(caller, body, ecopoints, rows, rpcs) == Refuse(BelowMinimum)
    ensures HttpStatus(BelowMinimum) == 400
  {
  }

  /** A PIX key type outside the five allowed ones is refused with 400 once
      the fields and the amount are in order. */
  lemma PixKeyTypeRefused(caller: Option<Id>, body: RequestBody, ecopoints: map<Id, Ecopoint>,
                          rows: seq<Withdrawal>, rpcs: Rpcs)
    requires caller.Some? && body.ecopointId != "" && body.pixKey != "" && body.pixKeyType != ""
    requires body.amountGross.Given? && body.amountGross.parsed.Some?
    requires body.amountGross.parsed.value >= MinWithdrawalCents
    requires body.pixKeyType !in {"CPF", "CNPJ", "EMAIL", "PHONE", "RANDOM"}
    ensures Decide(caller, body, ecopoints, rows, rpcs) == Refuse(InvalidPixKeyType)
  {
  }

  /** Past the body checks, a missing ecopoint gives 404 and a caller who
      is not its owner gives 403. */
  lemma OwnershipRefused(caller: Option<Id>, body: RequestBody, ecopoints: map<Id, Ecopoint>,
                         rows: seq<Withdrawal>, rpcs: Rpcs)
    requires caller.Some? && body.ecopointId != "" && body.pixKey != ""
    requires body.amountGross.Given? && body.amountGross.parsed.Some?
    requires body.amountGross.parsed.value >= MinWithdrawalCents
    requires ParsePixKeyType(body.pixKeyType).Some?
    ensures body.ecopointId !in ecopoints ==>
      Decide(caller, body, ecopoints, rows, rpcs) == Refuse(EcopointNotFound)
    ensures body.ecopointId in ecopoints && ecopoints[body.ecopointId].ownerId != caller ==>
      Decide(caller, body, ecopoints, rows, rpcs) == Refuse(NotOwner)
  {
  }

  /** An approved request had a balance that covers the gross amount. */
  lemma ApprovedIsFunded(caller: Option<Id>, body: RequestBody, ecopoints: map<Id, Ecopoint>,
                         rows: seq<Withdrawal>, rpcs: Rpcs)
    requires Decide(caller, body, ecopoints, rows, rpcs).Approve?
    ensures rpcs.availableBalance(body.ecopointId).Success?
    ensures rpcs.availableBalance(body.ecopointId).data.Some?
    ensures rpcs.availableBalance(body.ecopointId).data.value
            >= Decide(caller, body, ecopoints, rows, rpcs).request.amountGross
  {
  }

  // ---------------------------------------------------------------------
  // The one-in-flight invariant

  /** No ecopoint has two in-flight withdrawals. */
  predicate AtMostOneInFlight(rows: seq<Withdrawal>) {
    forall i, j :: 0 <= i < j < |rows| && InFlight(rows[i].status) && InFlight(rows[j].status)
      ==> rows[i].ecopointId != rows[j].ecopointId
  }

  lemma {:induction false} InFlightCountZero(rows: seq<Withdrawal>, e: Id)
    ensures InFlightCount(rows, e) == 0 <==>
      forall i :: 0 <= i < |rows| ==> !(rows[i].ecopointId == e && InFlight(rows[i].status))
  {
    if rows != [] {
      InFlightCountZero(rows[1..], e);
      assert forall i :: 1 <= i < |rows| ==> rows[i] == rows[1..][i - 1];
    }
  }

  /** With the invariant, a `maybeSingle` lookup whose query succeeds finds
      a row exactly when some in-flight withdrawal of that ecopoint exists. */
  lemma {:induction false} InFlightCountAtMostOne(rows: seq<Withdrawal>, e: Id)
    requires AtMostOneInFlight(rows)
    ensures InFlightCount(rows, e) <= 1
  {
    if rows != [] {
      assert AtMostOneInFlight(rows[1..]) by {
        forall i, j | 0 <= i < j < |rows[1..]| ensures
          !(InFlight(rows[1..][i].status) && InFlight(rows[1..][j].status)) || rows[1..][i].ecopointId != rows[1..][j].ecopointId
        {
          assert rows[1..][i] == rows[i + 1] && rows[1..][j] == rows[j + 1];
        }
      }
      InFlightCountAtMostOne(rows[1..], e);
      if rows[0].ecopointId == e && InFlight(rows[0].status) {
        InFlightCountZero(rows[1..], e);
        forall i | 0 <= i < |rows[1..]| ensures !(rows[1..][i].ecopointId == e && InFlight(rows[1..][i].status)) {
          assert rows[1..][i] == rows[i + 1];
        }
      }
    }
  }

  /** Appending a withdrawal for an ecopoint that has none in flight keeps
      the invariant. */
  lemma AppendKeepsAtMostOne(rows: seq<Withdrawal>, w: Withdrawal)
    requires AtMostOneInFlight(rows)
    requires InFlightCount(rows, w.ecopointId) == 0
    ensures AtMostOneInFlight(rows + [w])
  {
    InFlightCountZero(rows, w.ecopointId);
    var r := rows + [w];
    forall i, j | 0 <= i < j < |r| && InFlight(r[i].status) && InFlight(r[j].status)
      ensures r[i].ecopointId != r[j].ecopointId
    {
      if j == |rows| {
        assert r[i] == rows[i];
      } else {
        assert r[i] == rows[i] && r[j] == rows[j];
      }
    }
  }

  // ---------------------------------------------------------------------
  // The withdrawals table

  datatype Response = Created(record: Withdrawal) | Refused(reason: Reason)

  class WithdrawalLedger {
    var rows: seq<Withdrawal>

    ghost predicate Valid()
      reads this
    {
      AtMostOneInFlight(rows)
    }

    constructor ()
      ensures rows == [] && Valid()
    {
      rows := [];
    }

    /** `POST`: runs the guard chain and, when every guard holds and the
        insert succeeds, appends one `pending` withdrawal. The in-flight
        lookup keeps only its `data`: when its query fails (`lookupSucceeds`
        false) it reads as "none found", so the guard chain sees no rows. The
        owner and administrator e-mails that follow are caught and cannot
        change the response. The one-in-flight invariant is kept whenever
        the lookup succeeds. */
    method Request(caller: Option<Id>, body: RequestBody, ecopoints: map<Id, Ecopoint>, rpcs: Rpcs,
                   lookupSucceeds: bool, newId: Id, now: int, insertSucceeds: bool) returns (resp: Response)
      modifies this
      ensures old(Valid()) && lookupSucceeds ==> Valid()
      ensures resp.Created? <==>
        Decide(caller, body, ecopoints, LookupView(old(rows), lookupSucceeds), rpcs).Approve? && insertSucceeds
      ensures resp.Created? ==>
        resp.record == NewRecord(Decide(caller, body, ecopoints, LookupView(old(rows), lookupSucceeds), rpcs).request, newId, now)
        && rows == old(rows) + [resp.record]
      ensures resp.Refused? ==> rows == old(rows)
      ensures resp.Refused? ==>
                resp.reason == (match Decide(caller, body, ecopoints, LookupView(old(rows), lookupSucceeds), rpcs)
                                case Refuse(reason) => reason
                                case Approve(_) => InsertFailed)
      ensures resp.Created? ==>
        InFlightCount(rows, body.ecopointId) == InFlightCount(old(rows), body.ecopointId) + 1
      ensures resp.Created? && old(Valid()) && lookupSucceeds ==> InFlightCount(rows, body.ecopointId) == 1
    {
      var decision := Decide(caller, body, ecopoints, LookupView(rows, lookupSucceeds), rpcs);
      match decision
      case Refuse(reason) =>
        resp := Refused(reason);
      case Approve(a) =>
        if !insertSucceeds {
          resp := Refused(InsertFailed);
        } else {
          var w := NewRecord(a, newId, now);
          CountAppend(rows, w, a.ecopointId);
          if lookupSucceeds && Valid() {
            InFlightCountAtMostOne(rows, a.ecopointId);
            AppendKeepsAtMostOne(rows, w);
          }
          rows := rows + [w];
          resp := Created(w);
        }
    }
  }

  /** The rows the in-flight lookup sees: the table, or none when its query
      fails and only the empty `data` is kept. */
  function LookupView(rows: seq<Withdrawal>, lookupSucceeds: bool): (view: seq<Withdrawal>)
    ensures lookupSucceeds ==> view == rows
    ensures !lookupSucceeds ==> forall e :: !ExistingInFlight(view, e)
  {
    if lookupSucceeds then rows else []
  }

  /** A failed in-flight lookup lets a second withdrawal in: with one
      already in flight for the ecopoint, a request that passes the other
      guards is approved, and its insert leaves two in flight and breaks the
      invariant. */
  lemma FailedLookupAdmitsSecond(rows: seq<Withdrawal>, caller: Option<Id>, body: RequestBody,
                                 ecopoints: map<Id, Ecopoint>, rpcs: Rpcs, newId: Id, now: int)
    requires InFlightCount(rows, body.ecopointId) >= 1
    requires Decide(caller, body, ecopoints, LookupView(rows, false), rpcs).Approve?
    ensures var w := NewRecord(Decide(caller, body, ecopoints, LookupView(rows, false), rpcs).request, newId, now);
      InFlightCount(rows + [w], body.ecopointId) >= 2 && !AtMostOneInFlight(rows + [w])
  {
    var w := NewRecord(Decide(caller, body, ecopoints, LookupView(rows, false), rpcs).request, newId, now);
    var e := body.ecopointId;
    CountAppend(rows, w, e);
    InFlightCountZero(rows, e);
    var i :| 0 <= i < |rows| && rows[i].ecopointId == e && InFlight(rows[i].status);
    var r := rows + [w];
    assert r[i] == rows[i] && r[|rows|] == w;
  }

  lemma {:induction false} CountAppend(rows: seq<Withdrawal>, w: Withdrawal, e: Id)
    ensures InFlightCount(rows + [w], e)
            == InFlightCount(rows, e) + (if w.ecopointId == e && InFlight(w.status) then 1 else 0)
  {
    if rows == [] {
      assert rows + [w] == [w];
    } else {
      assert (rows + [w])[1..] == rows[1..] + [w];
      CountAppend(rows[1..], w, e);
    }
  }

  /** Two requests in a row for the same ecopoint, the second one's lookup
      succeeding: whatever it carries, it is not inserted once the first one
      was. */
  lemma SecondRequestRefused(rows: seq<Withdrawal>, w: Withdrawal, caller: Option<Id>,
                             body: RequestBody, ecopoints: map<Id, Ecopoint>, rpcs: Rpcs)
    requires AtMostOneInFlight(rows)
    requires InFlight(w.status) && w.ecopointId == body.ecopointId
    requires InFlightCount(rows, w.ecopointId) == 0
    ensures Decide(caller, body, ecopoints, rows + [w], rpcs).Refuse?
  {
    CountAppend(rows, w, w.ecopointId);
  }

  // ---------------------------------------------------------------------
  // GET: the history query

  function CreatedAt(w: Withdrawal): int { w.createdAt }

  /** `.eq('user_id', user)` and, when an ecopoint is given, `.eq('ecopoint_id', e)`. */
  predicate Visible(w: Withdrawal, user: Id, ecopointFilter: string) {
    w.userId == user && (ecopointFilter == "" || w.ecopointId == ecopointFilter)
  }

  function Matching(rows: seq<Withdrawal>, user: Id, ecopointFilter: string): seq<Withdrawal> {
    Filter(rows, w => Visible(w, user, ecopointFilter))
  }

  datatype HistoryResponse = History(withdrawals: seq<Withdrawal>) | HistoryRefused(reason: Reason)

  /** `GET`: 401 without a caller, 500 when the query fails, otherwise the
      caller's withdrawals (optionally of one ecopoint), newest first. */
  function GetHistory(rows: seq<Withdrawal>, caller: Option<Id>, ecopointFilter: string,
                      querySucceeds: bool): (h: HistoryResponse)
    ensures caller.None? ==> h == HistoryRefused(Unauthorized)
    ensures caller.Some? && !querySucceeds ==> h == HistoryRefused(QueryFailed)
    ensures h.History? ==> caller.Some?
    ensures h.History? ==>
              forall i :: 0 <= i < |h.withdrawals| ==> Visible(h.withdrawals[i], caller.value, ecopointFilter)
  {
    if caller.None? then HistoryRefused(Unauthorized)
    else if !querySucceeds then HistoryRefused(QueryFailed)
    else
      var m := Matching(rows, caller.value, ecopointFilter);
      var r := OrderByDesc(m, CreatedAt);
      assert forall i :: 0 <= i < |r| ==> Visible(r[i], caller.value, ecopointFilter) by {
        forall i | 0 <= i < |r| ensures Visible(r[i], caller.value, ecopointFilter) {
          assert r[i] in multiset(r);
          assert r[i] in m;
        }
      }
      History(r)
  }

  /** The history holds exactly the caller's matching withdrawals, each as
      often as in the table, ordered by `created_at` descending. */
  lemma HistoryIsOrderedSelection(rows: seq<Withdrawal>, user: Id, ecopointFilter: string)
    ensures GetHistory(rows, Some(user), ecopointFilter, true).History?
    ensures multiset(GetHistory(rows, Some(user), ecopointFilter, true).withdrawals)
            == multiset(Matching(rows, user, ecopointFilter))
    ensures SortedDesc(GetHistory(rows, Some(user), ecopointFilter, true).withdrawals, CreatedAt)
    ensures forall w :: w in rows && Visible(w, user, ecopointFilter) ==>
              w in GetHistory(rows, Some(user), ecopointFilter, true).withdrawals
  {
    var m := Matching(rows, user, ecopointFilter);
    OrderByDescCorrect(m, CreatedAt);
    forall w | w in rows && Visible(w, user, ecopointFilter)
      ensures w in OrderByDesc(m, CreatedAt)
    {
      assert w in m;
      assert w in multiset(m);
    }
  }
}
