/**
 * The withdrawal request page (`dashboard/solicitar-saque`): the form's
 * guard chain and reset, the fee preview, the masking of PIX keys in the
 * history and the status labels.
 *
 * Amounts are cents; `parseFloat` of the amount text is the `parseAmount`
 * parameter (`None` for NaN).
 */
module WithdrawalForm {
  import opened Common
  import W = Withdrawals

  /** An owned ecopoint with its available balance in cents. */
  datatype OwnedEcopoint = OwnedEcopoint(id: string, name: string, availableBalance: int)

  /** The first failing check of the form; each one sets its own message. */
  datatype FormError =
    | NoEcopointSelected
    | BelowMinimum
    | EcopointUnknown
    | InsufficientBalance
    | MissingPixKey
    | NotConfirmed
    | ServerRefused
    | RefreshFailed

  function FindOwned(ecopoints: seq<OwnedEcopoint>, id: string): (r: Option<OwnedEcopoint>)
    ensures r.Some? ==> r.value in ecopoints && r.value.id == id
    ensures r.None? ==> forall e :: e in ecopoints ==> e.id != id
  {
    if ecopoints == [] then None
    else if ecopoints[0].id == id then Some(ecopoints[0])
    else FindOwned(ecopoints[1..], id)
  }

  /** The checks of `handleSubmit`, in order. */
  function FormGuard(selected: string, amount: Option<int>, ecopoints: seq<OwnedEcopoint>,
                     pixKey: string, confirmed: bool): (r: Option<FormError>)
    ensures selected == "" ==> r == Some(NoEcopointSelected)
    ensures selected != "" && (amount.None? || amount.value < W.MinWithdrawalCents) ==> r == Some(BelowMinimum)
  {
    if selected == "" then Some(NoEcopointSelected)
    else if amount.None? || amount.value < W.MinWithdrawalCents then Some(BelowMinimum)
    else match FindOwned(ecopoints, selected)
      case None => Some(EcopointUnknown)
      case Some(e) =>
        if amount.value > e.availableBalance then Some(InsufficientBalance)
        else if IsBlank(pixKey) then Some(MissingPixKey)
        else if !confirmed then Some(NotConfirmed)
        else None
  }

  /** The form sends a request exactly when every check holds: an ecopoint
      is chosen and known, the amount is at least R$ 10.00 and at most its
      available balance, the key is not blank and its confirmation is ticked. */
  lemma FormGuardPasses(selected: string, amount: Option<int>, ecopoints: seq<OwnedEcopoint>,
                        pixKey: string, confirmed: bool)
    ensures FormGuard(selected, amount, ecopoints, pixKey, confirmed).None? <==>
      selected != "" && amount.Some? && amount.value >= W.MinWithdrawalCents
      && FindOwned(ecopoints, selected).Some?
      && amount.value <= FindOwned(ecopoints, selected).value.availableBalance
      && !IsBlank(pixKey) && confirmed
  {
  }

  /** `calculateFees`: no preview for a non-numeric amount, otherwise the
      same split the server applies. */
  function CalculateFees(amount: Option<int>): (r: Option<W.FeeSplit>)
    ensures amount.None? <==> r.None?
    ensures r.Some? ==> r.value.platformFee + r.value.amountNet == amount.value as real
    ensures r.Some? ==> 10.0 * r.value.platformFee == amount.value as real
  {
    match amount
    case None => None
    case Some(a) => W.FeesSplitGross(a); Some(W.Fees(a))
  }

  /** The preview shows exactly the fee and net amount the server stores for
      the same gross amount. */
  lemma PreviewMatchesStoredRecord(a: W.Approved, id: string, createdAt: int)
    ensures CalculateFees(Some(a.amountGross)) ==
      Some(W.FeeSplit(W.NewRecord(a, id, createdAt).platformFee, W.NewRecord(a, id, createdAt).amountNet))
  {
  }

  /** The form fields and messages of the page. */
  class Form {
    var ecopoints: seq<OwnedEcopoint>
    var selectedEcopoint: string
    var amountText: string
    var pixKeyType: string
    var pixKey: string
    var confirmedPixKey: bool
    var submitting: bool
    var error: Option<FormError>
    var succeeded: bool

    /** The check `handleSubmit` makes on the current fields. */
    function Refusal(parseAmount: string -> Option<int>): Option<FormError>
      reads this
    {
      FormGuard(selectedEcopoint, parseAmount(amountText), ecopoints, pixKey, confirmedPixKey)
    }

    constructor (owned: seq<OwnedEcopoint>)
      ensures ecopoints == owned && selectedEcopoint == "" && amountText == "" && pixKeyType == "CPF"
      ensures pixKey == "" && !confirmedPixKey && !submitting && error.None? && !succeeded
    {
      ecopoints := owned;
      selectedEcopoint := "";
      amountText := "";
      pixKeyType := "CPF";
      pixKey := "";
      confirmedPixKey := false;
      submitting := false;
      error := None;
      succeeded := false;
    }

    /** `handleSubmit`: the first failing check sets the error and nothing is
        sent; otherwise the request (with the key trimmed) is sent, and an
        accepted one resets the fields and reloads the ecopoints with their
        balances through `fetchData`. `refreshed` is what that reload reads:
        the ecopoints with their new balances, or `None` when the ecopoint
        query fails, which sets the reload's error. `submitting` is false
        afterwards. */
    method Submit(parseAmount: string -> Option<int>, serverAccepts: bool,
                  refreshed: Option<seq<OwnedEcopoint>>) returns (sent: Option<W.RequestBody>)
      modifies this
      ensures old(Refusal(parseAmount)).Some? ==>
        sent.None? && error == old(Refusal(parseAmount)) && !succeeded && submitting == old(submitting)
        && selectedEcopoint == old(selectedEcopoint) && amountText == old(amountText)
        && pixKey == old(pixKey) && confirmedPixKey == old(confirmedPixKey)
      ensures old(Refusal(parseAmount)).None? ==>
        !submitting && sent == Some(W.RequestBody(old(selectedEcopoint), W.Given(parseAmount(old(amountText))),
                                                  Trim(old(pixKey)), old(pixKeyType)))
      ensures old(Refusal(parseAmount)).None? && serverAccepts ==>
        succeeded && selectedEcopoint == "" && amountText == "" && pixKey == "" && !confirmedPixKey
      ensures old(Refusal(parseAmount)).None? && serverAccepts && refreshed.Some? ==>
        error.None? && ecopoints == refreshed.value
      ensures old(Refusal(parseAmount)).None? && serverAccepts && refreshed.None? ==>
        error == Some(RefreshFailed) && ecopoints == old(ecopoints)
      ensures old(Refusal(parseAmount)).None? && !serverAccepts ==>
        error == Some(ServerRefused) && !succeeded && selectedEcopoint == old(selectedEcopoint)
        && amountText == old(amountText) && pixKey == old(pixKey) && confirmedPixKey == old(confirmedPixKey)
      ensures !(old(Refusal(parseAmount)).None? && serverAccepts) ==> ecopoints == old(ecopoints)
      ensures pixKeyType == old(pixKeyType)
    {
      var amount := parseAmount(amountText);
      var refusal := Refusal(parseAmount);
      error := None;
      succeeded := false;
      if refusal.Some? {
        error := refusal;
        return None;
      }
      submitting := true;
      sent := Some(W.RequestBody(selectedEcopoint, W.Given(amount), Trim(pixKey), pixKeyType));
      if serverAccepts {
        succeeded := true;
        selectedEcopoint := "";
        amountText := "";
        pixKey := "";
        confirmedPixKey := false;
        Refresh(refreshed);
      } else {
        error := Some(ServerRefused);
      }
      submitting := false;
    }

    /** `fetchData` as far as the form is concerned: the error is cleared,
        then the ecopoints are replaced by the reloaded ones, or the error is
        set when the ecopoint query fails. */
    method Refresh(refreshed: Option<seq<OwnedEcopoint>>)
      modifies this
      ensures refreshed.Some? ==> ecopoints == refreshed.value && error.None?
      ensures refreshed.None? ==> ecopoints == old(ecopoints) && error == Some(RefreshFailed)
      ensures selectedEcopoint == old(selectedEcopoint) && amountText == old(amountText)
        && pixKeyType == old(pixKeyType) && pixKey == old(pixKey)
        && confirmedPixKey == old(confirmedPixKey) && submitting == old(submitting)
        && succeeded == old(succeeded)
    {
      error := None;
      match refreshed
      case Some(owned) =>
        ecopoints := owned;
      case None =>
        error := Some(RefreshFailed);
    }
  }

  /** A request the form lets through passes the server's field and
      minimum-amount checks (the key type comes from a select whose values
      are never empty). */
  lemma FormRequestPassesBodyChecks(selected: string, amount: Option<int>, ecopoints: seq<OwnedEcopoint>,
                                    pixKey: string, confirmed: bool, pixKeyType: string)
    requires FormGuard(selected, amount, ecopoints, pixKey, confirmed).None? && pixKeyType != ""
    ensures var body := W.RequestBody(selected, W.Given(amount), Trim(pixKey), pixKeyType);
      body.ecopointId != "" && body.pixKey != "" && body.amountGross.parsed.Some?
      && body.amountGross.parsed.value >= W.MinWithdrawalCents
  {
    FormGuardPasses(selected, amount, ecopoints, pixKey, confirmed);
    BlankIffAllWhitespace(pixKey);
  }

  // ---------------------------------------------------------------------
  // maskPixKey

  /** `s.slice(-4)`: the last four characters, or all of a shorter text. */
  function LastFour(s: string): (r: string)
    ensures |r| == if |s| < 4 then |s| else 4
    ensures r == s[|s| - |r|..]
  {
    if |s| <= 4 then s else s[|s| - 4..]
  }

  /** `maskPixKey`. An e-mail without "@" shows its domain as "undefined". */
  function MaskPixKey(key: string, keyType: string): (r: string)
    ensures keyType in {"CPF", "CNPJ", "PHONE"} ==> r == "***" + LastFour(key) && |r| <= 7
    ensures keyType !in {"CPF", "CNPJ", "PHONE", "EMAIL"} ==> r == key
  {
    if keyType == "CPF" || keyType == "CNPJ" || keyType == "PHONE" then "***" + LastFour(key)
    else if keyType == "EMAIL" then
      var parts := Split(key, '@');
      var user := parts[0];
      var domain := if |parts| > 1 then parts[1] else "undefined";
      (if |user| <= 3 then user else user[..3]) + "***@" + domain
    else key
  }

  /** An e-mail key `user@domain` is shown as at most three characters of
      the user part, "***@", then the domain. */
  lemma MaskEmail(user: string, domain: string)
    requires '@' !in user && '@' !in domain
    ensures MaskPixKey(user + "@" + domain, "EMAIL") == (if |user| <= 3 then user else user[..3]) + "***@" + domain
  {
    SplitAfterPiece(user, domain, '@');
    SplitNoSeparator(domain, '@');
    assert user + "@" + domain == user + ['@'] + domain;
  }

  /** A masked CPF, CNPJ or phone key reveals nothing before its last four
      characters: two keys with the same ending mask alike. */
  lemma MaskHidesPrefix(k1: string, k2: string, keyType: string)
    requires keyType in {"CPF", "CNPJ", "PHONE"}
    requires |k1| >= 4 && |k2| >= 4 && k1[|k1| - 4..] == k2[|k2| - 4..]
    ensures MaskPixKey(k1, keyType) == MaskPixKey(k2, keyType)
  {
  }

  // ---------------------------------------------------------------------
  // getStatusLabel

  function StatusName(s: W.WithdrawalStatus): string {
    match s
    case Pending => "pending"
    case Processing => "processing"
    case Completed => "completed"
    case Rejected => "rejected"
  }

  /** `getStatusLabel`: the four statuses get their Portuguese labels and
      any other text is shown as it is. */
  function StatusLabel(status: string): (shown: string)
    ensures status !in {"pending", "processing", "completed", "rejected"} ==> shown == status
  {
    if status == "pending" then "Pendente"
    else if status == "processing" then "Processando"
    else if status == "completed" then "Concluído"
    else if status == "rejected" then "Rejeitado"
    else status
  }

  /** Distinct statuses get distinct labels, and no status is shown under
      its raw name. */
  lemma StatusLabelsDistinct(s1: W.WithdrawalStatus, s2: W.WithdrawalStatus)
    ensures StatusLabel(StatusName(s1)) == StatusLabel(StatusName(s2)) <==> s1 == s2
    ensures StatusLabel(StatusName(s1)) != StatusName(s1)
  {
  }
}
