/**
 * The donation modal (`DonationModal.tsx`): the amount choice and its
 * bounds, the conversion to cents sent to `/api/create-payment-intent`, the
 * `m:ss` countdown text and the select/qrcode/success step machine. Amounts
 * are reais as the page keeps them (`parseFloat` of the custom text, which
 * enters as a parameter); the polling and countdown timers are the callers
 * of `PollStatus` and `Tick`.
 */
module DonationModal {
  import opened Common
  import PaymentIntent

  /** The suggested amounts, in reais. */
  const SuggestedAmounts: seq<real> := [5.0, 10.0, 20.0]

  /** The bounds the modal checks, in reais. */
  const MinAmount: real := 2.0
  const MaxAmount: real := 1000.0

  /** The amount chosen when the modal opens, and the countdown start. */
  const DefaultAmount: real := 10.0
  const DefaultTimeLeft := 300

  // ---------------------------------------------------------------------
  // Math.round(amount * 100)

  /** `Math.round`: the nearest integer, halves rounded up. */
  function Round(x: real): (n: int)
    ensures n as real - 0.5 <= x < n as real + 0.5
  {
    (x + 0.5).Floor
  }

  /** The amount in cents sent to the server. */
  function Cents(amount: real): (c: int)
    ensures c as real - 0.5 <= amount * 100.0 < c as real + 0.5
  {
    Round(amount * 100.0)
  }

  /** A whole number of reais is sent as exactly that many hundred cents. */
  lemma WholeReais(n: int)
    ensures Cents(n as real) == 100 * n
  {
    assert (n as real) * 100.0 + 0.5 == (100 * n) as real + 0.5;
  }

  /** An amount the modal lets through is one the server's amount check
      accepts: R$ 2 to R$ 1,000 become 200 to 100000 cents. */
  lemma ModalBoundsMatchServer(amount: real)
    requires MinAmount <= amount <= MaxAmount
    ensures PaymentIntent.MinDonationCents <= Cents(amount) <= PaymentIntent.MaxDonationCents
    ensures PaymentIntent.AmountAccepted(Some(Cents(amount)))
  {
    var n := Cents(amount);
    assert 200.0 <= amount * 100.0 <= 100000.0;
    assert n as real > 199.0 && n as real < 100001.0;
  }

  // ---------------------------------------------------------------------
  // formatTime

  function DigitChar(d: int): char
    requires 0 <= d < 10
  {
    "0123456789"[d]
  }

  predicate IsDigit(c: char) { '0' <= c <= '9' }

  function DigitValue(c: char): int
    requires IsDigit(c)
  {
    c as int - '0' as int
  }

  /** `n.toString()` for a non-negative integer. */
  function DecimalText(n: nat): (t: string)
    ensures 1 <= |t| && forall i :: 0 <= i < |t| ==> IsDigit(t[i])
    ensures |t| > 1 ==> t[0] != '0'
  {
    if n < 10 then [DigitChar(n)] else DecimalText(n / 10) + [DigitChar(n % 10)]
  }

  /** Reads a text of digits back as a number. */
  function DecimalValue(t: string): nat
    requires forall i :: 0 <= i < |t| ==> IsDigit(t[i])
  {
    if t == [] then 0 else 10 * DecimalValue(t[..|t| - 1]) + DigitValue(t[|t| - 1])
  }

  lemma {:induction false} DecimalRoundTrip(n: nat)
    ensures DecimalValue(DecimalText(n)) == n
  {
    var t := DecimalText(n);
    if n >= 10 {
      DecimalRoundTrip(n / 10);
      assert t[..|t| - 1] == DecimalText(n / 10);
    }
  }

  /** `secs.toString().padStart(2, '0')`. */
  function Pad2(n: nat): (t: string)
    requires n < 60
    ensures |t| == 2 && IsDigit(t[0]) && IsDigit(t[1])
    ensures DecimalValue(t) == n
  {
    DecimalRoundTrip(n);
    if n < 10 then
      var t := "0" + DecimalText(n);
      assert t[..1] == "0";
      t
    else DecimalText(n)
  }

  /** `formatTime`: whole minutes, ":", then the seconds on two digits. */
  function FormatTime(seconds: nat): (t: string)
    ensures |t| >= 4 && t[|t| - 3] == ':'
    ensures forall i :: 0 <= i < |t| && i != |t| - 3 ==> IsDigit(t[i])
  {
    DecimalText(seconds / 60) + ":" + Pad2(seconds % 60)
  }

  /** The minutes and the seconds of an `m:ss` text. */
  function ParseTime(t: string): int
    requires |t| >= 4 && t[|t| - 3] == ':'
    requires forall i :: 0 <= i < |t| && i != |t| - 3 ==> IsDigit(t[i])
  {
    60 * DecimalValue(t[..|t| - 3]) + DecimalValue(t[|t| - 2..])
  }

  /** The countdown text shows exactly the remaining seconds: reading the
      minutes and the seconds back gives the number formatted. */
  lemma FormatTimeRoundTrip(seconds: nat)
    ensures ParseTime(FormatTime(seconds)) == seconds
  {
    var t := FormatTime(seconds);
    var m := DecimalText(seconds / 60);
    assert t[..|t| - 3] == m;
    assert t[|t| - 2..] == Pad2(seconds % 60);
    DecimalRoundTrip(seconds / 60);
  }

  /** The countdown starts at "5:00". */
  lemma StartShowsFiveMinutes()
    ensures FormatTime(DefaultTimeLeft) == "5:00"
    ensures FormatTime(65) == "1:05"
  {
  }

  // ---------------------------------------------------------------------
  // The step machine

  datatype Step = Select | QrCode | Success

  datatype ModalError =
    | NotSignedIn
    | AmountOutOfRange
    | RequestFailed(message: string)
    | QrCodeUnavailable
    | QrCodeExpired

  /** `statusData.pixDetails`. */
  datatype PixDetails = PixDetails(qrCode: string, pixCode: string, expiresAt: int)

  /** What the two fetches of `handleCreatePayment` returned: an error reply
      (with its `error` text, "" when absent), or the payment id with the PIX
      details when the status route had them. */
  datatype CreateOutcome =
    | ErrorReply(error: string)
    | Created(paymentIntentId: string, pixDetails: Option<PixDetails>)

  /** `amount < MIN_AMOUNT || amount > MAX_AMOUNT`. */
  predicate AmountInRange(amount: real) {
    MinAmount <= amount <= MaxAmount
  }

  class ModalState {
    var step: Step
    var amount: real
    var customAmount: string
    var loading: bool
    var error: Option<ModalError>
    var paymentIntentId: Option<string>
    var qrCodeUrl: Option<string>
    var pixCode: Option<string>
    var expiresAt: Option<int>
    var timeLeft: int

    /** The QR code step always has a payment and an expiry, the countdown
        is positive, and the chosen amount is never below the minimum. */
    predicate Valid()
      reads this
    {
      && (step == QrCode ==> paymentIntentId.Some? && expiresAt.Some?)
      && (step == Success ==> paymentIntentId.Some?)
      && timeLeft > 0
      && amount >= MinAmount
    }

    constructor ()
      ensures Valid()
      ensures step == Select && amount == DefaultAmount && customAmount == "" && !loading && error.None?
      ensures paymentIntentId.None? && qrCodeUrl.None? && pixCode.None? && expiresAt.None?
      ensures timeLeft == DefaultTimeLeft
    {
      step := Select;
      amount := DefaultAmount;
      customAmount := "";
      loading := false;
      error := None;
      paymentIntentId := None;
      qrCodeUrl := None;
      pixCode := None;
      expiresAt := None;
      timeLeft := DefaultTimeLeft;
    }

    /** The reset once the modal is closed. */
    method Close()
      modifies this
      ensures Valid()
      ensures step == Select && amount == DefaultAmount && customAmount == "" && error.None?
      ensures paymentIntentId.None? && qrCodeUrl.None? && pixCode.None? && expiresAt.None?
      ensures timeLeft == DefaultTimeLeft && loading == old(loading)
    {
      step := Select;
      amount := DefaultAmount;
      customAmount := "";
      error := None;
      paymentIntentId := None;
      qrCodeUrl := None;
      pixCode := None;
      expiresAt := None;
      timeLeft := DefaultTimeLeft;
    }

    /** `handleAmountChange`, from one of the suggested buttons. */
    method ChooseAmount(value: real)
      requires Valid() && value in SuggestedAmounts
      modifies this
      ensures Valid()
      ensures amount == value && customAmount == "" && error.None?
      ensures step == old(step) && paymentIntentId == old(paymentIntentId) && expiresAt == old(expiresAt)
      ensures qrCodeUrl == old(qrCodeUrl) && pixCode == old(pixCode)
      ensures timeLeft == old(timeLeft) && loading == old(loading)
    {
      amount := value;
      customAmount := "";
      error := None;
    }

    /** `handleCustomAmountChange`: the text is always kept; the amount
        changes (and the error clears) only when the text parses to a number
        of at least R$ 2. */
    method ChangeCustomAmount(text: string, parsed: Option<real>)
      requires Valid()
      modifies this
      ensures Valid()
      ensures customAmount == text
      ensures parsed.Some? && parsed.value >= MinAmount ==> amount == parsed.value && error.None?
      ensures !(parsed.Some? && parsed.value >= MinAmount) ==> amount == old(amount) && error == old(error)
      ensures step == old(step) && paymentIntentId == old(paymentIntentId) && expiresAt == old(expiresAt)
      ensures qrCodeUrl == old(qrCodeUrl) && pixCode == old(pixCode)
      ensures timeLeft == old(timeLeft) && loading == old(loading)
    {
      customAmount := text;
      if parsed.Some? && parsed.value >= MinAmount {
        amount := parsed.value;
        error := None;
      }
    }

    /** `handleCreatePayment`: without a user or with an amount out of
        bounds only the error is set; otherwise the amount in cents is sent,
        and the step moves to the QR code only when the status reply carries
        PIX details. */
    method CreatePayment(signedIn: bool, outcome: CreateOutcome) returns (sentCents: Option<int>)
      requires Valid()
      modifies this
      ensures Valid()
      ensures !signedIn ==> sentCents.None? && error == Some(NotSignedIn)
      ensures signedIn && !AmountInRange(old(amount)) ==> sentCents.None? && error == Some(AmountOutOfRange)
      ensures sentCents.None? ==>
        step == old(step) && loading == old(loading)
        && paymentIntentId == old(paymentIntentId) && expiresAt == old(expiresAt)
        && qrCodeUrl == old(qrCodeUrl) && pixCode == old(pixCode)
      ensures sentCents.Some? <==> signedIn && AmountInRange(old(amount))
      ensures sentCents.Some? ==> sentCents.value == Cents(old(amount)) && !loading
      ensures sentCents.Some? && outcome.ErrorReply? ==>
        error == Some(RequestFailed(if outcome.error == "" then "Erro ao criar pagamento" else outcome.error))
        && step == old(step) && paymentIntentId == old(paymentIntentId)
        && qrCodeUrl == old(qrCodeUrl) && pixCode == old(pixCode) && expiresAt == old(expiresAt)
      ensures sentCents.Some? && outcome.Created? && outcome.pixDetails.None? ==>
        error == Some(QrCodeUnavailable) && step == old(step)
        && paymentIntentId == Some(outcome.paymentIntentId)
        && qrCodeUrl == old(qrCodeUrl) && pixCode == old(pixCode) && expiresAt == old(expiresAt)
      ensures sentCents.Some? && outcome.Created? && outcome.pixDetails.Some? ==>
        error.None? && step == QrCode && paymentIntentId == Some(outcome.paymentIntentId)
        && qrCodeUrl == Some(outcome.pixDetails.value.qrCode)
        && pixCode == Some(outcome.pixDetails.value.pixCode)
        && expiresAt == Some(outcome.pixDetails.value.expiresAt)
      ensures amount == old(amount) && customAmount == old(customAmount) && timeLeft == old(timeLeft)
    {
      if !signedIn {
        error := Some(NotSignedIn);
        return None;
      }
      if !AmountInRange(amount) {
        error := Some(AmountOutOfRange);
        return None;
      }
      loading := true;
      error := None;
      sentCents := Some(Cents(amount));
      match outcome {
        case ErrorReply(message) =>
          error := Some(RequestFailed(if message == "" then "Erro ao criar pagamento" else message));
        case Created(id, details) =>
          paymentIntentId := Some(id);
          if details.Some? {
            qrCodeUrl := Some(details.value.qrCode);
            pixCode := Some(details.value.pixCode);
            expiresAt := Some(details.value.expiresAt);
            step := QrCode;
          } else {
            error := Some(QrCodeUnavailable);
          }
      }
      loading := false;
    }

    /** One answer of the status poll, which runs only on the QR code step
        with a payment id: "succeeded" or "completed" moves to success, any
        other status changes nothing. */
    method PollStatus(status: string)
      requires Valid()
      modifies this
      ensures Valid()
      ensures old(step) == QrCode && (status == "succeeded" || status == "completed") ==> step == Success
      ensures !(old(step) == QrCode && (status == "succeeded" || status == "completed")) ==> step == old(step)
      ensures error == old(error) && paymentIntentId == old(paymentIntentId) && timeLeft == old(timeLeft)
      ensures amount == old(amount) && expiresAt == old(expiresAt)
      ensures qrCodeUrl == old(qrCodeUrl) && pixCode == old(pixCode)
      ensures customAmount == old(customAmount) && loading == old(loading)
    {
      if paymentIntentId.Some? && step == QrCode && (status == "succeeded" || status == "completed") {
        step := Success;
      }
    }

    /** One second of the countdown, which runs only on the QR code step
        with a non-zero expiry: at or past `expiresAt` the code has expired and the
        step goes back to select; before it, the remaining seconds are
        shown. */
    method Tick(now: int)
      requires Valid()
      modifies this
      ensures Valid()
      ensures old(step) == QrCode && old(expiresAt).value != 0 && old(expiresAt).value - now <= 0 ==>
        step == Select && error == Some(QrCodeExpired) && timeLeft == old(timeLeft)
      ensures old(step) == QrCode && old(expiresAt).value != 0 && old(expiresAt).value - now > 0 ==>
        step == QrCode && timeLeft == old(expiresAt).value - now && error == old(error)
      ensures old(step) != QrCode || old(expiresAt) == Some(0) ==>
        step == old(step) && timeLeft == old(timeLeft) && error == old(error)
      ensures amount == old(amount) && expiresAt == old(expiresAt) && paymentIntentId == old(paymentIntentId)
      ensures qrCodeUrl == old(qrCodeUrl) && pixCode == old(pixCode)
      ensures customAmount == old(customAmount) && loading == old(loading)
    {
      if step != QrCode || expiresAt.None? || expiresAt.value == 0 {
        return;
      }
      var remaining := expiresAt.value - now;
      if remaining <= 0 {
        error := Some(QrCodeExpired);
        step := Select;
      } else {
        timeLeft := remaining;
      }
    }

    /** The "Cancelar" button of the QR code step. */
    method Cancel()
      requires Valid()
      modifies this
      ensures Valid()
      ensures step == Select
      ensures error == old(error) && amount == old(amount) && timeLeft == old(timeLeft)
      ensures paymentIntentId == old(paymentIntentId) && expiresAt == old(expiresAt)
      ensures qrCodeUrl == old(qrCodeUrl) && pixCode == old(pixCode)
      ensures customAmount == old(customAmount) && loading == old(loading)
    {
      step := Select;
    }
  }

  /** Since the chosen amount never drops below R$ 2, the lower bound of
      `handleCreatePayment` never refuses: only an amount above R$ 1,000
      does. */
  lemma OnlyUpperBoundRefuses(amount: real)
    requires amount >= MinAmount
    ensures !AmountInRange(amount) <==> amount > MaxAmount
  {
  }
}
