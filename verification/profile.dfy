/**
 * The two profile pages (`dashboard/perfil` and `perfil`): the next-badge
 * progress, the donation statistics over the recent donations, the defaulting
 * of a missing reputation row, and the name and password handlers. The
 * handlers are the same code on both pages and are modelled once.
 */
module Profile {
  import opened Common
  import opened Schema
  import opened Passwords

  // ---------------------------------------------------------------------
  // Donation statistics

  /** Donations are fetched newest first, at most this many. */
  const RecentLimit := 10

  function CreatedAt(d: Donation): int { d.createdAt }

  /** `.eq('user_id', user)`. */
  function Own(user: Id): Donation -> bool {
    (d: Donation) => d.userId == user
  }

  /** The `donations` query: the user's rows, newest first, at most ten.
      It holds all of the user's donations when there are at most ten, and
      otherwise ten of them none older than any left out. */
  function RecentDonations(all: seq<Donation>, user: Id): (recent: seq<Donation>)
    ensures var n := |Filter(all, Own(user))|;
      |recent| == if n <= RecentLimit then n else RecentLimit
    ensures multiset(recent) <= multiset(Filter(all, Own(user)))
    ensures forall d :: d in recent ==> d in all && d.userId == user
    ensures SortedDesc(recent, CreatedAt)
    ensures forall d, e :: d in all && d.userId == user && d !in recent && e in recent ==>
      CreatedAt(d) <= CreatedAt(e)
  {
    var mine := Filter(all, Own(user));
    var ordered := OrderByDesc(mine, CreatedAt);
    var k := if |ordered| <= RecentLimit then |ordered| else RecentLimit;
    OrderByDescCorrect(mine, CreatedAt);
    PrefixOfOrdered(mine, ordered, k);
    ordered[..k]
  }

  /** The first `k` rows of an ordering of `mine`: rows of it, still
      ordered, and none older than a row of `mine` left out. */
  lemma PrefixOfOrdered(mine: seq<Donation>, ordered: seq<Donation>, k: nat)
    requires k <= |ordered|
    requires multiset(ordered) == multiset(mine) && SortedDesc(ordered, CreatedAt)
    ensures multiset(ordered[..k]) <= multiset(mine)
    ensures forall d :: d in ordered[..k] ==> d in mine
    ensures SortedDesc(ordered[..k], CreatedAt)
    ensures forall d, e :: d in mine && d !in ordered[..k] && e in ordered[..k] ==>
      CreatedAt(d) <= CreatedAt(e)
  {
    var prefix := ordered[..k];
    assert ordered == prefix + ordered[k..];
    assert multiset(ordered) == multiset(prefix) + multiset(ordered[k..]);
    forall d | d in prefix ensures d in mine {
      assert d in multiset(ordered);
    }
    forall d | d in mine ensures d in ordered {
      assert d in multiset(mine);
    }
    SortedPrefixIsNewest(ordered, k);
  }

  /** In a sequence ordered newest first, a row outside the first `k` is
      no newer than any row inside them. */
  lemma SortedPrefixIsNewest(ordered: seq<Donation>, k: nat)
    requires k <= |ordered|
    requires SortedDesc(ordered, CreatedAt)
    ensures forall d, e :: d in ordered && d !in ordered[..k] && e in ordered[..k] ==>
      CreatedAt(d) <= CreatedAt(e)
  {
    forall d, e | d in ordered && d !in ordered[..k] && e in ordered[..k]
      ensures CreatedAt(d) <= CreatedAt(e)
    {
      var j :| 0 <= j < |ordered| && ordered[j] == d;
      var i :| 0 <= i < k && ordered[..k][i] == e;
      assert ordered[i] == e;
    }
  }

  /** The value each donation adds to "Total doado": its amount when
      completed, nothing otherwise. */
  function CompletedAmount(d: Donation): int { if IsCompleted(d) then d.amount else 0 }

  function CompletedIndicator(d: Donation): int { if IsCompleted(d) then 1 else 0 }

  /** `totalDonated` is the sum over all shown donations of their completed
      amounts, and "Doações realizadas" counts the completed ones. */
  lemma {:induction false} TotalDonatedCountsCompletedOnly(ds: seq<Donation>)
    ensures CompletedTotal(ds) == SumOf(ds, CompletedAmount)
    ensures |CompletedOnly(ds)| == SumOf(ds, CompletedIndicator)
  {
    if ds != [] {
      TotalDonatedCountsCompletedOnly(ds[1..]);
      if IsCompleted(ds[0]) {
        assert CompletedOnly(ds) == [ds[0]] + CompletedOnly(ds[1..]);
      } else {
        assert CompletedOnly(ds) == CompletedOnly(ds[1..]);
      }
    }
  }

  /** A pending or failed donation changes neither figure. */
  lemma NotCompletedIgnored(ds: seq<Donation>, d: Donation)
    requires !IsCompleted(d)
    ensures CompletedTotal(ds + [d]) == CompletedTotal(ds)
    ensures |CompletedOnly(ds + [d])| == |CompletedOnly(ds)|
  {
    FilterAppend(ds, [d], IsCompleted);
    assert CompletedOnly([d]) == [];
    assert CompletedOnly(ds + [d]) == CompletedOnly(ds);
  }

  /** With non-negative amounts the total is non-negative. */
  lemma TotalDonatedNonNegative(ds: seq<Donation>)
    requires forall d :: d in ds ==> d.amount >= 0
    ensures CompletedTotal(ds) >= 0
  {
    TotalDonatedCountsCompletedOnly(ds);
    SumOfNonNegative(ds, CompletedAmount);
  }

  /** The status shown next to a donation on `perfil`: anything that is not
      completed or pending is shown as failed. */
  function ProfileStatusLabel(status: string): (shown: string)
    ensures status != "completed" && status != "pending" ==> shown == "Falhou"
    ensures shown in {"Concluída", "Pendente", "Falhou"}
  {
    if status == "completed" then "Concluída"
    else if status == "pending" then "Pendente"
    else "Falhou"
  }

  /** The three database statuses get three different labels. */
  lemma ProfileStatusLabelsDistinct()
    ensures ProfileStatusLabel("completed") != ProfileStatusLabel("pending")
    ensures ProfileStatusLabel("pending") != ProfileStatusLabel("failed")
    ensures ProfileStatusLabel("completed") != ProfileStatusLabel("failed")
  {
  }

  // ---------------------------------------------------------------------
  // Reputation and badges

  /** The reputation figures the page shows. */
  datatype Reputation = Reputation(points: int, donationsCount: int, reviewsCount: int, badges: seq<string>)

  /** A `user_reputation` row as read; a null or zero column is `None`. */
  datatype ReputationRow = ReputationRow(
    points: Option<int>,
    donationsCount: Option<int>,
    reviewsCount: Option<int>,
    badges: Option<seq<string>>)

  /** The code of the PostgREST "no rows" error, which a new user gets. */
  const NoRowsCode := "PGRST116"

  /** `fetchReputation`: any error but "no rows" leaves the shown reputation
      as it was; otherwise a row has its missing figures read as 0 and no row
      at all gives all zeros. */
  function ReputationAfterFetch(shown: Option<Reputation>, row: Option<ReputationRow>,
                                errorCode: Option<string>): (r: Option<Reputation>)
    ensures errorCode.Some? && errorCode.value != NoRowsCode ==> r == shown
    ensures (errorCode.None? || errorCode.value == NoRowsCode) && row.None? ==>
      r == Some(Reputation(0, 0, 0, []))
    ensures (errorCode.None? || errorCode.value == NoRowsCode) && row.Some? ==>
      r.Some? && r.value.points == row.value.points.GetOr(0)
      && r.value.donationsCount == row.value.donationsCount.GetOr(0)
      && r.value.reviewsCount == row.value.reviewsCount.GetOr(0)
      && r.value.badges == row.value.badges.GetOr([])
  {
    if errorCode.Some? && errorCode.value != NoRowsCode then shown
    else match row
      case None => Some(Reputation(0, 0, 0, []))
      case Some(data) =>
        Some(Reputation(data.points.GetOr(0), data.donationsCount.GetOr(0),
                        data.reviewsCount.GetOr(0), data.badges.GetOr([])))
  }

  datatype BadgeKind = DonationBadge | Complete

  /** The badge `getNextBadge` points to. */
  datatype NextBadge = NextBadge(name: string, icon: string, current: int, target: int, kind: BadgeKind)

  /** The donation thresholds of the Bronze, Silver and Gold badges. */
  const BronzeTarget := 3
  const SilverTarget := 10
  const GoldTarget := 25

  /** `getNextBadge`: the first threshold above the donation count, or the
      top level once 25 donations are reached. */
  function GetNextBadge(reputation: Option<Reputation>): (b: Option<NextBadge>)
    ensures reputation.None? <==> b.None?
    ensures b.Some? ==> b.value.current == reputation.value.donationsCount
    ensures b.Some? && b.value.kind == DonationBadge ==>
      b.value.current < b.value.target && b.value.target in {BronzeTarget, SilverTarget, GoldTarget}
      && !(b.value.current < BronzeTarget < b.value.target)
      && !(b.value.current < SilverTarget < b.value.target)
    ensures b.Some? && b.value.kind == Complete <==>
      reputation.Some? && reputation.value.donationsCount >= GoldTarget
    ensures b.Some? && b.value.kind == Complete ==> b.value.target == b.value.current
  {
    match reputation
    case None => None
    case Some(rep) =>
      var n := rep.donationsCount;
      if n < BronzeTarget then Some(NextBadge("Apoiador Bronze", "\U{1F949}", n, BronzeTarget, DonationBadge))
      else if n < SilverTarget then Some(NextBadge("Apoiador Prata", "\U{1F948}", n, SilverTarget, DonationBadge))
      else if n < GoldTarget then Some(NextBadge("Apoiador Ouro", "\U{1F947}", n, GoldTarget, DonationBadge))
      else Some(NextBadge("Nível Máximo", "\U{1F451}", n, n, Complete))
  }

  /** `(current / target) * 100`, or 0 without a badge. */
  function Progress(b: Option<NextBadge>): (p: real)
    requires b.Some? ==> b.value.target != 0
    ensures b.None? ==> p == 0.0
    ensures b.Some? ==> p * b.value.target as real == b.value.current as real * 100.0
  {
    if b.None? then 0.0 else (b.value.current as real / b.value.target as real) * 100.0
  }

  /** The progress bar is drawn only for a badge still to earn; its width is
      `Math.min(progress, 100)`. */
  function ProgressBarWidth(b: Option<NextBadge>): (w: Option<real>)
    requires b.Some? ==> b.value.target != 0
    ensures w.Some? <==> b.Some? && b.value.kind != Complete
    ensures w.Some? ==> w.value <= 100.0
  {
    if b.Some? && b.value.kind != Complete then
      var p := Progress(b);
      Some(if p < 100.0 then p else 100.0)
    else None
  }

  /** For a badge still to earn, progress lies in [0, 100) for a
      non-negative count, so the cap never applies; the top level is exactly
      100. */
  lemma ProgressBelowHundred(reputation: Reputation)
    requires reputation.donationsCount >= 0
    ensures var b := GetNextBadge(Some(reputation));
      b.value.target > 0
      && (b.value.kind == DonationBadge ==> 0.0 <= Progress(b) < 100.0 && ProgressBarWidth(b) == Some(Progress(b)))
      && (b.value.kind == Complete ==> Progress(b) == 100.0 && ProgressBarWidth(b).None?)
  {
    var b := GetNextBadge(Some(reputation));
    var c := b.value.current as real;
    var t := b.value.target as real;
    assert t > 0.0;
    if b.value.kind == DonationBadge {
      assert 0.0 <= c < t;
      assert c / t < 1.0 by {
        assert c / t * t == c;
      }
    } else {
      assert c == t;
      assert c / t == 1.0;
    }
  }

  // ---------------------------------------------------------------------
  // Name and password handlers

  datatype ProfileError = PasswordRefused(reason: PasswordError) | UpdateFailed(message: string)

  datatype ProfileSuccess = NameUpdated | PasswordChanged

  /** `err.message || fallback`. */
  function ErrorMessage(message: string, fallback: string): (m: string)
    ensures m != [] <== fallback != []
    ensures message != [] ==> m == message
    ensures message == [] ==> m == fallback
  {
    if message == [] then fallback else message
  }

  /** The profile form state of either page. */
  class ProfileForm {
    var name: string
    var newPassword: string
    var confirmPassword: string
    var editing: bool
    var changingPassword: bool
    var loading: bool
    var error: Option<ProfileError>
    var success: Option<ProfileSuccess>

    constructor (fullName: string)
      ensures name == fullName && newPassword == "" && confirmPassword == ""
      ensures !editing && !changingPassword && loading && error.None? && success.None?
    {
      name := fullName;
      newPassword := "";
      confirmPassword := "";
      editing := false;
      changingPassword := false;
      loading := true;
      error := None;
      success := None;
    }

    /** `handleUpdateName`: nothing happens without a user or with a blank
        name; otherwise the name as typed (not trimmed) is sent, and the
        outcome sets either the success message (closing the editor) or the
        error message. */
    method UpdateName(signedIn: bool, updateError: Option<string>) returns (sent: Option<string>)
      modifies this
      ensures !signedIn || IsBlank(old(name)) ==>
        sent.None? && error == old(error) && success == old(success)
        && editing == old(editing) && loading == old(loading)
      ensures signedIn && !IsBlank(old(name)) ==> sent == Some(old(name)) && !loading
      ensures signedIn && !IsBlank(old(name)) && updateError.None? ==>
        success == Some(NameUpdated) && error.None? && !editing
      ensures signedIn && !IsBlank(old(name)) && updateError.Some? ==>
        error == Some(UpdateFailed(ErrorMessage(updateError.value, "Erro ao atualizar nome")))
        && success.None? && editing == old(editing)
      ensures name == old(name) && newPassword == old(newPassword)
        && confirmPassword == old(confirmPassword) && changingPassword == old(changingPassword)
    {
      if !signedIn || IsBlank(name) {
        return None;
      }
      error := None;
      success := None;
      loading := true;
      sent := Some(name);
      if updateError.None? {
        success := Some(NameUpdated);
        editing := false;
      } else {
        error := Some(UpdateFailed(ErrorMessage(updateError.value, "Erro ao atualizar nome")));
      }
      loading := false;
    }

    /** `handleChangePassword`: the password checks run first and a failure
        only sets its message; a password that passes them is sent, and a
        success closes the form and clears both fields. */
    method ChangePassword(signedIn: bool, updateError: Option<string>) returns (sent: Option<string>)
      modifies this
      ensures !signedIn ==>
        sent.None? && error == old(error) && success == old(success)
        && newPassword == old(newPassword) && confirmPassword == old(confirmPassword)
        && loading == old(loading) && changingPassword == old(changingPassword)
      ensures signedIn && PasswordGuard(old(newPassword), old(confirmPassword)).Some? ==>
        sent.None? && success.None?
        && error == Some(PasswordRefused(PasswordGuard(old(newPassword), old(confirmPassword)).value))
        && newPassword == old(newPassword) && confirmPassword == old(confirmPassword)
        && loading == old(loading) && changingPassword == old(changingPassword)
      ensures sent.Some? <==> signedIn && PasswordGuard(old(newPassword), old(confirmPassword)).None?
      ensures sent.Some? ==> sent.value == old(newPassword) && |sent.value| >= MinPasswordLength && !loading
      ensures sent.Some? && updateError.None? ==>
        success == Some(PasswordChanged) && error.None? && !changingPassword
        && newPassword == "" && confirmPassword == ""
      ensures sent.Some? && updateError.Some? ==>
        success.None? && error == Some(UpdateFailed(ErrorMessage(updateError.value, "Erro ao alterar senha")))
        && newPassword == old(newPassword) && confirmPassword == old(confirmPassword)
        && changingPassword == old(changingPassword)
      ensures name == old(name) && editing == old(editing)
    {
      if !signedIn {
        return None;
      }
      error := None;
      success := None;
      var refusal := PasswordGuard(newPassword, confirmPassword);
      if refusal.Some? {
        error := Some(PasswordRefused(refusal.value));
        return None;
      }
      loading := true;
      sent := Some(newPassword);
      if updateError.None? {
        success := Some(PasswordChanged);
        changingPassword := false;
        newPassword := "";
        confirmPassword := "";
      } else {
        error := Some(UpdateFailed(ErrorMessage(updateError.value, "Erro ao alterar senha")));
      }
      loading := false;
    }
  }
}
