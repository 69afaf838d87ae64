/**
 * The owner's donations dashboard (`dashboard/doacoes`): donations grouped
 * per owned ecopoint with completed-only totals, the in-place sort by total
 * received, the overall totals and the status labels.
 */
module DonationsDashboard {
  import opened Common
  import opened Schema

  /** An ecopoint owned by the signed-in user. */
  datatype OwnedEcopoint = OwnedEcopoint(id: Id, name: string)

  /** `EcopointWithDonations`; `totalReceived` is in cents. */
  datatype EcopointDonations = EcopointDonations(
    id: Id,
    name: string,
    totalReceived: int,
    donationsCount: nat,
    donations: seq<Donation>)

  function TotalReceived(g: EcopointDonations): int { g.totalReceived }

  function DonationsCount(g: EcopointDonations): int { g.donationsCount }

  /** `donations.filter(d => d.ecopoint_id === id)`. */
  function ForEcopoint(ds: seq<Donation>, id: Id): seq<Donation> {
    Filter(ds, (d: Donation) => d.ecopointId == id)
  }

  /** One entry of the grouping: the ecopoint's donations in query order,
      the sum and the number of its completed ones. */
  function GroupOf(e: OwnedEcopoint, ds: seq<Donation>): (g: EcopointDonations)
    ensures g.id == e.id && g.name == e.name
    ensures forall d :: d in g.donations <==> d in ds && d.ecopointId == e.id
    ensures g.donationsCount <= |g.donations|
  {
    var mine := ForEcopoint(ds, e.id);
    EcopointDonations(e.id, e.name, CompletedTotal(mine), |CompletedOnly(mine)|, mine)
  }

  /** `ecopoints.map(...)`, before the sort. */
  function Grouped(ecopoints: seq<OwnedEcopoint>, ds: seq<Donation>): (gs: seq<EcopointDonations>)
    ensures |gs| == |ecopoints|
    ensures forall i :: 0 <= i < |ecopoints| ==> gs[i] == GroupOf(ecopoints[i], ds)
  {
    seq(|ecopoints|, i requires 0 <= i < |ecopoints| => GroupOf(ecopoints[i], ds))
  }

  // ---------------------------------------------------------------------
  // grouped.sort((a, b) => b.total_received - a.total_received)

  /** The totals of `s[lo..hi]` never increase. */
  predicate SortedBetween(s: seq<EcopointDonations>, lo: int, hi: int)
    requires 0 <= lo <= hi <= |s|
  {
    forall p, q :: lo <= p < q < hi ==> s[p].totalReceived >= s[q].totalReceived
  }

  /** Every total before `j` is at least every total in `(j, i]`. */
  predicate AboveAcross(s: seq<EcopointDonations>, j: int, i: int)
    requires 0 <= j <= i < |s|
  {
    forall p, q :: 0 <= p < j < q <= i ==> s[p].totalReceived >= s[q].totalReceived
  }

  method Swap(a: array<EcopointDonations>, i: int, j: int)
    requires 0 <= i < a.Length && 0 <= j < a.Length
    modifies a
    ensures a[..] == old(a[..])[i := old(a[j])][j := old(a[i])]
    ensures multiset(a[..]) == multiset(old(a[..]))
  {
    a[i], a[j] := a[j], a[i];
  }

  /** Swapping the out-of-order pair at `j - 1`, `j` moves the gap one
      place left and keeps both sorted runs. */
  lemma SinkStep(b: seq<EcopointDonations>, c: seq<EcopointDonations>, j: int, i: int)
    requires 0 < j <= i < |b| && c == b[j - 1 := b[j]][j := b[j - 1]]
    requires b[j - 1].totalReceived < b[j].totalReceived
    requires SortedBetween(b, 0, j) && SortedBetween(b, j, i + 1) && AboveAcross(b, j, i)
    ensures SortedBetween(c, 0, j - 1) && SortedBetween(c, j - 1, i + 1) && AboveAcross(c, j - 1, i)
  {
  }

  /** When the pair at the gap is in order, the whole of `s[..i + 1]` is
      sorted. */
  lemma SinkDone(s: seq<EcopointDonations>, j: int, i: int)
    requires 0 <= j <= i < |s|
    requires j == 0 || s[j - 1].totalReceived >= s[j].totalReceived
    requires SortedBetween(s, 0, j) && SortedBetween(s, j, i + 1) && AboveAcross(s, j, i)
    ensures SortedBetween(s, 0, i + 1)
  {
  }

  /** Moves `a[i]` left past every smaller total, so that `a[..i + 1]` is
      sorted when `a[..i]` was. */
  method SinkLeft(a: array<EcopointDonations>, i: int)
    requires 0 <= i < a.Length && SortedBetween(a[..], 0, i)
    modifies a
    ensures SortedBetween(a[..], 0, i + 1)
    ensures multiset(a[..]) == multiset(old(a[..]))
  {
    var j := i;
    while j > 0 && a[j - 1].totalReceived < a[j].totalReceived
      invariant 0 <= j <= i
      invariant SortedBetween(a[..], 0, j) && SortedBetween(a[..], j, i + 1) && AboveAcross(a[..], j, i)
      invariant multiset(a[..]) == multiset(old(a[..]))
    {
      ghost var b := a[..];
      Swap(a, j - 1, j);
      SinkStep(b, a[..], j, i);
      j := j - 1;
    }
    SinkDone(a[..], j, i);
  }

  /** Insertion sort by `totalReceived`, largest first, swapping in place. */
  method SortByTotalDesc(a: array<EcopointDonations>)
    modifies a
    ensures SortedDesc(a[..], TotalReceived)
    ensures multiset(a[..]) == multiset(old(a[..]))
  {
    var i := 0;
    while i < a.Length
      invariant 0 <= i <= a.Length
      invariant SortedBetween(a[..], 0, i)
      invariant multiset(a[..]) == multiset(old(a[..]))
    {
      SinkLeft(a, i);
      i := i + 1;
    }
    assert forall p, q :: 0 <= p < q < a.Length ==> TotalReceived(a[..][p]) >= TotalReceived(a[..][q]);
  }

  /** The message shown when either query fails. */
  const LoadError := "Erro ao carregar doações. Tente novamente."

  /** `fetchDonations` for a signed-in user, given what the owned-ecopoints
      query and then the donations query returned. A failed query sets the
      error and keeps the `previous` list; no owned ecopoints gives the empty
      list without asking for donations; otherwise the list is the grouping
      sorted by total received. */
  method FetchDonations(previous: seq<EcopointDonations>, ecopoints: Remote<seq<OwnedEcopoint>>,
                        ds: Remote<seq<Donation>>)
    returns (result: seq<EcopointDonations>, error: Option<string>)
    ensures ecopoints.Failure? ==> result == previous && error == Some(LoadError)
    ensures ecopoints == Success([]) ==> result == [] && error.None?
    ensures ecopoints.Success? && ecopoints.data != [] && ds.Failure? ==>
      result == previous && error == Some(LoadError)
    ensures ecopoints.Success? && ds.Success? ==>
      error.None? && multiset(result) == multiset(Grouped(ecopoints.data, ds.data))
      && SortedDesc(result, TotalReceived)
  {
    if ecopoints.Failure? {
      return previous, Some(LoadError);
    }
    if |ecopoints.data| == 0 {
      return [], None;
    }
    if ds.Failure? {
      return previous, Some(LoadError);
    }
    var grouped := Grouped(ecopoints.data, ds.data);
    var a := new EcopointDonations[|grouped|](i requires 0 <= i < |grouped| => grouped[i]);
    assert a[..] == grouped;
    SortByTotalDesc(a);
    result, error := a[..], None;
  }

  // ---------------------------------------------------------------------
  // Properties of the grouping

  /** Sum of the completed donations whose ecopoint is in `ids`. */
  function CompletedIn(ds: seq<Donation>, ids: set<Id>): int {
    if ds == [] then 0
    else (if IsCompleted(ds[0]) && ds[0].ecopointId in ids then ds[0].amount else 0) + CompletedIn(ds[1..], ids)
  }

  /** Number of completed donations whose ecopoint is in `ids`. */
  function CompletedCountIn(ds: seq<Donation>, ids: set<Id>): int {
    if ds == [] then 0
    else (if IsCompleted(ds[0]) && ds[0].ecopointId in ids then 1 else 0) + CompletedCountIn(ds[1..], ids)
  }

  /** An entry's total and count are those of its completed donations only. */
  lemma {:induction false} GroupTotalsAreCompletedOnly(e: OwnedEcopoint, ds: seq<Donation>)
    ensures GroupOf(e, ds).totalReceived == CompletedIn(ds, {e.id})
    ensures GroupOf(e, ds).donationsCount == CompletedCountIn(ds, {e.id})
  {
    if ds != [] {
      GroupTotalsAreCompletedOnly(e, ds[1..]);
      var d := ds[0];
      var rest := ForEcopoint(ds[1..], e.id);
      if d.ecopointId == e.id {
        assert ForEcopoint(ds, e.id) == [d] + rest;
        if IsCompleted(d) {
          assert CompletedOnly([d] + rest) == [d] + CompletedOnly(rest);
        } else {
          assert CompletedOnly([d] + rest) == CompletedOnly(rest);
        }
      } else {
        assert ForEcopoint(ds, e.id) == rest;
      }
    }
  }

  function Ids(ecopoints: seq<OwnedEcopoint>): set<Id> {
    set e | e in ecopoints :: e.id
  }

  predicate DistinctIds(ecopoints: seq<OwnedEcopoint>) {
    forall i, j :: 0 <= i < j < |ecopoints| ==> ecopoints[i].id != ecopoints[j].id
  }

  lemma {:induction false} CompletedInUnion(ds: seq<Donation>, a: set<Id>, b: set<Id>)
    requires a !! b
    ensures CompletedIn(ds, a + b) == CompletedIn(ds, a) + CompletedIn(ds, b)
    ensures CompletedCountIn(ds, a + b) == CompletedCountIn(ds, a) + CompletedCountIn(ds, b)
  {
    if ds != [] {
      CompletedInUnion(ds[1..], a, b);
    }
  }

  lemma {:induction false} CompletedInNone(ds: seq<Donation>)
    ensures CompletedIn(ds, {}) == 0 && CompletedCountIn(ds, {}) == 0
  {
    if ds != [] {
      CompletedInNone(ds[1..]);
    }
  }

  /** The dashboard's overall totals are the sums of the completed donations
      of all owned ecopoints (each counted once, the ids being distinct). */
  lemma {:induction false} OverallTotals(ecopoints: seq<OwnedEcopoint>, ds: seq<Donation>)
    requires DistinctIds(ecopoints)
    ensures SumOf(Grouped(ecopoints, ds), TotalReceived) == CompletedIn(ds, Ids(ecopoints))
    ensures SumOf(Grouped(ecopoints, ds), DonationsCount) == CompletedCountIn(ds, Ids(ecopoints))
  {
    if ecopoints == [] {
      assert Ids(ecopoints) == {};
      assert Grouped(ecopoints, ds) == [];
      CompletedInNone(ds);
    } else {
      var e := ecopoints[0];
      var rest := ecopoints[1..];
      assert DistinctIds(rest) by {
        forall i, j | 0 <= i < j < |rest| ensures rest[i].id != rest[j].id {
          assert rest[i] == ecopoints[i + 1] && rest[j] == ecopoints[j + 1];
        }
      }
      OverallTotals(rest, ds);
      assert Grouped(ecopoints, ds)[1..] == Grouped(rest, ds);
      GroupTotalsAreCompletedOnly(e, ds);
      assert e.id !in Ids(rest) by {
        forall k | 0 <= k < |rest| ensures rest[k].id != e.id {
          assert rest[k] == ecopoints[k + 1];
        }
      }
      assert Ids(ecopoints) == {e.id} + Ids(rest) by {
        assert ecopoints == [e] + rest;
      }
      CompletedInUnion(ds, {e.id}, Ids(rest));
    }
  }

  /** Sorting does not change the overall totals nor the number of active
      ecopoints. */
  lemma SortKeepsTotals(grouped: seq<EcopointDonations>, sorted: seq<EcopointDonations>)
    requires multiset(sorted) == multiset(grouped)
    ensures SumOf(sorted, TotalReceived) == SumOf(grouped, TotalReceived)
    ensures SumOf(sorted, DonationsCount) == SumOf(grouped, DonationsCount)
    ensures ActiveCount(sorted) == ActiveCount(grouped)
  {
    SumOfPermutation(sorted, grouped, TotalReceived);
    SumOfPermutation(sorted, grouped, DonationsCount);
    SumOfPermutation(sorted, grouped, ActiveIndicator);
    ActiveCountIsSum(sorted);
    ActiveCountIsSum(grouped);
  }

  function ActiveIndicator(g: EcopointDonations): int { if g.donationsCount > 0 then 1 else 0 }

  /** "Ecopontos Ativos": entries with at least one completed donation. */
  function ActiveCount(gs: seq<EcopointDonations>): (n: int)
    ensures 0 <= n <= |gs|
  {
    if gs == [] then 0 else ActiveIndicator(gs[0]) + ActiveCount(gs[1..])
  }

  /** `filter(ep => ep.donations_count > 0).length` is the sum of the
      indicators. */
  lemma {:induction false} ActiveCountIsSum(gs: seq<EcopointDonations>)
    ensures ActiveCount(gs) == SumOf(gs, ActiveIndicator)
    ensures ActiveCount(gs) == |Filter(gs, (g: EcopointDonations) => g.donationsCount > 0)|
  {
    if gs != [] {
      ActiveCountIsSum(gs[1..]);
    }
  }

  /** A donation that is not completed changes no total and no count; a
      completed one for an ecopoint adds its amount and one to that entry. */
  lemma NewDonationEffect(e: OwnedEcopoint, ds: seq<Donation>, d: Donation)
    ensures !IsCompleted(d) || d.ecopointId != e.id ==>
      GroupOf(e, ds + [d]).totalReceived == GroupOf(e, ds).totalReceived
      && GroupOf(e, ds + [d]).donationsCount == GroupOf(e, ds).donationsCount
    ensures IsCompleted(d) && d.ecopointId == e.id ==>
      GroupOf(e, ds + [d]).totalReceived == GroupOf(e, ds).totalReceived + d.amount
      && GroupOf(e, ds + [d]).donationsCount == GroupOf(e, ds).donationsCount + 1
  {
    GroupTotalsAreCompletedOnly(e, ds + [d]);
    GroupTotalsAreCompletedOnly(e, ds);
    CompletedInAppend(ds, d, {e.id});
  }

  lemma {:induction false} CompletedInAppend(ds: seq<Donation>, d: Donation, ids: set<Id>)
    ensures CompletedIn(ds + [d], ids) == CompletedIn(ds, ids) + (if IsCompleted(d) && d.ecopointId in ids then d.amount else 0)
    ensures CompletedCountIn(ds + [d], ids) == CompletedCountIn(ds, ids) + (if IsCompleted(d) && d.ecopointId in ids then 1 else 0)
  {
    if ds == [] {
      assert ds + [d] == [d];
    } else {
      assert (ds + [d])[1..] == ds[1..] + [d];
      CompletedInAppend(ds[1..], d, ids);
    }
  }

  // ---------------------------------------------------------------------
  // getStatusBadge

  /** The badge text: the three statuses get labels, anything else is
      shown as it is. */
  function StatusBadgeLabel(status: string): (shown: string)
    ensures status !in {"completed", "pending", "failed"} ==> shown == status
  {
    if status == "completed" then "Concluída"
    else if status == "pending" then "Pendente"
    else if status == "failed" then "Falhou"
    else status
  }

  function StatusName(s: DonationStatus): string {
    match s
    case Pending => "pending"
    case Completed => "completed"
    case Failed => "failed"
  }

  /** Every status of the enum gets its own label, different from its raw
      name. */
  lemma StatusBadgesDistinct(s1: DonationStatus, s2: DonationStatus)
    ensures StatusBadgeLabel(StatusName(s1)) == StatusBadgeLabel(StatusName(s2)) <==> s1 == s2
    ensures StatusBadgeLabel(StatusName(s1)) != StatusName(s1)
  {
  }
}
