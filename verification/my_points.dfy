/**
 * The owner's ecopoint list (`dashboard/meus-pontos`): deleting an
 * ecopoint, the category chips of a card and the status badge. The
 * browser's confirmation dialog and the delete's outcome are parameters.
 */
module MyPoints {
  import opened Common
  import opened Schema
  import Categories

  /** A chip of a card: a known category (icon and name), or the "+n"
      chip counting the categories beyond the third. */
  datatype Chip = CategoryChip(icon: string, name: string) | MoreChip(hidden: int)

  /** `CATEGORY_MAP[slug]` is defined. */
  predicate IsKnown(slug: string) {
    Categories.Lookup(Categories.CategoryEntries, slug).Some?
  }

  /** The chip of a known slug: its icon and name. */
  function ChipOf(slug: string): Chip {
    CategoryChip(Categories.GetCategoryInfo(slug).icon, Categories.GetCategoryInfo(slug).name)
  }

  /** The chips of the given slugs, in order; a slug that is not in the table
      shows nothing. They are the chips of the known slugs, one each. */
  function KnownChips(slugs: seq<string>): (chips: seq<Chip>)
    ensures |chips| == |Filter(slugs, IsKnown)| <= |slugs|
    ensures forall i :: 0 <= i < |chips| ==> chips[i] == ChipOf(Filter(slugs, IsKnown)[i])
  {
    if slugs == [] then []
    else
      var rest := KnownChips(slugs[1..]);
      if IsKnown(slugs[0]) then
        assert Filter(slugs, IsKnown) == [slugs[0]] + Filter(slugs[1..], IsKnown);
        [ChipOf(slugs[0])] + rest
      else
        assert Filter(slugs, IsKnown) == Filter(slugs[1..], IsKnown);
        rest
  }

  function Min(a: int, b: int): int { if a <= b then a else b }

  /** `category.slice(0, 3)` as chips, then "+(n - 3)" when there are more
      than three: the chips of the known slugs among the first three, in
      order, followed by the count of the rest. */
  function CategoryChips(category: seq<string>): (chips: seq<Chip>)
    ensures var known := Filter(category[..Min(3, |category|)], IsKnown);
      && |chips| == |known| + (if |category| > 3 then 1 else 0)
      && forall i :: 0 <= i < |known| ==> chips[i] == ChipOf(known[i])
    ensures |chips| <= 4
    ensures |category| <= 3 ==> |chips| <= |category|
    ensures |category| > 3 <==> chips != [] && chips[|chips| - 1] == MoreChip(|category| - 3)
    ensures forall i :: 0 <= i < |chips| && chips[i].MoreChip? ==> i == |chips| - 1 && |category| > 3
  {
    var shown := category[..Min(3, |category|)];
    var known := KnownChips(shown);
    if |category| > 3 then known + [MoreChip(|category| - 3)] else known
  }

  /** When every slug is known, each gets its own chip, in order. */
  lemma {:induction false} KnownSlugsGetChips(slugs: seq<string>)
    requires forall s :: s in slugs ==> IsKnown(s)
    ensures |KnownChips(slugs)| == |slugs|
    ensures forall i :: 0 <= i < |slugs| ==> KnownChips(slugs)[i] == ChipOf(slugs[i])
  {
    AllKnownKept(slugs);
  }

  lemma {:induction false} AllKnownKept(slugs: seq<string>)
    requires forall s :: s in slugs ==> IsKnown(s)
    ensures Filter(slugs, IsKnown) == slugs
  {
    if slugs != [] {
      AllKnownKept(slugs[1..]);
      assert slugs == [slugs[0]] + slugs[1..];
    }
  }

  /** `getStatusBadge`: the label of each ecopoint status; any other text
      has no label. */
  function StatusBadge(status: string): (badge: Option<string>)
    ensures badge.Some? <==> status in {"validated", "pending", "rejected"}
  {
    if status == "validated" then Some("Validado")
    else if status == "pending" then Some("Pendente")
    else if status == "rejected" then Some("Rejeitado")
    else None
  }

  /** The rows the delete removes from the `ecopoints` table: those with
      that id whose owner is the caller. */
  function RowsAfterDelete(rows: seq<Ecopoint>, id: Id, owner: Id): (r: seq<Ecopoint>)
    ensures forall e :: e in r <==> e in rows && !(e.id == id && e.ownerId == Some(owner))
  {
    Filter(rows, (e: Ecopoint) => !(e.id == id && e.ownerId == Some(owner)))
  }

  /** Another owner's ecopoint survives the delete, whatever its id. */
  lemma OtherOwnersUntouched(rows: seq<Ecopoint>, id: Id, owner: Id, e: Ecopoint)
    requires e in rows && e.ownerId != Some(owner)
    ensures e in RowsAfterDelete(rows, id, owner)
  {
  }

  datatype PageError = DeleteFailed

  predicate DistinctIds(s: seq<Ecopoint>) {
    forall i, j :: 0 <= i < j < |s| ==> s[i].id != s[j].id
  }

  /** `e => e.id !== id`. */
  function NotId(id: Id): Ecopoint -> bool {
    (e: Ecopoint) => e.id != id
  }

  function WithoutId(s: seq<Ecopoint>, id: Id): seq<Ecopoint> {
    Filter(s, NotId(id))
  }

  /** The page's list and flags. */
  class MyPointsPage {
    var ecopoints: seq<Ecopoint>
    var error: Option<PageError>
    var deletingId: Option<Id>

    constructor (owned: seq<Ecopoint>)
      ensures ecopoints == owned && error.None? && deletingId.None?
    {
      ecopoints := owned;
      error := None;
      deletingId := None;
    }

    /** `handleDelete`: nothing happens without a user or when the
        confirmation is declined; otherwise the delete is sent with both the
        id and the owner, and only a success drops that id from the list. */
    method Delete(user: Option<Id>, id: Id, confirmed: bool, deleteSucceeds: bool)
      returns (sent: Option<(Id, Id)>)
      modifies this
      ensures user.None? || !confirmed ==>
        sent.None? && ecopoints == old(ecopoints) && error == old(error) && deletingId == old(deletingId)
      ensures sent.Some? <==> user.Some? && confirmed
      ensures sent.Some? ==> sent.value == (id, user.value) && deletingId.None?
      ensures sent.Some? && deleteSucceeds ==> ecopoints == WithoutId(old(ecopoints), id) && error.None?
      ensures sent.Some? && !deleteSucceeds ==> ecopoints == old(ecopoints) && error == Some(DeleteFailed)
    {
      if user.None? || !confirmed {
        return None;
      }
      deletingId := Some(id);
      error := None;
      sent := Some((id, user.value));
      if deleteSucceeds {
        ecopoints := WithoutId(ecopoints, id);
      } else {
        error := Some(DeleteFailed);
      }
      deletingId := None;
    }
  }

  lemma {:induction false} WithoutAbsentId(s: seq<Ecopoint>, id: Id)
    requires forall i :: 0 <= i < |s| ==> s[i].id != id
    ensures WithoutId(s, id) == s
  {
    if s != [] {
      WithoutAbsentId(s[1..], id);
    }
  }

  /** With distinct ids, removing the id of entry `k` leaves exactly the
      other entries, in their order. */
  lemma RemovesExactlyOne(s: seq<Ecopoint>, k: nat)
    requires DistinctIds(s) && k < |s|
    ensures WithoutId(s, s[k].id) == s[..k] + s[k + 1..]
  {
    var id := s[k].id;
    var a, b := s[..k], s[k + 1..];
    assert s == a + [s[k]] + b;
    forall i | 0 <= i < |a| ensures a[i].id != id {
      assert a[i] == s[i];
    }
    forall i | 0 <= i < |b| ensures b[i].id != id {
      assert b[i] == s[k + 1 + i];
    }
    WithoutMiddle(a, s[k], b);
  }

  /** Dropping the id of the one entry that has it leaves the others. */
  lemma WithoutMiddle(a: seq<Ecopoint>, x: Ecopoint, b: seq<Ecopoint>)
    requires forall i :: 0 <= i < |a| ==> a[i].id != x.id
    requires forall i :: 0 <= i < |b| ==> b[i].id != x.id
    ensures WithoutId(a + [x] + b, x.id) == a + b
  {
    WithoutAppend(a + [x], b, x.id);
    WithoutAppend(a, [x], x.id);
    assert WithoutId([x], x.id) == [] by {
      assert [x][1..] == [];
    }
    WithoutAbsentId(a, x.id);
    WithoutAbsentId(b, x.id);
    calc {
      WithoutId(a + [x] + b, x.id);
      WithoutId(a, x.id) + WithoutId([x], x.id) + WithoutId(b, x.id);
      a + [] + b;
    }
    assert a + [] == a;
  }

  lemma WithoutAppend(a: seq<Ecopoint>, b: seq<Ecopoint>, id: Id)
    ensures WithoutId(a + b, id) == WithoutId(a, id) + WithoutId(b, id)
  {
    FilterAppend(a, b, NotId(id));
  }
}
