/**
 * The import page (`dashboard/importar`): the search guards, the result
 * list with its per-place categories and imported marks, and the guarded
 * insert of a place as a pending ecopoint. The Google Places search, the
 * insert and the user's position enter as parameters; the result list is
 * an array updated in place at the matching entries.
 */
module Importer {
  import opened Common
  import opened Schema
  import opened EcopointLocations
  import ValidationRoutes

  /** `PlaceResult`. */
  datatype PlaceResult = PlaceResult(
    id: string,
    name: string,
    address: string,
    lat: real,
    lng: real,
    rating: Option<real>,
    category: seq<string>,
    imported: bool)

  /** A place as the search returns it. */
  datatype Place = Place(id: string, name: string, address: string, lat: real, lng: real, rating: Option<real>)

  /** The signed-in user; `email` is "" when the account has none. */
  datatype User = User(id: Id, email: string)

  /** The row handed to the `ecopoints` insert. */
  datatype NewEcopoint = NewEcopoint(
    name: string,
    description: string,
    email: string,
    location: string,
    category: seq<string>,
    status: EcopointStatus,
    importedFrom: string,
    importedBy: Id)

  datatype ImportError =
    | EmptyQuery
    | NoLocation
    | ApiKeyMissing
    | NothingFound
    | SearchFailed
    | NoCategory
    | NotSignedIn
    | ImportFailed

  const DescriptionPrefix := "Importado do Google Maps. Endereço: "
  const FallbackEmail := "import@ecomapa.com"

  /** `!latitude || !longitude`: a missing or zero coordinate counts as no
      position. */
  predicate HasPosition(position: Option<(real, real)>): (has: bool)
    ensures position.None? ==> !has
    ensures position.Some? && (position.value.0 == 0.0 || position.value.1 == 0.0) ==> !has
    ensures position.Some? && position.value.0 != 0.0 && position.value.1 != 0.0 ==> has
  {
    position.Some? && position.value.0 != 0.0 && position.value.1 != 0.0
  }

  /** The checks of `handleSearch`, in order. */
  function SearchGuard(query: string, position: Option<(real, real)>): (r: Option<ImportError>)
    ensures r.None? <==> !IsBlank(query) && HasPosition(position)
    ensures IsBlank(query) ==> r == Some(EmptyQuery)
  {
    if IsBlank(query) then Some(EmptyQuery)
    else if !HasPosition(position) then Some(NoLocation)
    else None
  }

  /** A search result as first shown: no category, not imported. */
  function Transformed(p: Place): (r: PlaceResult)
    ensures r.category == [] && !r.imported
    ensures r.id == p.id && r.lat == p.lat && r.lng == p.lng
  {
    PlaceResult(p.id, p.name, p.address, p.lat, p.lng, p.rating, [], false)
  }

  /** The checks of `handleImportPlace`, in order. */
  function ImportGuard(place: PlaceResult, user: Option<User>): (r: Option<ImportError>)
    ensures r.None? <==> place.category != [] && user.Some?
    ensures place.category == [] ==> r == Some(NoCategory)
  {
    if place.category == [] then Some(NoCategory)
    else if user.None? then Some(NotSignedIn)
    else None
  }

  /** `insertData`. */
  function InsertRow(f: NumberFormat, place: PlaceResult, user: User): (row: NewEcopoint)
    ensures row.status == EcopointStatus.Pending && row.importedBy == user.id && row.importedFrom == "google_maps"
    ensures row.name == place.name && row.category == place.category
    ensures row.description == DescriptionPrefix + place.address
    ensures row.email == (if user.email == "" then FallbackEmail else user.email) && row.email != ""
    ensures row.location == PointText(f.show(place.lng), f.show(place.lat))
  {
    NewEcopoint(place.name, DescriptionPrefix + place.address,
                if user.email == "" then FallbackEmail else user.email,
                PointText(f.show(place.lng), f.show(place.lat)),
                place.category, EcopointStatus.Pending, "google_maps", user.id)
  }

  /** The inserted location reads back, on the map, as the place's own
      coordinates. */
  lemma InsertedLocationReadsBack(f: NumberFormat, place: PlaceResult, user: User, fields: Fields)
    requires Faithful(f)
    ensures var loc := FromTable(f, TableRow(fields, Some(InsertRow(f, place, user).location)));
      loc.lat == place.lat && loc.lng == place.lng
  {
    ImportedPointReadsBack(f, fields, place.lat, place.lng);
  }

  /** The body of the background request to `/api/send-validation-email`
      made after an insert that returned an id, when the user has an
      e-mail. */
  function InviteAfterImport(place: PlaceResult, user: User, newId: Id): (req: ValidationRoutes.InviteRequest)
    ensures req.ecopointId == newId && req.ecopointName == place.name
    ensures req.ecopointAddress == place.address && req.ecopointEmail == user.email
  {
    ValidationRoutes.InviteRequest(newId, place.name, place.address, user.email)
  }

  /** The inserted row, as the `ecopoints` table then holds it. */
  function StoredEcopoint(row: NewEcopoint, newId: Id, acceptsDonations: bool): (e: Ecopoint)
    ensures e.id == newId && e.importedBy == Some(row.importedBy) && e.status == row.status
  {
    Ecopoint(newId, row.name, None, Some(row.importedBy), row.status, acceptsDonations, false)
  }

  /** The invitation the importer asks for passes every check of the e-mail
      route when it names the place, its id and an e-mail: the caller is the
      importer and the new ecopoint is still pending. */
  lemma InviteAfterImportIsAllowed(f: NumberFormat, place: PlaceResult, user: User, newId: Id,
                                   acceptsDonations: bool, ecopoints: map<Id, Ecopoint>)
    requires newId != "" && place.name != "" && user.email != ""
    requires newId in ecopoints
    requires ecopoints[newId] == StoredEcopoint(InsertRow(f, place, user), newId, acceptsDonations)
    ensures ValidationRoutes.SendGuard(Some(user.id), InviteAfterImport(place, user, newId), ecopoints, true).None?
  {
  }

  /** `prev.map(r => r.id === id ? { ...r, category } : r)`. */
  function WithCategory(rs: seq<PlaceResult>, id: string, category: seq<string>): (r: seq<PlaceResult>)
    ensures |r| == |rs|
    ensures forall i :: 0 <= i < |rs| ==>
      r[i] == if rs[i].id == id then rs[i].(category := category) else rs[i]
  {
    seq(|rs|, i requires 0 <= i < |rs| => if rs[i].id == id then rs[i].(category := category) else rs[i])
  }

  /** `prev.map(r => r.id === id ? { ...r, imported: true } : r)`. */
  function MarkImported(rs: seq<PlaceResult>, id: string): (r: seq<PlaceResult>)
    ensures |r| == |rs|
    ensures forall i :: 0 <= i < |rs| ==> r[i] == if rs[i].id == id then rs[i].(imported := true) else rs[i]
  {
    seq(|rs|, i requires 0 <= i < |rs| => if rs[i].id == id then rs[i].(imported := true) else rs[i])
  }

  function IsImported(r: PlaceResult): bool { r.imported }

  /** `results.filter(r => r.imported).length`. */
  function ImportedCount(rs: seq<PlaceResult>): (n: nat)
    ensures n <= |rs|
  {
    |Filter(rs, IsImported)|
  }

  function ImportedIndicator(r: PlaceResult): int { if r.imported then 1 else 0 }

  lemma {:induction false} ImportedCountIsSum(rs: seq<PlaceResult>)
    ensures ImportedCount(rs) == SumOf(rs, ImportedIndicator)
  {
    if rs != [] {
      ImportedCountIsSum(rs[1..]);
      assert Filter(rs, IsImported) == (if rs[0].imported then [rs[0]] else []) + Filter(rs[1..], IsImported);
    }
  }

  predicate DistinctIds(rs: seq<PlaceResult>) {
    forall i, j :: 0 <= i < j < |rs| ==> rs[i].id != rs[j].id
  }

  /** Marking a place that was not yet imported, in a list with distinct
      ids, raises the imported count by exactly one; marking it again
      changes nothing. */
  lemma {:induction false} MarkImportedCount(rs: seq<PlaceResult>, k: nat)
    requires DistinctIds(rs) && k < |rs|
    ensures ImportedCount(MarkImported(rs, rs[k].id)) == ImportedCount(rs) + (if rs[k].imported then 0 else 1)
  {
    var ms := MarkImported(rs, rs[k].id);
    ImportedCountIsSum(rs);
    ImportedCountIsSum(ms);
    assert ms == ms[..k] + [ms[k]] + ms[k + 1..];
    assert rs == rs[..k] + [rs[k]] + rs[k + 1..];
    assert ms[..k] == rs[..k];
    assert ms[k + 1..] == rs[k + 1..];
    SumOfAppend(ms[..k] + [ms[k]], ms[k + 1..], ImportedIndicator);
    SumOfAppend(ms[..k], [ms[k]], ImportedIndicator);
    SumOfAppend(rs[..k] + [rs[k]], rs[k + 1..], ImportedIndicator);
    SumOfAppend(rs[..k], [rs[k]], ImportedIndicator);
  }

  /** The page state. */
  class ImportPage {
    var results: array<PlaceResult>
    var loading: bool
    var error: Option<ImportError>
    var successMessage: Option<string>
    var importingId: Option<string>

    constructor ()
      ensures results.Length == 0 && fresh(results)
      ensures !loading && error.None? && successMessage.None? && importingId.None?
    {
      results := new PlaceResult[0];
      loading := false;
      error := None;
      successMessage := None;
      importingId := None;
    }

    /** `handleSearch`. A refused search only sets its message. Without an
        API key the results are the mock places, which are random and are
        passed in; an empty answer clears the results. */
    method Search(query: string, position: Option<(real, real)>, apiKeyConfigured: bool,
                  places: Remote<seq<Place>>, mockResults: seq<PlaceResult>)
      modifies this
      ensures SearchGuard(query, position).Some? ==>
        error == SearchGuard(query, position) && results == old(results) && loading == old(loading)
        && successMessage == old(successMessage)
      ensures importingId == old(importingId)
      ensures SearchGuard(query, position).None? ==> !loading && successMessage.None?
      ensures SearchGuard(query, position).None? && !apiKeyConfigured ==>
        error == Some(ApiKeyMissing) && results[..] == mockResults
      ensures SearchGuard(query, position).None? && apiKeyConfigured && places.Failure? ==>
        error == Some(SearchFailed) && results == old(results)
      ensures SearchGuard(query, position).None? && apiKeyConfigured && places == Success([]) ==>
        error == Some(NothingFound) && results[..] == []
      ensures SearchGuard(query, position).None? && apiKeyConfigured && places.Success? && places.data != [] ==>
        error.None? && results.Length == |places.data|
        && forall i :: 0 <= i < |places.data| ==> results[i] == Transformed(places.data[i])
    {
      var refusal := SearchGuard(query, position);
      if refusal.Some? {
        error := refusal;
        return;
      }
      loading := true;
      error := None;
      successMessage := None;
      if !apiKeyConfigured {
        error := Some(ApiKeyMissing);
        results := new PlaceResult[|mockResults|](i requires 0 <= i < |mockResults| => mockResults[i]);
        assert results[..] == mockResults;
      } else if places.Failure? {
        error := Some(SearchFailed);
      } else if places.data == [] {
        error := Some(NothingFound);
        results := new PlaceResult[0];
      } else {
        var ps := places.data;
        results := new PlaceResult[|ps|](i requires 0 <= i < |ps| => Transformed(ps[i]));
      }
      loading := false;
    }

    /** `handleCategoryChange`: the entries with that id get the category
        list; every other entry is left as it was. */
    method CategoryChange(id: string, category: seq<string>)
      modifies results
      ensures results[..] == WithCategory(old(results[..]), id, category)
    {
      var i := 0;
      while i < results.Length
        invariant 0 <= i <= results.Length
        invariant forall k :: 0 <= k < i ==>
          results[k] == if old(results[k]).id == id then old(results[k]).(category := category) else old(results[k])
        invariant forall k :: i <= k < results.Length ==> results[k] == old(results[k])
      {
        if results[i].id == id {
          results[i] := results[i].(category := category);
        }
        i := i + 1;
      }
    }

    /** Sets `imported` on the entries with that id. */
    method MarkAsImported(id: string)
      modifies results
      ensures results[..] == MarkImported(old(results[..]), id)
    {
      var i := 0;
      while i < results.Length
        invariant 0 <= i <= results.Length
        invariant forall k :: 0 <= k < i ==>
          results[k] == if old(results[k]).id == id then old(results[k]).(imported := true) else old(results[k])
        invariant forall k :: i <= k < results.Length ==> results[k] == old(results[k])
      {
        if results[i].id == id {
          results[i] := results[i].(imported := true);
        }
        i := i + 1;
      }
    }

    /** `handleImportPlace`. A refused import only sets its message and
        inserts nothing. Otherwise the row is inserted; on success the place
        is marked imported and, when the insert returned an id and the user
        has an e-mail, the validation e-mail is requested. */
    method ImportPlace(f: NumberFormat, place: PlaceResult, user: Option<User>, insert: Remote<Option<Id>>)
      returns (row: Option<NewEcopoint>, invite: Option<ValidationRoutes.InviteRequest>)
      modifies this, results
      ensures results == old(results)
      ensures ImportGuard(place, user).Some? ==>
        row.None? && invite.None? && error == ImportGuard(place, user)
        && results[..] == old(results[..]) && importingId == old(importingId)
        && successMessage == old(successMessage)
      ensures row.Some? <==> ImportGuard(place, user).None?
      ensures row.Some? ==> row.value == InsertRow(f, place, user.value) && importingId.None?
      ensures row.Some? && insert.Failure? ==>
        error == Some(ImportFailed) && invite.None? && results[..] == old(results[..])
        && successMessage == old(successMessage)
      ensures row.Some? && insert.Success? ==>
        error.None? && successMessage == Some(place.name)
        && results[..] == MarkImported(old(results[..]), place.id)
      ensures invite.Some? <==>
        row.Some? && insert.Success? && insert.data.Some? && insert.data.value != "" && user.value.email != ""
      ensures invite.Some? ==> invite.value == InviteAfterImport(place, user.value, insert.data.value)
      ensures loading == old(loading)
    {
      invite := None;
      var refusal := ImportGuard(place, user);
      if refusal.Some? {
        error := refusal;
        return None, None;
      }
      var u := user.value;
      importingId := Some(place.id);
      error := None;
      row := Some(InsertRow(f, place, u));
      if insert.Failure? {
        error := Some(ImportFailed);
      } else {
        MarkAsImported(place.id);
        successMessage := Some(place.name);
        if insert.data.Some? && insert.data.value != "" && u.email != "" {
          invite := Some(InviteAfterImport(place, u, insert.data.value));
        }
      }
      importingId := None;
    }
  }
}
