/**
 * `useEcopoints`: reading the ecopoints for the map, through the
 * `get_ecopoints_with_location` database function or, when that call
 * fails, a plain query, and turning the `POINT(lng lat)` text of each row
 * into coordinates. `parseFloat` and the number-to-text conversion are the
 * function values of a `NumberFormat`.
 */
module EcopointLocations {
  import opened Common

  // ---------------------------------------------------------------------
  // /POINT\(([^ ]+) ([^)]+)\)/

  /** The longest prefix of `s` without `c`; when it is shorter than `s`,
      `c` comes right after it. */
  function TakeUntil(s: string, c: char): (r: string)
    ensures |r| <= |s| && r == s[..|r|] && c !in r
    ensures |r| < |s| ==> s[|r|] == c
  {
    if s == [] || s[0] == c then [] else [s[0]] + TakeUntil(s[1..], c)
  }

  const Prefix := "POINT("

  /** The two groups when the pattern matches at `p`. The first group is
      the run of non-spaces after "POINT(" (greedy, and no shorter run can be
      followed by a space); the second is everything up to the next ")". */
  function MatchAt(s: string, p: nat): (m: Option<(string, string)>)
    requires p <= |s|
    ensures m.Some? ==>
      p + |Prefix| + |m.value.0| + 1 + |m.value.1| + 1 <= |s|
      && s[p..p + |Prefix| + |m.value.0| + 1 + |m.value.1| + 1] == Prefix + m.value.0 + " " + m.value.1 + ")"
      && m.value.0 != [] && ' ' !in m.value.0 && m.value.1 != [] && ')' !in m.value.1
  {
    if |s| - p < |Prefix| || s[p..p + |Prefix|] != Prefix then None
    else
      var rest := s[p + |Prefix|..];
      var lng := TakeUntil(rest, ' ');
      if lng == [] || |lng| == |rest| then None
      else
        var after := rest[|lng| + 1..];
        var lat := TakeUntil(after, ')');
        if lat == [] || |lat| == |after| then None
        else
          assert forall k :: 0 <= k < |lng| ==> s[p + |Prefix| + k] == lng[k] by {
            assert rest[..|lng|] == lng;
          }
          assert forall k :: 0 <= k < |lat| ==> s[p + |Prefix| + |lng| + 1 + k] == lat[k] by {
            assert after[..|lat|] == lat;
          }
          MatchedText(s, p, lng, lat);
          Some((lng, lat))
  }

  /** The characters at `p` spell the whole match. */
  lemma MatchedText(s: string, p: nat, lng: string, lat: string)
    requires p + |Prefix| + |lng| + 1 + |lat| + 1 <= |s|
    requires s[p..p + |Prefix|] == Prefix
    requires forall k :: 0 <= k < |lng| ==> s[p + |Prefix| + k] == lng[k]
    requires s[p + |Prefix| + |lng|] == ' '
    requires forall k :: 0 <= k < |lat| ==> s[p + |Prefix| + |lng| + 1 + k] == lat[k]
    requires s[p + |Prefix| + |lng| + 1 + |lat|] == ')'
    ensures s[p..p + |Prefix| + |lng| + 1 + |lat| + 1] == Prefix + lng + " " + lat + ")"
  {
    var n := |Prefix| + |lng| + 1 + |lat| + 1;
    var t := Prefix + lng + " " + lat + ")";
    forall k | 0 <= k < n ensures s[p..p + n][k] == t[k] {
      if k < |Prefix| {
        assert s[p + k] == s[p..p + |Prefix|][k];
      }
    }
  }

  /** `String.prototype.match`: the leftmost position where the pattern
      matches. */
  function MatchFrom(s: string, p: nat): (m: Option<(string, string)>)
    requires p <= |s|
    ensures m.Some? ==> exists q :: p <= q <= |s| && MatchAt(s, q) == m
    ensures m.None? ==> forall q :: p <= q <= |s| ==> MatchAt(s, q).None?
    decreases |s| - p
  {
    if MatchAt(s, p).Some? then MatchAt(s, p)
    else if p == |s| then None
    else MatchFrom(s, p + 1)
  }

  function MatchPoint(s: string): (m: Option<(string, string)>)
    ensures m.Some? ==> m.value.0 != [] && ' ' !in m.value.0 && m.value.1 != [] && ')' !in m.value.1
    ensures m.None? ==> forall q :: 0 <= q <= |s| ==> MatchAt(s, q).None?
  {
    MatchFrom(s, 0)
  }

  /** A text a coordinate can print as: not empty, no space, no ")". */
  predicate CoordinateText(t: string) {
    t != [] && ' ' !in t && ')' !in t
  }

  /** `POINT(lng lat)` as the importer writes it. */
  function PointText(lng: string, lat: string): string {
    Prefix + lng + " " + lat + ")"
  }

  /** The pattern reads back the two texts the importer wrote. */
  lemma PointTextMatches(lng: string, lat: string)
    requires CoordinateText(lng) && CoordinateText(lat)
    ensures MatchPoint(PointText(lng, lat)) == Some((lng, lat))
  {
    MatchesAtStart(lng, lat);
  }

  lemma MatchesAtStart(lng: string, lat: string)
    requires CoordinateText(lng) && CoordinateText(lat)
    ensures MatchAt(PointText(lng, lat), 0) == Some((lng, lat))
  {
    var s := PointText(lng, lat);
    var rest := lng + (" " + lat + ")");
    assert s == Prefix + rest;
    assert s[0..|Prefix|] == Prefix;
    assert s[|Prefix|..] == rest;
    TakeUntilStopsAt(lng, " " + lat + ")", ' ');
    var after := lat + ")";
    assert rest[|lng| + 1..] == after;
    TakeUntilStopsAt(lat, ")", ')');
  }

  lemma {:induction false} TakeUntilStopsAt(a: string, b: string, c: char)
    requires c !in a && b != [] && b[0] == c
    ensures TakeUntil(a + b, c) == a
  {
    if a != [] {
      assert (a + b)[1..] == a[1..] + b;
      TakeUntilStopsAt(a[1..], b, c);
    } else {
      assert a + b == b;
    }
  }

  // ---------------------------------------------------------------------
  // The rows and the records

  /** `parseFloat` and the `${n}` text of a number. */
  datatype NumberFormat = NumberFormat(parse: string -> real, show: real -> string)

  /** A number prints as a coordinate text that parses back to it. */
  ghost predicate Faithful(f: NumberFormat) {
    forall x :: CoordinateText(f.show(x)) && f.parse(f.show(x)) == x
  }

  /** The fields every path carries over unchanged. */
  datatype Fields = Fields(
    id: string,
    name: string,
    description: Option<string>,
    email: string,
    category: seq<string>,
    status: string)

  /** A row of `get_ecopoints_with_location`, with `ST_AsText` of the
      location ("" when missing). */
  datatype RpcRow = RpcRow(fields: Fields, locationText: string)

  /** A row of the fallback query; `location` is `None` when the column is
      empty, otherwise its text. */
  datatype TableRow = TableRow(fields: Fields, location: Option<string>)

  /** `EcopointLocation`. */
  datatype EcopointLocation = EcopointLocation(fields: Fields, lat: real, lng: real)

  /** The coordinates of a location text: the two groups parsed, or 0 and 0
      when the text is empty or does not match. */
  function Coordinates(f: NumberFormat, text: string): (c: (real, real))
    ensures text == [] || MatchPoint(text).None? ==> c == (0.0, 0.0)
    ensures text != [] && MatchPoint(text).Some? ==>
      c == (f.parse(MatchPoint(text).value.1), f.parse(MatchPoint(text).value.0))
  {
    if text == [] then (0.0, 0.0)
    else match MatchPoint(text)
      case None => (0.0, 0.0)
      case Some((lngText, latText)) => (f.parse(latText), f.parse(lngText))
  }

  function FromRpc(f: NumberFormat, row: RpcRow): EcopointLocation {
    var (lat, lng) := Coordinates(f, row.locationText);
    EcopointLocation(row.fields, lat, lng)
  }

  function FromTable(f: NumberFormat, row: TableRow): EcopointLocation {
    match row.location
    case None => EcopointLocation(row.fields, 0.0, 0.0)
    case Some(text) =>
      var (lat, lng) := Coordinates(f, text);
      EcopointLocation(row.fields, lat, lng)
  }

  /** Both paths build the same record from the same fields and location:
      the fields are carried over unchanged and only lat/lng are computed. */
  lemma PathsAgree(f: NumberFormat, fields: Fields, text: string)
    ensures FromRpc(f, RpcRow(fields, text)) == FromTable(f, TableRow(fields, Some(text)))
    ensures FromRpc(f, RpcRow(fields, "")) == FromTable(f, TableRow(fields, None))
    ensures FromRpc(f, RpcRow(fields, text)).fields == fields
  {
  }

  /** An ecopoint stored by the importer is shown at the coordinates it was
      stored with. */
  lemma ImportedPointReadsBack(f: NumberFormat, fields: Fields, lat: real, lng: real)
    requires Faithful(f)
    ensures FromRpc(f, RpcRow(fields, PointText(f.show(lng), f.show(lat)))) == EcopointLocation(fields, lat, lng)
    ensures FromTable(f, TableRow(fields, Some(PointText(f.show(lng), f.show(lat))))) == EcopointLocation(fields, lat, lng)
  {
    PointTextMatches(f.show(lng), f.show(lat));
  }

  /** A text without the pattern, like the binary form the fallback query
      may return, places the ecopoint at 0, 0. */
  lemma NoPointMeansOrigin(f: NumberFormat, fields: Fields, text: string)
    requires forall q :: 0 <= q <= |text| ==> MatchAt(text, q).None?
    ensures FromTable(f, TableRow(fields, Some(text))) == EcopointLocation(fields, 0.0, 0.0)
  {
    assert MatchPoint(text).None?;
  }

  // ---------------------------------------------------------------------
  // fetchEcopoints

  /** A query's outcome: its error message, or its rows (`data || []`). */
  datatype Query<T> = QueryError(message: string) | Rows(rows: seq<T>)

  /** The state the hook returns. */
  class EcopointsHook {
    var ecopoints: seq<EcopointLocation>
    var loading: bool
    var error: Option<string>

    constructor ()
      ensures ecopoints == [] && loading && error.None?
    {
      ecopoints := [];
      loading := true;
      error := None;
    }

    /** `fetchEcopoints`. The fallback query runs only when the database
        function failed; a failing fallback keeps the list shown and sets its
        message. */
    method Fetch(f: NumberFormat, rpc: Query<RpcRow>, fallback: Query<TableRow>) returns (fallbackQueried: bool)
      modifies this
      ensures fallbackQueried <==> rpc.QueryError?
      ensures !loading
      ensures rpc.Rows? ==>
        error.None? && |ecopoints| == |rpc.rows|
        && forall i :: 0 <= i < |rpc.rows| ==> ecopoints[i] == FromRpc(f, rpc.rows[i])
      ensures rpc.QueryError? && fallback.Rows? ==>
        error.None? && |ecopoints| == |fallback.rows|
        && forall i :: 0 <= i < |fallback.rows| ==> ecopoints[i] == FromTable(f, fallback.rows[i])
      ensures rpc.QueryError? && fallback.QueryError? ==>
        error == Some(fallback.message) && ecopoints == old(ecopoints)
    {
      loading := true;
      error := None;
      fallbackQueried := false;
      match rpc {
        case QueryError(_) =>
          fallbackQueried := true;
          match fallback {
            case QueryError(message) =>
              error := Some(message);
            case Rows(rows) =>
              ecopoints := seq(|rows|, i requires 0 <= i < |rows| => FromTable(f, rows[i]));
          }
        case Rows(rows) =>
          ecopoints := seq(|rows|, i requires 0 <= i < |rows| => FromRpc(f, rows[i]));
      }
      loading := false;
    }
  }
}
