/** The pure part of `AcledSource`: region codes, the per-page request, the
    default field table, and the conversion of raw records to point features. */
module Sources {
  import opened Results
  import opened DataTypes
  import opened Decimal
  import opened Dates

  /** The name of the schema's one point-geometry field. */
  const GeometryField: string := "geom"

  /** The fixed comparison mode of the date filter. */
  const Between: string := "BETWEEN"

  /** One region to fetch: its ISO3 letters and the API's numeric code. */
  datatype IsoCode = IsoCode(iso3: string, code: int)

  /** The query parameters of one page request. */
  datatype AcledRequest = AcledRequest(
    key: string,
    email: string,
    page: int,
    iso: int,
    eventDate: string,
    eventDateWhere: string)

  /** The configured source: endpoint, credentials, regions in fetch order,
      the inclusive date range and the schema of the records. */
  datatype AcledSource = AcledSource(
    url: string,
    email: string,
    key: string,
    countries: seq<IsoCode>,
    startDate: CalendarDate,
    endDate: CalendarDate,
    properties: Properties)

  /** The `properties` a source gets when none is given. */
  const DefaultProperties: Properties := map[
    "actor1" := Varchar,
    "actor2" := Varchar,
    "admin1" := Varchar,
    "admin2" := Varchar,
    "admin3" := Varchar,
    "assoc_actor_1" := Varchar,
    "assoc_actor_2" := Varchar,
    "civilian_targeting" := Varchar,
    "country" := Varchar,
    "disorder_type" := Varchar,
    "event_date" := Varchar,
    "event_id_cnty" := Varchar,
    "event_type" := Varchar,
    "fatalities" := Int,
    "geo_precision" := Int,
    "inter1" := Varchar,
    "inter2" := Varchar,
    "interaction" := Varchar,
    "iso" := Varchar,
    "latitude" := Float,
    "location" := Varchar,
    "longitude" := Float,
    "notes" := Varchar,
    "region" := Varchar,
    "source" := Varchar,
    "source_scale" := Varchar,
    "sub_event_type" := Varchar,
    "tags" := Varchar,
    "time_precision" := Varchar,
    "timestamp" := Varchar,
    "year" := Varchar,
    GeometryField := Point
  ]

  /** The default table stores one field as a point, the geometry field; the
      two counts as integers, the coordinates as floats, and all the rest as
      text. */
  lemma DefaultPropertiesShape()
    ensures PointFields(DefaultProperties) == {GeometryField}
    ensures DefaultProperties["fatalities"] == Int && DefaultProperties["geo_precision"] == Int
    ensures DefaultProperties["latitude"] == Float && DefaultProperties["longitude"] == Float
    ensures forall f :: f in DefaultProperties ==>
      (DefaultProperties[f] == Varchar <==> f !in {GeometryField, "fatalities", "geo_precision", "latitude", "longitude"})
  {
    assert GeometryField in PointFields(DefaultProperties);
  }

  /** `code` is the first entry whose code text `int()` refuses. */
  ghost predicate FirstBadCode(items: seq<(string, string)>, i: int) {
    && 0 <= i < |items|
    && ParseInt(items[i].1).None?
    && forall j :: 0 <= j < i ==> ParseInt(items[j].1).Some?
  }

  lemma FirstBadCodeShift(items: seq<(string, string)>, e: Error)
    requires |items| > 0 && ParseInt(items[0].1).Some?
    requires exists i :: FirstBadCode(items[1..], i) && e == ValueError(items[1..][i].1)
    ensures exists i :: FirstBadCode(items, i) && e == ValueError(items[i].1)
  {
    var i :| FirstBadCode(items[1..], i) && e == ValueError(items[1..][i].1);
    assert FirstBadCode(items, i + 1);
  }

  /** `get_iso_codes`: read each code text as a decimal integer, keeping the
      ISO3 letters; the first code `int()` refuses raises `ValueError`. */
  function GetIsoCodes(items: seq<(string, string)>): (r: Result<seq<IsoCode>, Error>)
    ensures r.Success? <==> forall i :: 0 <= i < |items| ==> ParseInt(items[i].1).Some?
    ensures r.Success? ==> |r.value| == |items|
    ensures r.Success? ==> forall i :: 0 <= i < |items| ==>
      r.value[i].iso3 == items[i].0 && ParseInt(items[i].1) == Some(r.value[i].code)
    ensures r.Failure? ==> exists i :: FirstBadCode(items, i) && r.error == ValueError(items[i].1)
  {
    if |items| == 0 then Success([])
    else
      match ParseInt(items[0].1)
      case None =>
        assert FirstBadCode(items, 0);
        Failure(ValueError(items[0].1))
      case Some(c) =>
        match GetIsoCodes(items[1..])
        case Failure(e) =>
          FirstBadCodeShift(items, e);
          Failure(e)
        case Success(rest) => Success([IsoCode(items[0].0, c)] + rest)
  }

  /** The configuration text of a list of regions, codes written by `str()`. */
  function CodeTexts(codes: seq<IsoCode>): (items: seq<(string, string)>)
    ensures |items| == |codes|
  {
    seq(|codes|, i requires 0 <= i < |codes| => (codes[i].iso3, ShowInt(codes[i].code)))
  }

  /** Writing region codes out in decimal and reading them back with
      `get_iso_codes` gives the same regions in the same order. */
  lemma IsoCodesRoundTrip(codes: seq<IsoCode>)
    requires forall i :: 0 <= i < |codes| ==> WithinDigitLimit(codes[i].code)
    ensures GetIsoCodes(CodeTexts(codes)) == Success(codes)
  {
    var items := CodeTexts(codes);
    forall i | 0 <= i < |codes|
      ensures ParseInt(items[i].1) == Some(codes[i].code)
    {
      ParseShowInt(codes[i].code);
    }
    var r := GetIsoCodes(items);
    assert r.value == codes;
  }

  /** The `event_date` filter: `start|end`, both in `isoformat()`. */
  function EventDate(start: CalendarDate, end: CalendarDate): (s: string)
    ensures |s| == 21 && s[10] == '|'
  {
    IsoFormat(start) + "|" + IsoFormat(end)
  }

  /** Splits an `event_date` filter back into its two dates. */
  function ParseEventDate(s: string): Option<(CalendarDate, CalendarDate)>
  {
    if |s| == 21 && s[10] == '|' then
      match (ParseIsoDate(s[..10]), ParseIsoDate(s[11..]))
      case (Some(a), Some(b)) => Some((a, b))
      case _ => None
    else None
  }

  /** The filter text names exactly the start and end dates it was built from. */
  lemma EventDateRoundTrip(start: CalendarDate, end: CalendarDate)
    ensures ParseEventDate(EventDate(start, end)) == Some((start, end))
  {
    var s := EventDate(start, end);
    assert s[..10] == IsoFormat(start);
    assert s[11..] == IsoFormat(end);
    ParseIsoFormat(start);
    ParseIsoFormat(end);
  }

  /** Every filter text that reads as two dates is the one `EventDate` writes
      for them. */
  lemma EventDateOfParse(s: string, start: CalendarDate, end: CalendarDate)
    requires ParseEventDate(s) == Some((start, end))
    ensures EventDate(start, end) == s
  {
    IsoFormatOfParse(s[..10], start);
    IsoFormatOfParse(s[11..], end);
    assert s == s[..10] + "|" + s[11..];
  }

  /** `build_request_params`: the request for one page of one region. */
  function BuildRequestParams(src: AcledSource, iso: int, page: int): AcledRequest
  {
    AcledRequest(src.key, src.email, page, iso, EventDate(src.startDate, src.endDate), Between)
  }

  /** Every request filters on exactly the source's date range, whatever the
      page or region. */
  lemma RequestDateRange(src: AcledSource, iso: int, page: int)
    ensures ParseEventDate(BuildRequestParams(src, iso, page).eventDate) == Some((src.startDate, src.endDate))
  {
    EventDateRoundTrip(src.startDate, src.endDate);
  }

  /** What the server reads from the request for page `page` of region `iso`:
      the source's key and e-mail, that page and region, the source's date
      range and the `BETWEEN` mode. */
  lemma RequestReadBack(src: AcledSource, iso: int, page: int)
    requires WithinDigitLimit(page) && WithinDigitLimit(iso)
    ensures var q := DecodeQuery(QueryParams(BuildRequestParams(src, iso, page)));
      && q.Some?
      && q.value.key == src.key && q.value.email == src.email
      && q.value.page == page && q.value.iso == iso
      && ParseEventDate(q.value.eventDate) == Some((src.startDate, src.endDate))
      && q.value.eventDateWhere == "BETWEEN"
  {
    QueryRoundTrip(BuildRequestParams(src, iso, page));
    RequestDateRange(src, iso, page);
  }

  /** `asdict(params)` as the HTTP client puts it on the query string: field
      name and value text in declaration order, integers written by `str()`. */
  function QueryParams(req: AcledRequest): seq<(string, string)>
  {
    [ ("key", req.key),
      ("email", req.email),
      ("page", ShowInt(req.page)),
      ("iso", ShowInt(req.iso)),
      ("event_date", req.eventDate),
      ("event_date_where", req.eventDateWhere) ]
  }

  /** The value of the first parameter called `name`. */
  function Lookup(q: seq<(string, string)>, name: string): Option<string>
  {
    if |q| == 0 then None
    else if q[0].0 == name then Some(q[0].1)
    else Lookup(q[1..], name)
  }

  lemma {:induction false} LookupFirst(q: seq<(string, string)>, i: nat, name: string)
    requires i < |q| && q[i].0 == name
    requires forall j :: 0 <= j < i ==> q[j].0 != name
    ensures Lookup(q, name) == Some(q[i].1)
  {
    if i > 0 {
      LookupFirst(q[1..], i - 1, name);
    }
  }

  /** Reads a request back from its query parameters, as the server would. */
  function DecodeQuery(q: seq<(string, string)>): Option<AcledRequest>
  {
    var key := Lookup(q, "key");
    var email := Lookup(q, "email");
    var page := Lookup(q, "page");
    var iso := Lookup(q, "iso");
    var eventDate := Lookup(q, "event_date");
    var eventDateWhere := Lookup(q, "event_date_where");
    if key.Some? && email.Some? && page.Some? && iso.Some? && eventDate.Some? && eventDateWhere.Some? then
      match (ParseInt(page.value), ParseInt(iso.value))
      case (Some(p), Some(i)) =>
        Some(AcledRequest(key.value, email.value, p, i, eventDate.value, eventDateWhere.value))
      case _ => None
    else None
  }

  /** The query string carries every field of the request: the server reads
      back the same page, region code, credentials and date filter. */
  lemma QueryRoundTrip(req: AcledRequest)
    requires WithinDigitLimit(req.page) && WithinDigitLimit(req.iso)
    ensures DecodeQuery(QueryParams(req)) == Some(req)
  {
    var q := QueryParams(req);
    LookupFirst(q, 0, "key");
    LookupFirst(q, 1, "email");
    LookupFirst(q, 2, "page");
    LookupFirst(q, 3, "iso");
    LookupFirst(q, 4, "event_date");
    LookupFirst(q, 5, "event_date_where");
    ParseShowInt(req.page);
    ParseShowInt(req.iso);
  }

  /** A point in (x, y) order: for the records here, (longitude, latitude). */
  datatype GeoPoint = GeoPoint(x: Json, y: Json)

  /** A GeoJSON-style feature: a geometry and the properties it describes. */
  datatype Feature = Feature(geometry: GeoPoint, properties: Record)

  predicate HasCoordinates(o: Record) {
    "longitude" in o && "latitude" in o
  }

  /** The key Python reports missing: `longitude` is read first. */
  function MissingCoordinate(o: Record): string {
    if "longitude" !in o then "longitude" else "latitude"
  }

  /** `objects[i]` is the first record that lacks a coordinate. */
  ghost predicate FirstWithoutCoordinates(objects: Batch, i: int) {
    && 0 <= i < |objects|
    && !HasCoordinates(objects[i])
    && forall j :: 0 <= j < i ==> HasCoordinates(objects[j])
  }

  /** `objects_to_features`: one point feature per record, in order; the first
      record without a coordinate raises `KeyError`. */
  function ObjectsToFeatures(objects: Batch): Result<seq<Feature>, Error>
  {
    if |objects| == 0 then Success([])
    else
      var o := objects[0];
      if !HasCoordinates(o) then
        assert FirstWithoutCoordinates(objects, 0);
        Failure(KeyError(MissingCoordinate(o)))
      else
        match ObjectsToFeatures(objects[1..])
        case Failure(e) =>
          Failure(e)
        case Success(rest) =>
          Success([Feature(GeoPoint(o["longitude"], o["latitude"]), o)] + rest)
  }

  /** Each record becomes one feature, in order: its point is (longitude,
      latitude) and its properties are the record unchanged. The first record
      without both coordinates raises `KeyError` for the key it lacks. */
  lemma {:induction false} ObjectsToFeaturesSpec(objects: Batch)
    ensures var r := ObjectsToFeatures(objects);
      && (r.Success? <==> forall i :: 0 <= i < |objects| ==> HasCoordinates(objects[i]))
      && (r.Success? ==> |r.value| == |objects|)
      && (r.Success? ==> forall i :: 0 <= i < |objects| ==>
            && r.value[i].geometry == GeoPoint(objects[i]["longitude"], objects[i]["latitude"])
            && r.value[i].properties == objects[i])
      && (r.Failure? ==> exists i :: FirstWithoutCoordinates(objects, i) && r.error == KeyError(MissingCoordinate(objects[i])))
  {
    var r := ObjectsToFeatures(objects);
    if |objects| > 0 {
      var o := objects[0];
      if !HasCoordinates(o) {
        assert FirstWithoutCoordinates(objects, 0);
      } else {
        ObjectsToFeaturesSpec(objects[1..]);
        match ObjectsToFeatures(objects[1..])
        case Failure(e) =>
          var i :| FirstWithoutCoordinates(objects[1..], i) && e == KeyError(MissingCoordinate(objects[1..][i]));
          assert FirstWithoutCoordinates(objects, i + 1);
        case Success(rest) =>
          forall i | 0 < i < |objects|
            ensures r.value[i] == rest[i - 1] && objects[i] == objects[1..][i - 1]
          {
          }
      }
    }
  }

  /** The properties of the features are the records, unchanged and in order. */
  function FeatureProperties(features: seq<Feature>): (objects: Batch)
    ensures |objects| == |features|
  {
    seq(|features|, i requires 0 <= i < |features| => features[i].properties)
  }

  lemma FeaturesKeepRecords(objects: Batch)
    requires ObjectsToFeatures(objects).Success?
    ensures FeatureProperties(ObjectsToFeatures(objects).value) == objects
  {
    ObjectsToFeaturesSpec(objects);
  }
}
