/**
 * GeoJSON features of CwmsDataManager: buildFeatureFromAvLocRecord turns one AV_LOC record
 * into a Feature, and buildFeatureCollection selects the records of one office, unit system
 * and (optionally) list of names and turns each into a Feature.
 */
module Features {
  import opened Wrappers
  import opened JavaText
  import opened Relational

  /** A column value of a record: SQL NULL, text, or a number (treated as an opaque value). */
  datatype Value = Null | Text(s: string) | Number(x: real)

  /** An AV_LOC record by column name (Record.intoMap keeps every column, NULL ones included). */
  type AvLocRecord = map<string, Value>

  const LatitudeColumn: string := "LATITUDE"
  const LongitudeColumn: string := "LONGITUDE"
  const PublicNameColumn: string := "PUBLIC_NAME"
  const LocationIdColumn: string := "LOCATION_ID"

  datatype Point = Point(longitude: real, latitude: real)

  /** A Feature: its id (null when neither name is known), a point, and the `avLoc` properties. */
  datatype Feature = Feature(id: Option<string>, geometry: Point, avLoc: map<string, Value>)

  function ColumnOf(rec: AvLocRecord, column: string): Value
  {
    if column in rec then rec[column] else Null
  }

  /** A text column read as a String: null unless it holds text. */
  function TextOf(rec: AvLocRecord, column: string): Option<string>
  {
    if ColumnOf(rec, column).Text? then Some(ColumnOf(rec, column).s) else None
  }

  /** A coordinate read as a Double, 0.0 when null. */
  function CoordinateOf(rec: AvLocRecord, column: string): real
  {
    if ColumnOf(rec, column).Number? then ColumnOf(rec, column).x else 0.0
  }

  /**
   * What the source promises of a feature built from `rec`: its id is PUBLIC_NAME unless that
   * is null or empty, then LOCATION_ID; a missing coordinate is 0.0; and `avLoc` is the record
   * without its null columns and without LATITUDE, LONGITUDE and PUBLIC_NAME.
   */
  ghost predicate Describes(rec: AvLocRecord, f: Feature)
  {
    && f.id == (if TextOf(rec, PublicNameColumn).Some? && TextOf(rec, PublicNameColumn).value != ""
                then TextOf(rec, PublicNameColumn) else TextOf(rec, LocationIdColumn))
    && f.geometry == Point(CoordinateOf(rec, LongitudeColumn), CoordinateOf(rec, LatitudeColumn))
    && (forall k :: k in f.avLoc <==> k in rec && rec[k] != Null
                                      && k != LatitudeColumn && k != LongitudeColumn && k != PublicNameColumn)
    && (forall k :: k in f.avLoc ==> f.avLoc[k] == rec[k])
  }

  /** One record describes one feature. */
  lemma DescribesIsFunctional(rec: AvLocRecord, f: Feature, g: Feature)
    requires Describes(rec, f) && Describes(rec, g)
    ensures f == g
  {
    assert f.avLoc.Keys == g.avLoc.Keys;
  }

  /** CwmsDataManager.buildFeatureFromAvLocRecord. */
  method BuildFeatureFromAvLocRecord(avLocRecord: AvLocRecord) returns (feature: Feature)
    ensures Describes(avLocRecord, feature)
  {
    var featureId := TextOf(avLocRecord, PublicNameColumn);
    if featureId.None? || featureId.value == "" {
      featureId := TextOf(avLocRecord, LocationIdColumn);
    }

    var longitude := ColumnOf(avLocRecord, LongitudeColumn);
    var latitude := ColumnOf(avLocRecord, LatitudeColumn);
    if !latitude.Number? {
      latitude := Number(0.0);
    }
    if !longitude.Number? {
      longitude := Number(0.0);
    }
    var geometry := Point(longitude.x, latitude.x);

    var recordMap := avLocRecord;
    var keysWithNullValue := set k | k in recordMap && recordMap[k] == Null;
    var pending := keysWithNullValue;
    while pending != {}
      invariant pending <= keysWithNullValue
      invariant forall k :: k in recordMap <==> k in avLocRecord && (k in keysWithNullValue ==> k in pending)
      invariant forall k :: k in recordMap ==> recordMap[k] == avLocRecord[k]
      decreases |pending|
    {
      var k :| k in pending;
      recordMap := recordMap - {k};
      pending := pending - {k};
    }
    recordMap := recordMap - {LatitudeColumn};
    recordMap := recordMap - {LongitudeColumn};
    recordMap := recordMap - {PublicNameColumn};
    feature := Feature(featureId, geometry, recordMap);
  }

  /** A record with a public name and both coordinates keeps them; the rest goes to `avLoc`. */
  lemma NamedFeature(rec: AvLocRecord, f: Feature, name: string, lon: real, lat: real)
    requires Describes(rec, f)
    requires ColumnOf(rec, PublicNameColumn) == Text(name) && name != ""
    requires ColumnOf(rec, LongitudeColumn) == Number(lon) && ColumnOf(rec, LatitudeColumn) == Number(lat)
    ensures f.id == Some(name) && f.geometry == Point(lon, lat)
    ensures PublicNameColumn !in f.avLoc && LatitudeColumn !in f.avLoc && LongitudeColumn !in f.avLoc
  {
  }

  /** An empty public name falls back to the location id, and missing coordinates to 0.0. */
  lemma UnnamedFeature(rec: AvLocRecord, f: Feature)
    requires Describes(rec, f)
    requires ColumnOf(rec, PublicNameColumn) == Text("")
    requires ColumnOf(rec, LongitudeColumn) == Null && ColumnOf(rec, LatitudeColumn) == Null
    ensures f.id == TextOf(rec, LocationIdColumn) && f.geometry == Point(0.0, 0.0)
  {
  }

  // ---------------------------------------------------------------- buildFeatureCollection

  /** CwmsDataManager.buildFeatureCollection: any units other than exactly "EN" select the SI rows. */
  function UnitSystemFor(units: Option<string>): (u: string)
    ensures u == "EN" || u == "SI"
    ensures u == "EN" <==> units == Some("EN")
  {
    if units == Some("EN") then "EN" else "SI"
  }

  /** CwmsDataManager.buildFeatureCollection: the names split at '|', or the one name when it holds no '|'. */
  function Identifiers(names: string): seq<string>
  {
    if '|' in names then JavaSplit(names, '|') else [names]
  }

  /**
   * The identifiers are the '|'-separated pieces of the names in order (trailing empty
   * pieces dropped), none containing '|'.
   */
  lemma IdentifiersArePieces(names: string)
    ensures var ids, raw := Identifiers(names), RawSplit(names, '|');
      && |ids| <= |raw| && ids == raw[..|ids|]
      && (forall i :: |ids| <= i < |raw| ==> raw[i] == [])
      && (forall i :: 0 <= i < |ids| ==> '|' !in ids[i])
      && Join(raw, '|') == names
  {
    JavaSplitPieces(names, '|');
  }

  /** Two names joined by '|' give exactly those two identifiers. */
  lemma IdentifiersOfTwo(a: string, b: string)
    requires '|' !in a && '|' !in b && b != ""
    ensures Identifiers(a + "|" + b) == [a, b]
  {
    var s := a + "|" + b;
    assert s == a + ['|'] + b;
    assert s[|a|] == '|';
    RawSplitAtFirst(a, b, '|');
    RawSplitWithoutDelimiter(b, '|');
  }

  /** CwmsDataManager.buildFeatureCollection: the office, the unit system and, when names are given, the identifiers. */
  function Selects(officeId: string, units: string, ids: Option<seq<string>>): AvLocRecord -> bool
  {
    (rec: AvLocRecord) =>
      && ColumnOf(rec, "DB_OFFICE_ID") == Text(officeId)
      && ColumnOf(rec, "UNIT_SYSTEM") == Text(units)
      && (ids.Some? ==> TextOf(rec, LocationIdColumn).Some? && TextOf(rec, LocationIdColumn).value in ids.value)
  }

  /** The records the query returns, in AV_LOC's order. */
  function SelectedRecords(names: Option<string>, units: Option<string>, officeId: string, avLoc: seq<AvLocRecord>)
    : seq<AvLocRecord>
  {
    var ids := if names.Some? && names.value != "" then Some(Identifiers(names.value)) else None;
    Filter(avLoc, Selects(officeId, UnitSystemFor(units), ids))
  }

  /** CwmsDataManager.buildFeatureCollection: one feature per selected record, in order. */
  method BuildFeatureCollection(names: Option<string>, units: Option<string>, officeId: string,
                                avLoc: seq<AvLocRecord>)
    returns (features: seq<Feature>)
    ensures var selected := SelectedRecords(names, units, officeId, avLoc);
      |features| == |selected| && forall i :: 0 <= i < |selected| ==> Describes(selected[i], features[i])
  {
    var selected := SelectedRecords(names, units, officeId, avLoc);
    features := [];
    for i := 0 to |selected|
      invariant |features| == i
      invariant forall j :: 0 <= j < i ==> Describes(selected[j], features[j])
    {
      var feature := BuildFeatureFromAvLocRecord(selected[i]);
      features := features + [feature];
    }
  }

  /** Without names every record of the office and unit system is selected. */
  lemma NoNamesSelectsAll(units: Option<string>, officeId: string, avLoc: seq<AvLocRecord>, rec: AvLocRecord)
    requires rec in avLoc
    requires ColumnOf(rec, "DB_OFFICE_ID") == Text(officeId) && ColumnOf(rec, "UNIT_SYSTEM") == Text(UnitSystemFor(units))
    ensures rec in SelectedRecords(None, units, officeId, avLoc)
  {
    var k :| 0 <= k < |avLoc| && avLoc[k] == rec;
    assert Selects(officeId, UnitSystemFor(units), None)(avLoc[k]);
  }
}
