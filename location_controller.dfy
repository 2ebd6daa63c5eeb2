/**
 * The location update path of LocationController: the format tables (getFormatFromContent,
 * getObjectMapperForFormat), the clearing of fields sent as empty strings
 * (updatedClearedFields), the field-wise merge of an update into the stored location
 * (getUpdatedLocation), and update's choice between renaming and storing.
 *
 * A Location is a map from its properties to their values; a property that is absent is null.
 */
module LocationUpdate {
  import opened Wrappers
  import opened JavaText

  // ---------------------------------------------------------------- formats

  /** The content types named by Formats, and any other type. */
  datatype MediaType = Tab | Csv | Xml | Wml2 | Json | JsonV2 | XmlV2 | Other(name: string)

  /**
   * LocationController.getFormatFromContent: the database's format name for a content type; a null content type, or one
   * outside the lookup table, is "json".
   */
  method GetFormatFromContent(contentType: Option<MediaType>) returns (format: string)
    ensures format == "tab" <==> contentType == Some(Tab)
    ensures format == "csv" <==> contentType == Some(Csv)
    ensures format == "xml" <==> contentType == Some(Xml)
    ensures format == "wml2" <==> contentType == Some(Wml2)
    ensures format == "json" <==> contentType !in {Some(Tab), Some(Csv), Some(Xml), Some(Wml2)}
  {
    format := "json";
    if contentType.Some? {
      var lookup: map<MediaType, string> := map[];
      lookup := lookup[Tab := "tab"];
      lookup := lookup[Csv := "csv"];
      lookup := lookup[Xml := "xml"];
      lookup := lookup[Wml2 := "wml2"];
      lookup := lookup[Json := "json"];
      var t := contentType.value;
      if t in lookup {
        format := lookup[t];
      }
    }
  }

  /** The Jackson mapper a format is read with. */
  datatype Mapper = XmlMapper | JsonMapper

  /** LocationController.getObjectMapperForFormat: XML and XMLV2 read as XML, JSON and JSONV2 as JSON, anything else is refused. */
  function GetObjectMapperForFormat(format: MediaType): (r: Result<Mapper, Exception>)
    ensures r == Ok(XmlMapper) <==> format == Xml || format == XmlV2
    ensures r == Ok(JsonMapper) <==> format == Json || format == JsonV2
    ensures r.Err? <==> format !in {Xml, XmlV2, Json, JsonV2}
    ensures r.Err? ==> r.error == Formatting
  {
    if format == Xml || format == XmlV2 then Ok(XmlMapper)
    else if format == Json || format == JsonV2 then Ok(JsonMapper)
    else Err(Formatting)
  }

  /** The two tables agree on the XML and JSON types, but XMLV2 has no database format of its own. */
  method FormatTablesOnXmlV2() returns (format: string, mapper: Result<Mapper, Exception>)
    ensures format == "json" && mapper == Ok(XmlMapper)
  {
    format := GetFormatFromContent(Some(XmlV2));
    mapper := GetObjectMapperForFormat(XmlV2);
  }

  // ---------------------------------------------------------------- locations

  /** The properties of a Location, as getUpdatedLocation copies them. */
  datatype Property =
    | Name | Latitude | Longitude | Active | PublicName | LongName | Description | TimezoneName
    | LocationType | LocationKind | Nation | StateInitial | CountyName | NearestCity | HorizontalDatum
    | PublishedLongitude | PublishedLatitude | VerticalDatum | Elevation | MapLabel | BoundingOfficeId
    | OfficeId

  /** A property's value: a String, a Double (opaque), a Boolean; the Nation enum is its name. */
  datatype Field = Text(s: string) | Number(x: real) | Flag(b: bool)

  datatype Kind = TextKind | NumberKind | FlagKind

  function KindOf(p: Property): Kind
  {
    match p
    case Latitude | Longitude | PublishedLongitude | PublishedLatitude | Elevation => NumberKind
    case Active => FlagKind
    case _ => TextKind
  }

  predicate HasKind(f: Field, k: Kind)
  {
    match k
    case TextKind => f.Text?
    case NumberKind => f.Number?
    case FlagKind => f.Flag?
  }

  /** A Location: the non-null properties and their values. */
  datatype Location = Location(fields: map<Property, Field>)

  /** Every value has its property's Java type. */
  predicate WellTyped(l: Location)
  {
    forall p :: p in l.fields ==> HasKind(l.fields[p], KindOf(p))
  }

  /**
   * LocationController.getUpdatedLocation: each property of the result is the update's when that is non-null, else the
   * existing one; ZoneId.of then throws on a null time zone (NullPointerException) and on an
   * unknown one (DateTimeException). `zoneValid` is ZoneId.of's notion of a known id.
   */
  function GetUpdatedLocation(existing: Location, updated: Location, zoneValid: string -> bool)
    : (r: Result<Location, Exception>)
    requires WellTyped(existing) && WellTyped(updated)
    ensures r.Ok? ==> WellTyped(r.value)
    ensures r.Ok? ==> forall p ::
      (p in r.value.fields <==> p in updated.fields || p in existing.fields)
      && (p in r.value.fields ==>
            r.value.fields[p] == (if p in updated.fields then updated.fields[p] else existing.fields[p]))
    ensures r == Err(NullPointer) <==> TimezoneName !in updated.fields && TimezoneName !in existing.fields
    ensures r == Err(DateTime) <==>
      var z := if TimezoneName in updated.fields then updated.fields[TimezoneName] else
               if TimezoneName in existing.fields then existing.fields[TimezoneName] else Text("");
      (TimezoneName in updated.fields || TimezoneName in existing.fields) && !zoneValid(z.s)
    ensures r.Ok? || r == Err(NullPointer) || r == Err(DateTime)
  {
    var merged := existing.fields + updated.fields;
    if TimezoneName !in merged then Err(NullPointer)
    else if !zoneValid(merged[TimezoneName].s) then Err(DateTime)
    else Ok(Location(merged))
  }

  /** An update with every property null gives back the existing location. */
  lemma EmptyUpdateKeepsExisting(existing: Location, zoneValid: string -> bool)
    requires WellTyped(existing)
    requires TimezoneName in existing.fields && zoneValid(existing.fields[TimezoneName].s)
    ensures GetUpdatedLocation(existing, Location(map[]), zoneValid) == Ok(existing)
  {
    var r := GetUpdatedLocation(existing, Location(map[]), zoneValid).value;
    assert r.fields == existing.fields;
  }

  /** An update with no null property gives back the update itself. */
  lemma FullUpdateReplaces(existing: Location, updated: Location, zoneValid: string -> bool)
    requires WellTyped(existing) && WellTyped(updated)
    requires forall p: Property :: p in updated.fields
    requires zoneValid(updated.fields[TimezoneName].s)
    ensures GetUpdatedLocation(existing, updated, zoneValid) == Ok(updated)
  {
    var r := GetUpdatedLocation(existing, updated, zoneValid).value;
    assert r.fields == updated.fields;
  }

  /** Merging the same update a second time changes nothing. */
  lemma UpdateIsIdempotent(existing: Location, updated: Location, zoneValid: string -> bool)
    requires WellTyped(existing) && WellTyped(updated)
    requires GetUpdatedLocation(existing, updated, zoneValid).Ok?
    ensures var once := GetUpdatedLocation(existing, updated, zoneValid).value;
      GetUpdatedLocation(once, updated, zoneValid) == Ok(once)
  {
    var once := GetUpdatedLocation(existing, updated, zoneValid).value;
    var twice := GetUpdatedLocation(once, updated, zoneValid).value;
    assert twice.fields == once.fields;
  }

  // ---------------------------------------------------------------- updatedClearedFields

  /** A node of the request body's JSON tree; only a text node has a textValue. */
  datatype JsonNode = TextNode(text: string) | OtherNode

  /**
   * The body's property values found by root.findValue, by property: absent when the body
   * holds no field of that name.
   */
  type Body = map<Property, JsonNode>

  /** The body sends the property as the empty string, which asks for it to be cleared. */
  predicate Clears(root: Body, p: Property)
  {
    p in root && root[p] == TextNode("")
  }

  /**
   * The existing location with the listed properties the body clears made null; clearing one
   * of the properties the Location builder requires (`required`) throws, and the
   * NullPointerException is rethrown as an IOException.
   */
  function ClearedFields(existing: Location, properties: seq<Property>, root: Body, required: set<Property>)
    : (r: Result<Location, Exception>)
    ensures r.Err? <==> exists i :: 0 <= i < |properties| && properties[i] in required && Clears(root, properties[i])
    ensures r.Err? ==> r.error == IO
    ensures r.Ok? ==> forall p ::
      (p in r.value.fields <==> p in existing.fields && !(p in properties && Clears(root, p)))
      && (p in r.value.fields ==> r.value.fields[p] == existing.fields[p])
  {
    if exists i :: 0 <= i < |properties| && properties[i] in required && Clears(root, properties[i]) then Err(IO)
    else Ok(Location(map p | p in existing.fields && !(p in properties && Clears(root, p)) :: existing.fields[p]))
  }

  /**
   * LocationController.updatedClearedFields: the mapper for the format, the body read as a tree (`root`, None when it
   * does not parse), and then one pass over the bean properties of Location in `properties`,
   * clearing each one the body sends as "".
   */
  method UpdatedClearedFields(format: MediaType, root: Option<Body>, existing: Location,
                              properties: seq<Property>, required: set<Property>)
    returns (r: Result<Location, Exception>)
    ensures GetObjectMapperForFormat(format).Err? ==> r == Err(Formatting)
    ensures GetObjectMapperForFormat(format).Ok? && root.None? ==> r == Err(IO)
    ensures GetObjectMapperForFormat(format).Ok? && root.Some? ==>
      r == ClearedFields(existing, properties, root.value, required)
  {
    var om := GetObjectMapperForFormat(format);
    if om.Err? {
      return Err(Formatting);
    }
    if root.None? {
      return Err(IO);
    }
    var body := root.value;
    var retVal := existing;
    for i := 0 to |properties|
      invariant forall j :: 0 <= j < i ==> !(properties[j] in required && Clears(body, properties[j]))
      invariant forall p ::
        (p in retVal.fields <==> p in existing.fields && !(p in properties[..i] && Clears(body, p)))
        && (p in retVal.fields ==> retVal.fields[p] == existing.fields[p])
    {
      var propertyName := properties[i];
      if Clears(body, propertyName) {
        if propertyName in required {
          assert properties[i] in required && Clears(body, properties[i]);
          return Err(IO);
        }
        retVal := Location(retVal.fields - {propertyName});
      }
      assert properties[..i + 1] == properties[..i] + [properties[i]];
    }
    assert properties[..|properties|] == properties;
    r := Ok(retVal);
    assert retVal.fields == ClearedFields(existing, properties, body, required).value.fields;
  }

  /** A property the body does not send as "" keeps its existing value. */
  lemma UnclearedPropertyKept(existing: Location, properties: seq<Property>, root: Body,
                              required: set<Property>, p: Property)
    requires ClearedFields(existing, properties, root, required).Ok?
    requires p in existing.fields && !Clears(root, p)
    ensures var l := ClearedFields(existing, properties, root, required).value;
      p in l.fields && l.fields[p] == existing.fields[p]
  {
  }

  // ---------------------------------------------------------------- update

  /** What update asks of the data access object. */
  datatype DaoCall = RenameLocation(oldId: string, location: Location) | StoreLocation(location: Location)

  /**
   * LocationController.update: rename when the merged name differs, ignoring case, from the existing name
   * (a null existing name differs from every name), otherwise store; a null merged name throws.
   */
  function RenameOrStore(locationId: string, existing: Location, merged: Location): (r: Result<DaoCall, Exception>)
    requires WellTyped(existing) && WellTyped(merged)
    ensures r.Err? <==> Name !in merged.fields
    ensures r.Err? ==> r.error == NullPointer
    ensures r.Ok? && r.value.RenameLocation? <==>
      Name in merged.fields && (Name !in existing.fields
                                || !EqualsIgnoreCase(merged.fields[Name].s, existing.fields[Name].s))
    ensures r.Ok? ==> r.value.location == merged
    ensures r.Ok? && r.value.RenameLocation? ==> r.value.oldId == locationId
  {
    if Name !in merged.fields then Err(NullPointer)
    else if Name !in existing.fields || !EqualsIgnoreCase(merged.fields[Name].s, existing.fields[Name].s)
    then Ok(RenameLocation(locationId, merged))
    else Ok(StoreLocation(merged))
  }

  /** A name changed only in letter case is stored in place, never renamed. */
  lemma CaseOnlyChangeIsStored(locationId: string, existing: Location, merged: Location)
    requires WellTyped(existing) && WellTyped(merged)
    requires Name in existing.fields && Name in merged.fields
    requires Upper(merged.fields[Name].s) == Upper(existing.fields[Name].s)
    ensures RenameOrStore(locationId, existing, merged) == Ok(StoreLocation(merged))
  {
  }

  /** The stored locations, and the calls made that change them, of a LocationsDao. */
  class LocationsDao {
    /** The locations getLocation finds, by location id and the office asked for. */
    var stored: map<(string, Option<string>), Location>
    /** The renameLocation and storeLocation calls made, in order. */
    var calls: seq<DaoCall>

    constructor (stored: map<(string, Option<string>), Location>)
      ensures this.stored == stored && calls == []
    {
      this.stored := stored;
      calls := [];
    }

    /** getLocation: the location, or NotFoundException. */
    function GetLocation(locationId: string, officeId: Option<string>): (r: Result<Location, Exception>)
      reads this
      ensures r.Ok? <==> (locationId, officeId) in stored
      ensures r.Ok? ==> r.value == stored[(locationId, officeId)]
      ensures r.Err? ==> r.error == NotFound
    {
      if (locationId, officeId) in stored then Ok(stored[(locationId, officeId)]) else Err(NotFound)
    }

    method Record(call: DaoCall)
      modifies this
      ensures stored == old(stored) && calls == old(calls) + [call]
    {
      calls := calls + [call];
    }
  }

  /** deserializeLocation: the mapper for the format, then the body as a Location (None: unreadable). */
  function DeserializeLocation(format: MediaType, fromBody: Option<Location>): (r: Result<Location, Exception>)
    ensures GetObjectMapperForFormat(format).Err? ==> r == Err(Formatting)
    ensures GetObjectMapperForFormat(format).Ok? ==> (r.Ok? <==> fromBody.Some?)
    ensures r.Ok? ==> r == Ok(fromBody.value)
    ensures GetObjectMapperForFormat(format).Ok? && fromBody.None? ==> r == Err(IO)
  {
    if GetObjectMapperForFormat(format).Err? then Err(Formatting)
    else if fromBody.None? then Err(IO)
    else Ok(fromBody.value)
  }

  /** The request as update sees it: the parsed content type (None: null) and the body read two ways. */
  datatype Request = Request(contentType: Option<MediaType>, fromBody: Option<Location>, root: Option<Body>)

  /** The Location schema: its bean properties in order, those the builder requires, valid zones. */
  datatype Schema = Schema(properties: seq<Property>, required: set<Property>, zoneValid: string -> bool)

  /** Java's types: every location the request or the store can hold is well typed. */
  predicate WellTypedInputs(req: Request, stored: map<(string, Option<string>), Location>)
  {
    && (req.fromBody.Some? ==> WellTyped(req.fromBody.value))
    && forall k :: k in stored ==> WellTyped(stored[k])
  }

  /** The office the body names, which getLocation is asked for. */
  function OfficeOf(l: Location): Option<string>
    requires WellTyped(l)
  {
    if OfficeId in l.fields then Some(l.fields[OfficeId].s) else None
  }

  /** The decision update reaches, or the exception that ends it. */
  function UpdateDecision(locationId: string, req: Request, schema: Schema,
                          stored: map<(string, Option<string>), Location>): Result<DaoCall, Exception>
    requires WellTypedInputs(req, stored)
  {
    if req.contentType.None? then Err(Formatting)
    else
      var format := req.contentType.value;
      var fromBody := DeserializeLocation(format, req.fromBody);
      if fromBody.Err? then Err(fromBody.error)
      else
        var key := (locationId, OfficeOf(fromBody.value));
        if key !in stored then Err(NotFound)
        else
          var existing := if req.root.None? then Err(IO)
                          else ClearedFields(stored[key], schema.properties, req.root.value, schema.required);
          if existing.Err? then Err(existing.error)
          else
            var merged := GetUpdatedLocation(existing.value, fromBody.value, schema.zoneValid);
            if merged.Err? then Err(merged.error)
            else RenameOrStore(locationId, existing.value, merged.value)
  }

  /**
   * LocationController.update: parse the content type, read the body, fetch the stored location, clear what
   * the body clears, merge, then make exactly one of the two data access calls.
   */
  method Update(locationId: string, req: Request, schema: Schema, dao: LocationsDao)
    returns (r: Result<DaoCall, Exception>)
    requires WellTypedInputs(req, dao.stored)
    modifies dao
    ensures r == UpdateDecision(locationId, req, schema, old(dao.stored))
    ensures dao.stored == old(dao.stored)
    ensures dao.calls == old(dao.calls) + (if r.Ok? then [r.value] else [])
  {
    if req.contentType.None? {
      return Err(Formatting);
    }
    var format := req.contentType.value;
    var locationFromBody := DeserializeLocation(format, req.fromBody);
    if locationFromBody.Err? {
      return Err(locationFromBody.error);
    }
    var body := locationFromBody.value;
    var found := dao.GetLocation(locationId, OfficeOf(body));
    if found.Err? {
      return Err(found.error);
    }
    var existingLocation := UpdatedClearedFields(format, req.root, found.value, schema.properties, schema.required);
    if existingLocation.Err? {
      return Err(existingLocation.error);
    }
    var updatedLocation := GetUpdatedLocation(existingLocation.value, body, schema.zoneValid);
    if updatedLocation.Err? {
      return Err(updatedLocation.error);
    }
    r := RenameOrStore(locationId, existingLocation.value, updatedLocation.value);
    if r.Ok? {
      dao.Record(r.value);
    }
  }

  /** The HTTP status update answers with; None when the exception escapes the handler. */
  function StatusOf(r: Result<DaoCall, Exception>): (status: Option<int>)
    ensures r.Ok? ==> status == Some(202)
    ensures r == Err(NotFound) ==> status == Some(404)
    ensures r == Err(IO) ==> status == Some(500)
    ensures r.Err? && r.error !in {NotFound, IO} ==> status.None?
  {
    match r
    case Ok(_) => Some(202)
    case Err(NotFound) => Some(404)
    case Err(IO) => Some(500)
    case Err(_) => None
  }

  /**
   * getLocation guards the write: an update succeeds only for a location that is stored under
   * the id and the body's office, and once the content type and the body are read, a missing
   * one ends it with NotFoundException, answered with 404.
   */
  lemma UpdateNeedsStoredLocation(locationId: string, req: Request, schema: Schema,
                                  stored: map<(string, Option<string>), Location>)
    requires WellTypedInputs(req, stored)
    ensures var r := UpdateDecision(locationId, req, schema, stored);
      r.Ok? ==> req.fromBody.Some? && (locationId, OfficeOf(req.fromBody.value)) in stored
    ensures req.contentType.Some? && GetObjectMapperForFormat(req.contentType.value).Ok? && req.fromBody.Some?
            && (locationId, OfficeOf(req.fromBody.value)) !in stored ==>
      var r := UpdateDecision(locationId, req, schema, stored);
      r == Err(NotFound) && StatusOf(r) == Some(404)
  {
  }

  /**
   * A successful update renames exactly when the merged location's name differs, ignoring
   * case, from the stored one after clearing; a failed one makes no call at all.
   */
  lemma UpdateRenamesIffNameChanged(locationId: string, req: Request, schema: Schema,
                                    stored: map<(string, Option<string>), Location>)
    requires WellTypedInputs(req, stored)
    requires UpdateDecision(locationId, req, schema, stored).Ok?
    ensures var call := UpdateDecision(locationId, req, schema, stored).value;
      var newName := call.location.fields[Name].s;
      var key := (locationId, OfficeOf(req.fromBody.value));
      var existing := ClearedFields(stored[key], schema.properties, req.root.value, schema.required).value;
      && Name in call.location.fields
      && (call.RenameLocation? <==> Name !in existing.fields || !EqualsIgnoreCase(newName, existing.fields[Name].s))
  {
  }
}
