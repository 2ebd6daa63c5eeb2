# CWMS RADAR data access: a Dafny model of its paging and merge rules

This project models the decision logic of the CWMS RADAR API's data-access layer and of two
of its controllers:

- **Time-series value pages** (`CwmsDataManager.getTimeseries`):
  - decoding of the value cursor into a resume time, a total and a page size;
  - resolution of begin, end and time zone;
  - the inclusive value window;
  - the row budget;
  - the `TimeSeries` page object that readings are appended to.
- **Catalog pages**:
  - `getTimeSeriesCatalog`: a key-after filter, ordered and limited;
  - `getLocationCatalog`: the inner id query, the joined query, and the fold of its rows into
    one entry per location record with its aliases.
- **Smaller pieces of CwmsDataManager**:
  - the optional WHERE condition of the time-series group query (`buildWhereCondition`, `and`);
  - the assembly of a location group (`getLocationGroup`);
  - the GeoJSON features (`buildFeatureCollection`, `buildFeatureFromAvLocRecord`).
- **Query-parameter precedence** (`Controllers.queryParamAsClass`, both overloads):
  - the current name first, then the deprecated names in order, then the default;
  - the metrics overload also increments exactly one counter.
- **The location update path** (`LocationController`):
  - the content-type tables;
  - the clearing of fields sent as empty strings;
  - the field-wise merge of an update;
  - the rename-or-store decision.
- **Rating-spec pages** (`RatingSpecs` and its `Builder`): the next-page rule, the inbound
  cursor and the copy of the spec list.

The database is modelled as input sequences of rows. A query is a filter over those rows, an
ordering by key, and a limit.

Times are epoch milliseconds. Zones are `Named(id)` or `Offset(seconds)`. Java's `int`, the
`Integer.parseInt`/`Long.parseLong` ranges and `Integer.toString` are written out in
`JavaText`. So are `String.split` with its trailing-empty rule, ASCII upper-casing and
byte-wise string order.

Objects that the source updates in place are classes: `TimeSeries`, `MetricRegistry`,
`LocationsDao`, `RatingSpecs`, `Builder`, and `SpecList` (a caller's list).

The following collaborators are parameters:

- the cursor decoders;
- `ZoneId.of`;
- the zone rules;
- the parsed request body;
- the class conversion of a query value.

## Model

| member | source | states |
|---|---|---|
| JavaText.ParseInt | cwms_radar_api/src/main/java/cwms/radar/data/CwmsDataManager.java:256-260 | Integer.parseInt: a value exactly when the text is an optional sign and decimal digits whose value fits in an int. |
| JavaText.ParseIntOfToString | cwms_radar_api/src/main/java/cwms/radar/data/dto/rating/RatingSpecs.java:63 | Integer.parseInt reads back every int that Integer.toString wrote. |
| JavaText.ParseLongOfToString | cwms_radar_api/src/main/java/cwms/radar/data/CwmsDataManager.java:255 | Long.parseLong reads back every long that was written in decimal. |
| JavaText.SplitJoinRoundTrip | cwms_radar_api/src/main/java/cwms/radar/data/CwmsDataManager.java:135 | Rejoining the raw pieces of a split with the delimiter gives back the original text. |
| JavaText.JavaSplitPieces | cwms_radar_api/src/main/java/cwms/radar/data/CwmsDataManager.java:135 | String.split's pieces are the raw pieces with the trailing empty ones dropped, and none holds the delimiter. |
| JavaText.RawSplitAtFirst | cwms_radar_api/src/main/java/cwms/radar/data/CwmsDataManager.java:386 | Splitting at the first delimiter yields the text before it, then the pieces of the rest. |
| JavaText.LessTransitive | cwms_radar_api/src/main/java/cwms/radar/data/CwmsDataManager.java:404 | The string order used for ORDER BY and `>` is transitive. |
| JavaText.LessTotal | cwms_radar_api/src/main/java/cwms/radar/data/CwmsDataManager.java:404 | That order is total on distinct strings. |
| Relational.Filter | cwms_radar_api/src/main/java/cwms/radar/data/CwmsDataManager.java:397-402 | A WHERE clause keeps only rows of the view that satisfy it, and keeps every row that does. |
| Relational.FilterCountOf | cwms_radar_api/src/main/java/cwms/radar/data/CwmsDataManager.java:397-402 | A given row occurs in the WHERE result as often as in the view when it qualifies, and not at all otherwise. |
| Relational.FilterMultiplicity | cwms_radar_api/src/main/java/cwms/radar/data/CwmsDataManager.java:372 | WHERE keeps each qualifying row exactly as many times as the view holds it, and drops every other row; `count(*)` counts those. |
| Relational.SortBy | cwms_radar_api/src/main/java/cwms/radar/data/CwmsDataManager.java:404 | ORDER BY gives a permutation of the rows that is sorted by the key. |
| Relational.Limit | cwms_radar_api/src/main/java/cwms/radar/data/CwmsDataManager.java:404 | LIMIT n keeps the first n rows (all of them when fewer; none when n <= 0), so no row more often than the input holds it. |
| Relational.OrderedPage | cwms_radar_api/src/main/java/cwms/radar/data/CwmsDataManager.java:397-404 | A filtered, ordered, limited page holds only qualifying rows of the view. It is sorted, its size is the smaller of the limit and the number of qualifying rows, and no row occurs more often than among the qualifying rows. |
| Relational.OrderedPageIsLeast | cwms_radar_api/src/main/java/cwms/radar/data/CwmsDataManager.java:404 | A qualifying row left off the page sorts no earlier than the page's last row; a short page holds every qualifying row. |
| TimeSeriesRetrieval.DecodeValueCursor | cwms_radar_api/src/main/java/cwms/radar/data/CwmsDataManager.java:242-262 | A null, empty or one-part token keeps the page size and leaves cursor and total null. With two or more parts, part 0 is the cursor and resume time, part 1 is the total (only with three or more parts), and the last part is the page size. A part that is not a number raises NumberFormatException. |
| TimeSeriesRetrieval.DecodeDecimalParts | cwms_radar_api/src/main/java/cwms/radar/data/CwmsDataManager.java:252-260 | A three-part token of decimal numbers decodes to exactly those resume time, total and page size. |
| TimeSeriesRetrieval.DecodeTwoParts | cwms_radar_api/src/main/java/cwms/radar/data/CwmsDataManager.java:252-260 | A two-part token sets the resume time and the page size but no total. |
| TimeSeriesRetrieval.ResolveWindow | cwms_radar_api/src/main/java/cwms/radar/data/CwmsDataManager.java:264-279 | An unparseable time raises DateTimeParseException. A local begin is placed in the time zone, or in UTC without one. A local end is placed in the begin's zone. Without a time zone, the begin's zone becomes the effective one and must be a region. |
| TimeSeriesRetrieval.ExplicitTimezoneAccepted | cwms_radar_api/src/main/java/cwms/radar/data/CwmsDataManager.java:264-279 | With an explicit time zone, any two parseable times resolve, in that zone. |
| TimeSeriesRetrieval.OffsetOnlyBeginRejected | cwms_radar_api/src/main/java/cwms/radar/data/CwmsDataManager.java:274-276 | Without a time zone, a begin that carries only an offset raises IllegalArgumentException. |
| TimeSeriesRetrieval.LocalBeginWithoutTimezoneRejected | cwms_radar_api/src/main/java/cwms/radar/data/CwmsDataManager.java:264-276 | Without a time zone, a zone-less begin is placed in the UTC offset and is therefore rejected. |
| TimeSeriesRetrieval.NoTimesNoTimezoneRejected | cwms_radar_api/src/main/java/cwms/radar/data/CwmsDataManager.java:237-276 | A request with no begin, no end and no time zone is rejected. |
| TimeSeriesRetrieval.EndInheritsBeginZone | cwms_radar_api/src/main/java/cwms/radar/data/CwmsDataManager.java:270-278 | A zone-less end is read in the begin's region, never in UTC, and that region is the effective zone. |
| TimeSeriesRetrieval.SelectedValuesInWindow | cwms_radar_api/src/main/java/cwms/radar/data/CwmsDataManager.java:341-347 | Every selected reading lies in the window, and both ends are inclusive. |
| TimeSeriesRetrieval.ValueRowBudget | cwms_radar_api/src/main/java/cwms/radar/data/CwmsDataManager.java:334-350 | Page size 0 selects nothing. A negative page size selects every reading in the window. A positive one below the largest int selects the first pageSize + 1 readings in the window. At the largest int, pageSize + 1 wraps to a negative limit and nothing is selected. |
| TimeSeriesRetrieval.ResumeIsInclusive | cwms_radar_api/src/main/java/cwms/radar/data/CwmsDataManager.java:341-344 | With a resume time, every selected reading is at or after it, whatever the page size. A reading exactly at it is kept when the query has no row limit, or when the limit admits every window reading from the resume time on. |
| TimeSeriesRetrieval.TimeSeries.AddValue | cwms_radar_api/src/main/java/cwms/radar/data/CwmsDataManager.java:354-361 | The readings that getTimeseries hands to addValue, one per call and in order, are recorded in `values`. TimeSeries' own page handling is not modelled (see "## Left out"). |
| TimeSeriesRetrieval.GetTimeseries | cwms_radar_api/src/main/java/cwms/radar/data/CwmsDataManager.java:232-364 | Errors: a cursor, ZoneId.of or window error is raised as is. Otherwise the page's cursor and page size come from the decoded cursor. Its total is the cursor's, or else the count of rows. Its begin and end are the resolved window. The readings handed to addValue, recorded in `values`, are exactly the selected ones, in table order. |
| Catalogs.DecodeCatalogCursor | cwms_radar_api/src/main/java/cwms/radar/data/CwmsDataManager.java:367-389 | No token: key "*", and the total must be counted. A one-part token: key "*" and total 0. Otherwise part 0 is split at '/': fewer than two pieces raise an index error; else a part 1 that is not an int raises NumberFormatException; else the key is the second piece (`a/b/c` gives `b`) and the total is part 1. |
| Catalogs.DecodeCatalogCursorOfParts | cwms_radar_api/src/main/java/cwms/radar/data/CwmsDataManager.java:384-387 | A token whose parts are `office/id` and a decimal total resumes after `id` with that total. |
| Catalogs.GetTimeSeriesCatalog | cwms_radar_api/src/main/java/cwms/radar/data/CwmsDataManager.java:366-411 | The entries are the first pageSize rows, in id order, whose upper-cased id is after the key and whose office matches ignoring case. An empty key is NULL to Oracle, so no row is after it. The cursor is the key; the total is the token's or the office's row count. |
| Catalogs.TsCatalogPage | cwms_radar_api/src/main/java/cwms/radar/data/CwmsDataManager.java:397-408 | Entries qualify and are sorted, with at most pageSize of them. A qualifying row left out sorts no earlier than the last entry, and a short page holds every qualifying row. |
| Catalogs.FirstPageSkipsIdsBelowStar | cwms_radar_api/src/main/java/cwms/radar/data/CwmsDataManager.java:368-401 | The first page never holds an id whose first character sorts below '*'. |
| Catalogs.EmptyResumeKeyTsPage | cwms_radar_api/src/main/java/cwms/radar/data/CwmsDataManager.java:397-404 | A resume key of "" (a token part `a//b`) is NULL to Oracle, so the time-series catalog page is empty. |
| Catalogs.JoinRowsLocs | cwms_radar_api/src/main/java/cwms/radar/data/CwmsDataManager.java:443-456 | The joined query returns a location record exactly when the outer filter keeps it and the inner query picked its id; assignments are not needed. |
| Catalogs.JoinRowsAliases | cwms_radar_api/src/main/java/cwms/radar/data/CwmsDataManager.java:443-468 | The aliases the rows carry for a record are the named assignments of its id. They are repeated once per pick of the id by the inner query, and once per occurrence of the record. |
| Catalogs.SingleRecordAliases | cwms_radar_api/src/main/java/cwms/radar/data/CwmsDataManager.java:458-470 | A record that occurs once, whose id was picked once, gets exactly the named assignments of its id, in order. |
| Catalogs.LimitIdsBounds | cwms_radar_api/src/main/java/cwms/radar/data/CwmsDataManager.java:438-442 | The inner query picks at most pageSize ids, each that of an SI row whose id, as stored, is after the key. |
| Catalogs.AliasesForAbsent | cwms_radar_api/src/main/java/cwms/radar/data/CwmsDataManager.java:461-469 | A record that no row carries has no aliases. |
| Catalogs.FoldAliases | cwms_radar_api/src/main/java/cwms/radar/data/CwmsDataManager.java:458-470 | The HashMap has one key per distinct location record. Each key's list is that record's aliases from rows whose ALIAS_ID is non-null, in row order. |
| Catalogs.EntriesOf | cwms_radar_api/src/main/java/cwms/radar/data/CwmsDataManager.java:472-485 | One entry per map key, each built from its key's office, id and nearest city and its aliases; the order is unspecified. |
| Catalogs.EntriesCoverMap | cwms_radar_api/src/main/java/cwms/radar/data/CwmsDataManager.java:472-485 | Streaming the map's entries yields an entry for every key, and every entry comes from a key with its own aliases. |
| Catalogs.GetLocationCatalog | cwms_radar_api/src/main/java/cwms/radar/data/CwmsDataManager.java:413-489 | The catalog carries the raw cursor, the token's total or the office's record count, and the page size. Its entries are one per distinct record of the joined query, each with exactly its aliases; the joined query compares the key as Oracle does, an empty key being NULL. |
| Catalogs.EmptyResumeKeyLocationRows | cwms_radar_api/src/main/java/cwms/radar/data/CwmsDataManager.java:436-456 | A resume key of "" is NULL to Oracle, so the joined query returns no row, and the location catalog (one entry per record of those rows) has no entries. |
| Groups.HoldsIffAllAtoms | cwms_radar_api/src/main/java/cwms/radar/data/CwmsDataManager.java:667-676 | A conjunction keeps exactly the rows on which each of its equalities holds. |
| Groups.AndCondition | cwms_radar_api/src/main/java/cwms/radar/data/CwmsDataManager.java:667-676 | `and(null, c)` is `c`; otherwise the result conjoins the accumulated equalities, then `c`'s. |
| Groups.BuildWhereCondition | cwms_radar_api/src/main/java/cwms/radar/data/CwmsDataManager.java:647-665 | No condition exactly when no filter is non-null and non-empty. Otherwise the condition conjoins exactly the supplied office, category and group filters, in that order. |
| Groups.AllFiltersSelect | cwms_radar_api/src/main/java/cwms/radar/data/CwmsDataManager.java:647-665 | With all three filters, a row is kept exactly when its office, category and group are the ones asked for. |
| Groups.GetLocationGroup | cwms_radar_api/src/main/java/cwms/radar/data/CwmsDataManager.java:708-719 | No rows means no group. Otherwise the result is the first row's group, carrying every row's assigned location in row order. |
| Groups.GroupFromFirstRow | cwms_radar_api/src/main/java/cwms/radar/data/CwmsDataManager.java:711-716 | Later rows' group fields never affect the result. |
| Features.BuildFeatureFromAvLocRecord | cwms_radar_api/src/main/java/cwms/radar/data/CwmsDataManager.java:794-831 | The id is PUBLIC_NAME unless that is null or empty, else LOCATION_ID. A null coordinate is 0.0. avLoc is the record without null columns and without LATITUDE, LONGITUDE and PUBLIC_NAME. |
| Features.DescribesIsFunctional | cwms_radar_api/src/main/java/cwms/radar/data/CwmsDataManager.java:794-831 | Those rules fix the feature completely. |
| Features.NamedFeature | cwms_radar_api/src/main/java/cwms/radar/data/CwmsDataManager.java:798-812 | A record with a public name and both coordinates keeps them, and none of the three columns stays in avLoc. |
| Features.UnnamedFeature | cwms_radar_api/src/main/java/cwms/radar/data/CwmsDataManager.java:798-812 | An empty public name falls back to the location id, and missing coordinates become (0.0, 0.0). |
| Features.UnitSystemFor | cwms_radar_api/src/main/java/cwms/radar/data/CwmsDataManager.java:122-124 | Exactly "EN" selects EN rows; every other value, null included, selects SI. |
| Features.IdentifiersArePieces | cwms_radar_api/src/main/java/cwms/radar/data/CwmsDataManager.java:132-139 | The identifiers are the '\|'-separated pieces of the names, in order, with trailing empty pieces dropped. None holds '\|'. |
| Features.IdentifiersOfTwo | cwms_radar_api/src/main/java/cwms/radar/data/CwmsDataManager.java:134-136 | Two names joined by '\|' give exactly those two identifiers. |
| Features.BuildFeatureCollection | cwms_radar_api/src/main/java/cwms/radar/data/CwmsDataManager.java:120-151 | One feature per selected record, in order, each built by the feature rules. |
| Features.NoNamesSelectsAll | cwms_radar_api/src/main/java/cwms/radar/data/CwmsDataManager.java:126-132 | Without names, every record of the office and unit system is selected. |
| Controllers.FirstWithValue | cwms_radar_api/src/main/java/cwms/radar/api/Controllers.java:143-149 | The search stops at the first later name that has a value; all names before it have none; if none has a value, it finds nothing. |
| Controllers.SourceOf | cwms_radar_api/src/main/java/cwms/radar/api/Controllers.java:139-149 | The answer comes from the current name exactly when it has a value. Otherwise it comes from the first deprecated name that has one, or from the default when no name has. |
| Controllers.QueryParamAsClass | cwms_radar_api/src/main/java/cwms/radar/api/Controllers.java:135-154 | Returns the shared precedence result: current name, then deprecated names, then the default. An empty name list raises an index error; a value that does not convert fails validation. |
| Controllers.FirstDeprecatedWins | cwms_radar_api/src/main/java/cwms/radar/api/Controllers.java:143-149 | When the current name has no value, the first deprecated name in list order that has one answers. |
| Controllers.MetricRegistry.Inc | cwms_radar_api/src/main/java/cwms/radar/api/Controllers.java:180 | A counter goes up by one, and no other changes. |
| Controllers.CounterName | cwms_radar_api/src/main/java/cwms/radar/api/Controllers.java:180-193 | MetricRegistry.name joins the non-empty parts with '.'. |
| Controllers.QueryParamAsClassCounted | cwms_radar_api/src/main/java/cwms/radar/api/Controllers.java:172-199 | Returns the same result as the first overload. On success exactly one counter goes up by one, `correct`, `deprecated` or `default`, for the branch that answered. On failure no counter changes. |
| Controllers.OverloadsAgree | cwms_radar_api/src/main/java/cwms/radar/api/Controllers.java:123-171 | The two overloads return the same result for the same request. |
| Controllers.ParseThreeThirtyThree | cwms_radar_api/src/test/java/cwms/radar/api/ControllersTest.java:25-32 | "333" converts to the Integer 333. |
| Controllers.PageSizeCases | cwms_radar_api/src/test/java/cwms/radar/api/ControllersTest.java:163-199 | Each of page-size, pageSize and pagesize, set alone to 333, yields 333; an unrelated name yields the default 500. |
| LocationUpdate.GetFormatFromContent | cwms_radar_api/src/main/java/cwms/radar/api/LocationController.java:164-183 | TAB, CSV, XML and WML2 map to "tab", "csv", "xml" and "wml2", each exactly. Everything else, a null content type included, maps to "json". |
| LocationUpdate.GetObjectMapperForFormat | cwms_radar_api/src/main/java/cwms/radar/api/LocationController.java:416-427 | XML and XMLV2 select the XML mapper, and JSON and JSONV2 the JSON mapper, each exactly. Every other format raises FormattingException. |
| LocationUpdate.FormatTablesOnXmlV2 | cwms_radar_api/src/main/java/cwms/radar/api/LocationController.java:170-418 | XMLV2 is read as XML but its database format is "json". |
| LocationUpdate.GetUpdatedLocation | cwms_radar_api/src/main/java/cwms/radar/api/LocationController.java:429-493 | Each property is the update's when non-null, else the existing one. A null merged time zone raises NullPointerException; an unknown one raises DateTimeException. |
| LocationUpdate.EmptyUpdateKeepsExisting | cwms_radar_api/src/main/java/cwms/radar/api/LocationController.java:429-493 | An update with every property null gives back the existing location. |
| LocationUpdate.FullUpdateReplaces | cwms_radar_api/src/main/java/cwms/radar/api/LocationController.java:429-493 | An update with no null property gives back the update. |
| LocationUpdate.UpdateIsIdempotent | cwms_radar_api/src/main/java/cwms/radar/api/LocationController.java:429-493 | Merging the same update again changes nothing. |
| LocationUpdate.ClearedFields | cwms_radar_api/src/main/java/cwms/radar/api/LocationController.java:385-400 | Exactly the listed properties that the body sends as "" become null, and every other property is unchanged. Clearing a required property raises IOException. |
| LocationUpdate.UpdatedClearedFields | cwms_radar_api/src/main/java/cwms/radar/api/LocationController.java:378-401 | An unsupported format raises FormattingException, and an unreadable body IOException. Otherwise one pass over the bean properties computes the cleared location. |
| LocationUpdate.UnclearedPropertyKept | cwms_radar_api/src/main/java/cwms/radar/api/LocationController.java:389-394 | A property not sent as "" keeps its value. |
| LocationUpdate.RenameOrStore | cwms_radar_api/src/main/java/cwms/radar/api/LocationController.java:314-321 | The location is renamed away from the old id exactly when the merged name differs, ignoring case, from the existing one; a null existing name always differs. Otherwise it is stored. A null merged name raises NullPointerException. |
| LocationUpdate.LocationsDao.GetLocation | cwms_radar_api/src/main/java/cwms/radar/api/LocationController.java:309-310 | getLocation finds the stored location, or raises NotFoundException. |
| LocationUpdate.DeserializeLocation | cwms_radar_api/src/main/java/cwms/radar/api/LocationController.java:403-414 | An unsupported format raises FormattingException, and an unreadable body IOException. |
| LocationUpdate.Update | cwms_radar_api/src/main/java/cwms/radar/api/LocationController.java:298-333 | Update makes exactly one data-access call, rename or store as the decision says, on success, and none on failure; the stored locations are not changed by the method itself. |
| LocationUpdate.UpdateNeedsStoredLocation | cwms_radar_api/src/main/java/cwms/radar/api/LocationController.java:306-325 | An update succeeds only for a location stored under the id and the body's office. Once the content type and the body are read, a missing one ends the update with NotFoundException, answered with 404. |
| LocationUpdate.StatusOf | cwms_radar_api/src/main/java/cwms/radar/api/LocationController.java:317-332 | Status 202 after either call; NotFoundException gives 404; IOException gives 500; other exceptions escape the handler. |
| LocationUpdate.UpdateRenamesIffNameChanged | cwms_radar_api/src/main/java/cwms/radar/api/LocationController.java:309-321 | A successful update renames exactly when the merged name differs, ignoring case, from the stored name after clearing. |
| RatingSpecPages.NextPage | cwms_radar_api/src/main/java/cwms/radar/data/dto/rating/RatingSpecs.java:62-69 | A next cursor exists exactly when the page is full. It resumes at offset + size as a Java int, with the same page size and total. |
| RatingSpecPages.NextPageResumesAfterPage | cwms_radar_api/src/main/java/cwms/radar/data/dto/rating/RatingSpecs.java:62-66 | Without overflow, a full page's next key reads back as offset + pageSize. |
| RatingSpecPages.Builder.Specs | cwms_radar_api/src/main/java/cwms/radar/data/dto/rating/RatingSpecs.java:54-57 | specs() keeps a reference to the caller's list and returns the builder. |
| RatingSpecPages.Builder.Build | cwms_radar_api/src/main/java/cwms/radar/data/dto/rating/RatingSpecs.java:59-71 | Without a list, build() raises NullPointerException. Otherwise the new page's cursor is Integer.toString(offset), with the builder's page size and total. Its specs are the list's current contents, and its next page is given by the next-page rule. |
| RatingSpecPages.BuiltPageIsIsolated | cwms_radar_api/src/main/java/cwms/radar/data/dto/rating/RatingSpecs.java:26-34 | getSpecs shows the page's own copy: changing the caller's list after build() leaves what getSpecs returns unchanged. |

## Left out

- **I/O is not modelled:**
  - SQL text, jOOQ query construction, connections and logging;
  - the stored-procedure calls;
  - the `ROUND_DD_F`/`NORMALIZE_QUALITY` value transforms.
  
  Query results are input sequences of rows, and readings keep whatever value and quality the table holds.
- **Cursor codecs are parameters:** TimeSeries.decodeCursor, Catalog.decodeCursor and encodeCursor are not part of this model. Decoding is the parameter `decode`, and an encoded next cursor is the triple `PageCursor` it would combine. No round trip through them is claimed.
- **java.time is abstract:**
  - ISO parsing is the input datatype `TimeInput`;
  - zone rules are `namedOffset`;
  - ZoneId.of is `zoneOf` in getTimeseries and `zoneValid` in getUpdatedLocation;
  - `ZonedDateTime.now()` is two clock readings.
  
  The zone id stored in a merged Location is the text given; ZoneId normalisation is not modelled.
- **Unit resolution is left out:** the unit or default-unit resolution of getTimeseries (lines 287-289) is a stored-procedure call. The page's units are the metadata row's, and a null `units` (which would fail at `compareToIgnoreCase`) is not modelled.
- **The count query is not modelled:** an unknown total is taken as the number of rows of the retrieve table passed in.
- TimeSeriesRetrieval.TimeSeries.AddValue / TimeSeriesRetrieval.GetTimeseries: TimeSeries.java is not part of this model, so TimeSeries' own page handling is not modelled. Dropping the extra (pageSize + 1)-th reading and setting a next-page cursor from it are left out. `values` is the sequence of readings handed to addValue, so a page here holds up to pageSize + 1 readings and no next cursor.
- JavaText.ParseInt / JavaText.EqualsIgnoreCase / LocationUpdate.RenameOrStore: text handling is ASCII-only. Java's `Character.digit` also accepts other Unicode decimal digits ("١٢٣" parses to 123), and `equalsIgnoreCase` folds Unicode case. The model rejects such digits with NumberFormatException and compares non-ASCII letters exactly, so renaming "Étang" to "étang" is a rename here where Java stores. JavaText.ParseLong, JavaText.Upper and the catalogs' upper-cased comparisons share the narrowing.
- Catalogs.LocRow: AV_LOC records are projected on the five columns the catalog reads, and the HashMap key is that projection rather than the whole record. `row.into(AV_LOC_ALIAS)` is read as the joined assignment's CATEGORY_ID, GROUP_ID and ALIAS_ID, the columns the entry takes from it.
- **Catalog construction is left out:** the Catalog constructor's own next-page logic is not part of this model (Catalog is not part of it). A catalog here is its cursor, total, page size and entries.
- **The joined query's ORDER BY LOCATION_ID is not modelled:** the HashMap discards that order. Within one record, aliases keep the order of the rows as the join yields them, which the model fixes as AV_LOC order, then id order, then assignment order.
- **LIMIT is an assumption:** jOOQ's `limit(n)` with n <= 0 is modelled as returning no rows.
- **Features omits the office and group variants:** a null officeId in buildFeatureCollection is not modelled (the office is a string). buildFeatureCollectionForLocationGroup is not part of this model.
- **getLocationGroup starts from rows:** the query and the record mapper of getLocationGroup are left out. The model starts from the mapped `(group, assigned location)` pairs.
- **Location.java and Formats are not part of this model:**
  - `required` (the properties Location.Builder refuses to null) is a parameter, as is `properties` (the bean properties Jackson introspects, in order).
  - `root.findValue` is a parsed map from property to JSON node. The Jackson name of each property and the deep search of findValue are not modelled.
  - Whether Location.Builder rejects other nulls is not modelled.
  - Formats' constants are the constructors of `MediaType`, assumed pairwise distinct, and `Other` stands for any other type.
  - Formats.parseHeader is the request's already-parsed content type.
- **LocationUpdate.GetUpdatedLocation: Location.Builder is assumed to copy.** `new Location.Builder(..).build()` is assumed to copy every property and check nothing but the zone.
- **HTTP plumbing is left out:** `markAndTime`, request-size metrics, the JSON error bodies and the response text are left out. Only the status code of update is modelled.
- **Controllers' Javalin Validator is abstract:**
  - hasValue is presence in the `params` map;
  - `get()` is the `convert` parameter (a failed conversion is a validation error);
  - a parameter given several times is its first value.
- **Object identity is not modelled:** RatingSpec is reduced to its rating id, and TimeSeries values to (time, value, quality).
- **Floating point is not modelled:** latitude, longitude and values are opaque reals.

Behaviour of the code that a reader might not expect:

- A two-part value cursor sets the page size from its last part, not a total.
- The value cursor resumes with `>=`, so the reading at the resume time is repeated. The catalogs resume after their key with `>`.
- The value query has no ORDER BY, so readings keep the table function's order.
- The location catalog's entries come out of a HashMap in an unspecified order, and the catalog carries the raw cursor rather than a resume key.
- The UTC fallback zone is an offset. So a request without begin, end and time zone is rejected, rather than returning the last 24 hours in UTC.
- A page size of zero runs no value query. A negative one means no limit. `pageSize + 1` wraps for the largest int.
- The location count compares the office case-sensitively over every unit system. The page rows are filtered to SI and compare the office ignoring case.
- The inner location query compares the stored id, case and all, with the key, orders by BASE_LOCATION_ID, and has no office filter. An id it picks twice doubles that record's aliases.
- The first-page sentinel "*" excludes ids that sort below '*'.
- A resume key of "" (a cursor part `a//b`) is bound as NULL by Oracle, so `> ''` holds for no row and that page is empty.
- XMLV2 is accepted for reading a location, but getFormatFromContent maps it to "json".
