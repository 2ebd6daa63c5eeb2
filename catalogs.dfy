/**
 * The two catalog pages of CwmsDataManager: getTimeSeriesCatalog over AV_CWMS_TS_ID2 and
 * getLocationCatalog over AV_LOC left-joined with AV_LOC_GRP_ASSGN and folded into one
 * entry per location record with its aliases.
 *
 * A view is a sequence of rows. Catalog.decodeCursor(page, "|||") is the parameter `decode`.
 */
module Catalogs {
  import opened Wrappers
  import opened JavaText
  import opened Relational

  /** A Catalog: the cursor it was built from, the total, the page size and its entries. */
  datatype Catalog<E> = Catalog(cursor: Option<string>, total: int, pageSize: int, entries: seq<E>)

  /** Where a page starts: the key to continue after and the total, None when it must be counted. */
  datatype CatalogStart = CatalogStart(key: string, total: Option<int>)

  /** The key of the first page. */
  const FirstKey: string := "*"

  /**
   * CwmsDataManager.getTimeSeriesCatalog and getLocationCatalog, their cursor handling: no
   * token starts at "*" and counts; a token of one part starts at "*" with total 0;
   * otherwise the key is the second piece of part 0 split at '/' (so `a/b/c` gives `b`) and
   * the total is part 1.
   */
  function DecodeCatalogCursor(page: Option<string>, decode: string -> seq<string>)
    : (r: Result<CatalogStart, Exception>)
    ensures page.None? || page.value == "" ==> r == Ok(CatalogStart(FirstKey, None))
    ensures page.Some? && page.value != "" && |decode(page.value)| <= 1 ==> r == Ok(CatalogStart(FirstKey, Some(0)))
    ensures r.Ok? && r.value.total.None? <==> page.None? || page.value == ""
    ensures r.Err? ==> r.error == IndexOutOfBounds || r.error == NumberFormat
    ensures r.Ok? && r.value.key != FirstKey ==> '/' !in r.value.key
    ensures page.Some? && page.value != "" && |decode(page.value)| > 1 ==>
      var parts := decode(page.value);
      var pieces := JavaSplit(parts[0], '/');
      && (r == Err(IndexOutOfBounds) <==> |pieces| < 2)
      && (r == Err(NumberFormat) <==> |pieces| >= 2 && ParseInt(parts[1]).None?)
      && (r.Ok? ==> |pieces| >= 2 && ParseInt(parts[1]).Some?
                    && r.value == CatalogStart(pieces[1], Some(ParseInt(parts[1]).value)))
  {
    if page.None? || page.value == "" then Ok(CatalogStart(FirstKey, None))
    else
      var parts := decode(page.value);
      if |parts| <= 1 then Ok(CatalogStart(FirstKey, Some(0)))
      else
        var pieces := JavaSplit(parts[0], '/');
        if |pieces| < 2 then Err(IndexOutOfBounds)
        else
          JavaSplitPieces(parts[0], '/');
          match ParseInt(parts[1])
          case None => Err(NumberFormat)
          case Some(total) => Ok(CatalogStart(pieces[1], Some(total)))
  }

  /**
   * A token `office/id|||total` (as `decode` splits it) reads back as: continue after `id`,
   * with the given total.
   */
  lemma DecodeCatalogCursorOfParts(page: string, decode: string -> seq<string>,
                                     office: string, id: string, total: Int32)
    requires page != "" && '/' !in office && '/' !in id && id != ""
    requires decode(page) == [office + "/" + id, IntToString(total)]
    ensures DecodeCatalogCursor(Some(page), decode) == Ok(CatalogStart(id, Some(total)))
  {
    var s := office + "/" + id;
    assert s == office + ['/'] + id;
    assert s[|office|] == '/';
    RawSplitAtFirst(office, id, '/');
    RawSplitWithoutDelimiter(id, '/');
    ParseIntOfToString(total);
  }

  // ---------------------------------------------------------------- time-series catalog

  /** A row of AV_CWMS_TS_ID2 as selected, which is also a TimeseriesCatalogEntry. */
  datatype TsIdRow = TsIdRow(officeId: string, tsId: string, unitId: string)

  function TsIdOf(r: TsIdRow): string { r.tsId }

  /** CwmsDataManager.getTimeSeriesCatalog: the count filter compares the office case-sensitively. */
  function TsOfficeIs(office: Option<string>): TsIdRow -> bool
  {
    (r: TsIdRow) => office.None? || r.officeId == office.value
  }

  /** CwmsDataManager.getTimeSeriesCatalog: the office, ignoring case, and an upper-cased id after the key. */
  function TsAfter(key: string, office: Option<string>): TsIdRow -> bool
  {
    (r: TsIdRow) => (office.None? || Upper(r.officeId) == Upper(office.value)) && SqlAfter(key, Upper(r.tsId))
  }

  /**
   * CwmsDataManager.getTimeSeriesCatalog: the first `pageSize` rows after the key in
   * CWMS_TS_ID order, the key as the catalog's cursor and the total the cursor carried or
   * the count of the office's rows.
   */
  function GetTimeSeriesCatalog(page: Option<string>, pageSize: Int32, office: Option<string>,
                                decode: string -> seq<string>, table: seq<TsIdRow>)
    : (r: Result<Catalog<TsIdRow>, Exception>)
    ensures DecodeCatalogCursor(page, decode).Err? ==> r == Err(DecodeCatalogCursor(page, decode).error)
    ensures DecodeCatalogCursor(page, decode).Ok? ==>
      var start := DecodeCatalogCursor(page, decode).value;
      && r.Ok? && r.value.cursor == Some(start.key) && r.value.pageSize == pageSize
      && r.value.total == (if start.total.Some? then start.total.value else Count(table, TsOfficeIs(office)))
      && r.value.entries == OrderedPage(table, TsAfter(start.key, office), TsIdOf, pageSize)
  {
    match DecodeCatalogCursor(page, decode)
    case Err(e) => Err(e)
    case Ok(start) =>
      var total := if start.total.Some? then start.total.value else Count(table, TsOfficeIs(office));
      Ok(Catalog(Some(start.key), total, pageSize, OrderedPage(table, TsAfter(start.key, office), TsIdOf, pageSize)))
  }

  /**
   * The catalog page: rows after the key of the office only, in CWMS_TS_ID order, at most
   * `pageSize` of them; a qualifying row left out sorts no earlier than the last entry, and
   * a short page holds every qualifying row.
   */
  lemma TsCatalogPage(page: Option<string>, pageSize: Int32, office: Option<string>,
                      decode: string -> seq<string>, table: seq<TsIdRow>, x: TsIdRow)
    requires DecodeCatalogCursor(page, decode).Ok?
    requires x in table && TsAfter(DecodeCatalogCursor(page, decode).value.key, office)(x)
    ensures var key := DecodeCatalogCursor(page, decode).value.key;
      var entries := GetTimeSeriesCatalog(page, pageSize, office, decode, table).value.entries;
      && (forall i :: 0 <= i < |entries| ==> entries[i] in table && TsAfter(key, office)(entries[i]))
      && SortedBy(entries, TsIdOf)
      && |entries| <= (if pageSize < 0 then 0 else pageSize)
      && (x !in entries && entries != [] ==> !Less(x.tsId, entries[|entries| - 1].tsId))
      && (|entries| < pageSize ==> x in entries)
  {
    var key := DecodeCatalogCursor(page, decode).value.key;
    var entries := GetTimeSeriesCatalog(page, pageSize, office, decode, table).value.entries;
    assert entries == OrderedPage(table, TsAfter(key, office), TsIdOf, pageSize);
    OrderedPageIsLeast(table, TsAfter(key, office), TsIdOf, pageSize, x);
  }

  /**
   * The first page starts after the sentinel "*": an id whose upper-cased first character
   * sorts below '*' (a space, '!', '#', ...) is never on it.
   */
  lemma FirstPageSkipsIdsBelowStar(pageSize: Int32, office: Option<string>,
                                   decode: string -> seq<string>, table: seq<TsIdRow>, x: TsIdRow)
    requires x.tsId != [] && UpperChar(x.tsId[0]) < '*'
    ensures x !in GetTimeSeriesCatalog(None, pageSize, office, decode, table).value.entries
  {
    assert Upper(x.tsId)[0] == UpperChar(x.tsId[0]);
    assert !Less(FirstKey, Upper(x.tsId));
  }

  /** A resume key of "" (part 0 `a//b`) is NULL to Oracle: the page holds no entries at all. */
  lemma EmptyResumeKeyTsPage(pageSize: Int32, office: Option<string>, table: seq<TsIdRow>)
    ensures OrderedPage(table, TsAfter("", office), TsIdOf, pageSize) == []
  {
  }

  // ---------------------------------------------------------------- location catalog

  /**
   * An AV_LOC record, projected on the columns the catalog reads. The HashMap key is the whole
   * record; office, id and unit system already identify an SI row, so the projection merges
   * no keys.
   */
  datatype LocRow = LocRow(officeId: string, locationId: string, baseLocationId: string,
                           unitSystem: string, nearestCity: Option<string>)

  /** An AV_LOC_GRP_ASSGN record: which location is assigned to which group under which alias. */
  datatype AssignRow = AssignRow(locationId: string, categoryId: string, groupId: string, aliasId: Option<string>)

  /** A row of the joined query; no assignment when the left join found none. */
  datatype JoinedRow = JoinedRow(loc: LocRow, assignment: Option<AssignRow>)

  datatype LocationAlias = LocationAlias(name: string, value: string)

  datatype LocationEntry = LocationEntry(officeId: string, name: string, nearestCity: Option<string>,
                                         aliases: seq<LocationAlias>)

  /** CwmsDataManager.getLocationCatalog: the count compares the office case-sensitively, over every unit system. */
  function LocOfficeIs(office: Option<string>): LocRow -> bool
  {
    (l: LocRow) => office.None? || l.officeId == office.value
  }

  /** CwmsDataManager.getLocationCatalog: the inner query compares LOCATION_ID with the key as stored, case and all. */
  function ForLimit(key: string): LocRow -> bool
  {
    (l: LocRow) => SqlAfter(key, l.locationId) && l.unitSystem == "SI"
  }

  function BaseIdOf(l: LocRow): string { l.baseLocationId }

  function IdsOf(s: seq<LocRow>): (ids: seq<string>)
    ensures |ids| == |s| && forall i :: 0 <= i < |s| ==> ids[i] == s[i].locationId
  {
    seq(|s|, i requires 0 <= i < |s| => s[i].locationId)
  }

  /** The ids of the inner query: first `pageSize` SI rows after the key, by BASE_LOCATION_ID. */
  function LimitIds(locs: seq<LocRow>, key: string, pageSize: Int32): seq<string>
  {
    IdsOf(Limit(SortBy(Filter(locs, ForLimit(key)), BaseIdOf), pageSize))
  }

  /** CwmsDataManager.getLocationCatalog: SI rows whose upper-cased id is after the key, of the office ignoring case. */
  function OuterKeep(key: string, office: Option<string>): LocRow -> bool
  {
    (l: LocRow) => l.unitSystem == "SI" && SqlAfter(key, Upper(l.locationId))
                   && (office.None? || Upper(l.officeId) == Upper(office.value))
  }

  function AssignedTo(id: string): AssignRow -> bool
  {
    (a: AssignRow) => a.locationId == id
  }

  function Attach(l: LocRow, ms: seq<AssignRow>): seq<JoinedRow>
  {
    if ms == [] then [] else [JoinedRow(l, Some(ms[0]))] + Attach(l, ms[1..])
  }

  /** LEFT JOIN AV_LOC_GRP_ASSGN for one location row. */
  function LeftJoin(l: LocRow, assigns: seq<AssignRow>): seq<JoinedRow>
  {
    var ms := Filter(assigns, AssignedTo(l.locationId));
    if ms == [] then [JoinedRow(l, None)] else Attach(l, ms)
  }

  /** INNER JOIN with the inner query's ids, then the left join, for one location row. */
  function OnIds(l: LocRow, ids: seq<string>, assigns: seq<AssignRow>): seq<JoinedRow>
  {
    if ids == [] then []
    else (if ids[0] == l.locationId then LeftJoin(l, assigns) else []) + OnIds(l, ids[1..], assigns)
  }

  /** The whole joined query, row by row of AV_LOC. */
  function JoinRows(locs: seq<LocRow>, ids: seq<string>, assigns: seq<AssignRow>, keep: LocRow -> bool)
    : seq<JoinedRow>
  {
    if locs == [] then []
    else (if keep(locs[0]) then OnIds(locs[0], ids, assigns) else []) + JoinRows(locs[1..], ids, assigns, keep)
  }

  /** The rows CwmsDataManager.getLocationCatalog's joined query fetches. */
  function LocationRows(locs: seq<LocRow>, assigns: seq<AssignRow>, key: string, pageSize: Int32,
                        office: Option<string>): seq<JoinedRow>
  {
    JoinRows(locs, LimitIds(locs, key, pageSize), assigns, OuterKeep(key, office))
  }

  // ---- what the fold computes, stated independently of the map

  /** The location records that occur in `rows`. */
  function Locs(rows: seq<JoinedRow>): set<LocRow>
  {
    if rows == [] then {} else Locs(rows[..|rows| - 1]) + {rows[|rows| - 1].loc}
  }

  /** CwmsDataManager.getLocationCatalog: an assignment as a LocationAlias named CATEGORY-GROUP. */
  function AliasOf(a: AssignRow): LocationAlias
    requires a.aliasId.Some?
  {
    LocationAlias(a.categoryId + "-" + a.groupId, a.aliasId.value)
  }

  /** The aliases, in row order, of the rows of `l` whose assignment has an alias id. */
  function AliasesFor(rows: seq<JoinedRow>, l: LocRow): seq<LocationAlias>
  {
    if rows == [] then []
    else
      var last := rows[|rows| - 1];
      AliasesFor(rows[..|rows| - 1], l)
        + (if last.loc == l && last.assignment.Some? && last.assignment.value.aliasId.Some?
           then [AliasOf(last.assignment.value)] else [])
  }

  /** The aliases of the assignments of location `id` that have an alias id, in order. */
  function AssignedAliases(assigns: seq<AssignRow>, id: string): seq<LocationAlias>
  {
    NamedAliases(Filter(assigns, AssignedTo(id)))
  }

  /** The aliases of the assignments that have an alias id, in order. */
  function NamedAliases(ms: seq<AssignRow>): seq<LocationAlias>
  {
    if ms == [] then []
    else (if ms[0].aliasId.Some? then [AliasOf(ms[0])] else []) + NamedAliases(ms[1..])
  }

  /** `s` repeated `n` times. */
  function Repeat<T>(s: seq<T>, n: nat): seq<T>
  {
    if n == 0 then [] else s + Repeat(s, n - 1)
  }

  /** How often `x` occurs in `s`. */
  function Occurrences<T(==)>(s: seq<T>, x: T): nat
  {
    if s == [] then 0 else (if s[0] == x then 1 else 0) + Occurrences(s[1..], x)
  }

  lemma {:induction false} LocsConcat(a: seq<JoinedRow>, b: seq<JoinedRow>)
    ensures Locs(a + b) == Locs(a) + Locs(b)
  {
    if b != [] {
      LocsConcat(a, b[..|b| - 1]);
      assert (a + b)[..|a + b| - 1] == a + b[..|b| - 1];
    } else {
      assert a + b == a;
    }
  }

  lemma {:induction false} AliasesForConcat(a: seq<JoinedRow>, b: seq<JoinedRow>, l: LocRow)
    ensures AliasesFor(a + b, l) == AliasesFor(a, l) + AliasesFor(b, l)
  {
    if b != [] {
      AliasesForConcat(a, b[..|b| - 1], l);
      assert (a + b)[..|a + b| - 1] == a + b[..|b| - 1];
    } else {
      assert a + b == a;
    }
  }

  lemma {:induction false} AliasesForAbsent(rows: seq<JoinedRow>, l: LocRow)
    requires l !in Locs(rows)
    ensures AliasesFor(rows, l) == []
  {
    if rows != [] {
      AliasesForAbsent(rows[..|rows| - 1], l);
    }
  }

  lemma {:induction false} AttachLocs(l: LocRow, ms: seq<AssignRow>)
    ensures Locs(Attach(l, ms)) == (if ms == [] then {} else {l})
  {
    if ms != [] {
      AttachLocs(l, ms[1..]);
      var head := [JoinedRow(l, Some(ms[0]))];
      LocsConcat(head, Attach(l, ms[1..]));
      assert head[..0] == [];
    }
  }

  lemma {:induction false} AttachAliases(l: LocRow, ms: seq<AssignRow>, m: LocRow)
    ensures AliasesFor(Attach(l, ms), m) == (if l == m then NamedAliases(ms) else [])
  {
    if ms != [] {
      AttachAliases(l, ms[1..], m);
      var head := [JoinedRow(l, Some(ms[0]))];
      AliasesForConcat(head, Attach(l, ms[1..]), m);
      assert head[..0] == [];
    }
  }

  lemma LeftJoinLocs(l: LocRow, assigns: seq<AssignRow>)
    ensures Locs(LeftJoin(l, assigns)) == {l}
  {
    var ms := Filter(assigns, AssignedTo(l.locationId));
    AttachLocs(l, ms);
    if ms == [] {
      assert [JoinedRow(l, None)][..0] == [];
    }
  }

  lemma LeftJoinAliases(l: LocRow, assigns: seq<AssignRow>, m: LocRow)
    ensures AliasesFor(LeftJoin(l, assigns), m) == (if l == m then AssignedAliases(assigns, l.locationId) else [])
  {
    var ms := Filter(assigns, AssignedTo(l.locationId));
    AttachAliases(l, ms, m);
    if ms == [] {
      assert [JoinedRow(l, None)][..0] == [];
    }
  }

  lemma {:induction false} OnIdsLocs(l: LocRow, ids: seq<string>, assigns: seq<AssignRow>)
    ensures Locs(OnIds(l, ids, assigns)) == (if l.locationId in ids then {l} else {})
  {
    if ids != [] {
      OnIdsLocs(l, ids[1..], assigns);
      var head := if ids[0] == l.locationId then LeftJoin(l, assigns) else [];
      LocsConcat(head, OnIds(l, ids[1..], assigns));
      LeftJoinLocs(l, assigns);
      assert l.locationId in ids <==> ids[0] == l.locationId || l.locationId in ids[1..] by {
        assert ids == [ids[0]] + ids[1..];
      }
    }
  }

  lemma {:induction false} OnIdsAliases(l: LocRow, ids: seq<string>, assigns: seq<AssignRow>, m: LocRow)
    ensures AliasesFor(OnIds(l, ids, assigns), m)
         == (if l == m then Repeat(AssignedAliases(assigns, l.locationId), Occurrences(ids, l.locationId))
             else [])
  {
    if ids != [] {
      OnIdsAliases(l, ids[1..], assigns, m);
      var rest := OnIds(l, ids[1..], assigns);
      if ids[0] == l.locationId {
        AliasesForConcat(LeftJoin(l, assigns), rest, m);
        LeftJoinAliases(l, assigns, m);
      } else {
        assert OnIds(l, ids, assigns) == rest;
      }
    }
  }

  /**
   * The records the joined query returns: those of AV_LOC that pass the outer filter and
   * whose id the inner query picked; a record without assignments still gets its row.
   */
  lemma {:induction false} JoinRowsLocs(locs: seq<LocRow>, ids: seq<string>, assigns: seq<AssignRow>,
                                        keep: LocRow -> bool, l: LocRow)
    ensures l in Locs(JoinRows(locs, ids, assigns, keep)) <==> l in locs && keep(l) && l.locationId in ids
  {
    if locs != [] {
      JoinRowsLocs(locs[1..], ids, assigns, keep, l);
      var head := if keep(locs[0]) then OnIds(locs[0], ids, assigns) else [];
      LocsConcat(head, JoinRows(locs[1..], ids, assigns, keep));
      OnIdsLocs(locs[0], ids, assigns);
      assert l in locs <==> locs[0] == l || l in locs[1..] by {
        assert locs == [locs[0]] + locs[1..];
      }
    }
  }

  /** A resume key of "" is NULL to Oracle: the joined query returns no row, so no entry. */
  lemma EmptyResumeKeyLocationRows(locs: seq<LocRow>, assigns: seq<AssignRow>, pageSize: Int32,
                                   office: Option<string>)
    ensures LocationRows(locs, assigns, "", pageSize, office) == []
  {
    var rows := LocationRows(locs, assigns, "", pageSize, office);
    if rows != [] {
      var l := rows[|rows| - 1].loc;
      assert l in Locs(rows);
      JoinRowsLocs(locs, LimitIds(locs, "", pageSize), assigns, OuterKeep("", office), l);
    }
  }

  /**
   * The aliases the joined rows carry for a record: the named assignments of its id, once
   * per occurrence of the record in AV_LOC times once per occurrence of its id in the inner
   * query's ids.
   */
  lemma {:induction false} JoinRowsAliases(locs: seq<LocRow>, ids: seq<string>, assigns: seq<AssignRow>,
                                           keep: LocRow -> bool, l: LocRow)
    ensures AliasesFor(JoinRows(locs, ids, assigns, keep), l)
         == (if keep(l) then Repeat(Repeat(AssignedAliases(assigns, l.locationId),
                                           Occurrences(ids, l.locationId)),
                                    Occurrences(locs, l))
             else [])
  {
    if locs != [] {
      JoinRowsAliases(locs[1..], ids, assigns, keep, l);
      var rest := JoinRows(locs[1..], ids, assigns, keep);
      var x := Repeat(AssignedAliases(assigns, l.locationId), Occurrences(ids, l.locationId));
      assert Occurrences(locs, l) == (if locs[0] == l then 1 else 0) + Occurrences(locs[1..], l);
      if keep(locs[0]) {
        AliasesForConcat(OnIds(locs[0], ids, assigns), rest, l);
        OnIdsAliases(locs[0], ids, assigns, l);
        if locs[0] == l {
          assert Repeat(x, Occurrences(locs, l)) == x + Repeat(x, Occurrences(locs[1..], l));
        }
      } else {
        assert JoinRows(locs, ids, assigns, keep) == rest;
      }
    }
  }

  /**
   * When a record occurs once and its id once in the inner query, its aliases are exactly
   * the named assignments of its id, in order. An id the inner query returns twice (two
   * offices, one id) doubles every alias.
   */
  lemma SingleRecordAliases(locs: seq<LocRow>, assigns: seq<AssignRow>, key: string, pageSize: Int32,
                            office: Option<string>, l: LocRow)
    requires OuterKeep(key, office)(l)
    requires Occurrences(locs, l) == 1 && Occurrences(LimitIds(locs, key, pageSize), l.locationId) == 1
    ensures AliasesFor(LocationRows(locs, assigns, key, pageSize, office), l)
         == AssignedAliases(assigns, l.locationId)
  {
    var ids := LimitIds(locs, key, pageSize);
    JoinRowsAliases(locs, ids, assigns, OuterKeep(key, office), l);
    var x := AssignedAliases(assigns, l.locationId);
    assert Repeat(x, 1) == x;
    assert Repeat(Repeat(x, 1), 1) == x;
  }

  /**
   * The inner query picks at most `pageSize` ids, each the id of an SI row after the key as
   * stored.
   */
  lemma LimitIdsBounds(locs: seq<LocRow>, key: string, pageSize: Int32)
    ensures |LimitIds(locs, key, pageSize)| <= (if pageSize < 0 then 0 else pageSize)
    ensures forall i :: 0 <= i < |LimitIds(locs, key, pageSize)| ==>
      exists l :: l in locs && ForLimit(key)(l) && l.locationId == LimitIds(locs, key, pageSize)[i]
  {
    var candidates := Filter(locs, ForLimit(key));
    var page := Limit(SortBy(candidates, BaseIdOf), pageSize);
    forall i | 0 <= i < |page|
      ensures exists l :: l in locs && ForLimit(key)(l) && l.locationId == LimitIds(locs, key, pageSize)[i]
    {
      LimitOfSortedFrom(candidates, BaseIdOf, pageSize, page[i]);
      var k :| 0 <= k < |candidates| && candidates[k] == page[i];
      assert page[i] in locs && ForLimit(key)(page[i]);
    }
  }

  // ---- the fold into the HashMap and the entries taken out of it

  /**
   * CwmsDataManager.getLocationCatalog, its fold: one key per location record; a row adds its alias to the record's list
   * when the assignment's alias id is not null.
   */
  method FoldAliases(rows: seq<JoinedRow>) returns (theMap: map<LocRow, seq<LocationAlias>>)
    ensures theMap.Keys == Locs(rows)
    ensures forall l :: l in theMap ==> theMap[l] == AliasesFor(rows, l)
  {
    theMap := map[];
    for i := 0 to |rows|
      invariant theMap.Keys == Locs(rows[..i])
      invariant forall l :: l in theMap ==> theMap[l] == AliasesFor(rows[..i], l)
    {
      assert rows[..i + 1][..i] == rows[..i];
      var row := rows[i];
      ghost var prev := theMap;
      if row.loc !in theMap {
        theMap := theMap[row.loc := []];
      }
      if row.assignment.Some? && row.assignment.value.aliasId.Some? {
        theMap := theMap[row.loc := theMap[row.loc] + [AliasOf(row.assignment.value)]];
      }
      forall l | l in theMap ensures theMap[l] == AliasesFor(rows[..i + 1], l) {
        if l !in prev {
          AliasesForAbsent(rows[..i], l);
        }
        assert AliasesFor(rows[..i + 1], l)
            == AliasesFor(rows[..i], l)
               + (if row.loc == l && row.assignment.Some? && row.assignment.value.aliasId.Some?
                  then [AliasOf(row.assignment.value)] else []);
      }
    }
    assert rows[..|rows|] == rows;
  }

  function EntryOf(l: LocRow, aliases: seq<LocationAlias>): LocationEntry
  {
    LocationEntry(l.officeId, l.locationId, l.nearestCity, aliases)
  }

  /**
   * CwmsDataManager.getLocationCatalog, its entries: one entry per key of the map, in the map's iteration order, which the
   * ghost `order` records.
   */
  method EntriesOf(theMap: map<LocRow, seq<LocationAlias>>)
    returns (entries: seq<LocationEntry>, ghost order: seq<LocRow>)
    ensures |order| == |entries| == |theMap.Keys|
    ensures forall i, j :: 0 <= i < j < |order| ==> order[i] != order[j]
    ensures forall l :: l in theMap <==> l in order
    ensures forall i :: 0 <= i < |order| ==> order[i] in theMap && entries[i] == EntryOf(order[i], theMap[order[i]])
    ensures forall l :: l in theMap ==> EntryOf(l, theMap[l]) in entries
    ensures forall e :: e in entries ==> exists l :: l in theMap && e == EntryOf(l, theMap[l])
  {
    var rest := theMap.Keys;
    entries, order := [], [];
    while rest != {}
      invariant rest <= theMap.Keys
      invariant |order| == |entries| && |order| + |rest| == |theMap.Keys|
      invariant forall i, j :: 0 <= i < j < |order| ==> order[i] != order[j]
      invariant forall l :: l in theMap ==> (l in rest <==> l !in order)
      invariant forall i :: 0 <= i < |order| ==> order[i] in theMap && entries[i] == EntryOf(order[i], theMap[order[i]])
      decreases |rest|
    {
      var l :| l in rest;
      entries, order := entries + [EntryOf(l, theMap[l])], order + [l];
      rest := rest - {l};
    }
    EntriesCoverMap(theMap, entries, order);
  }

  /** Entries listed along `order` hold exactly one entry per key of the map. */
  lemma EntriesCoverMap(theMap: map<LocRow, seq<LocationAlias>>, entries: seq<LocationEntry>, order: seq<LocRow>)
    requires |order| == |entries|
    requires forall l :: l in theMap <==> l in order
    requires forall i :: 0 <= i < |order| ==> order[i] in theMap && entries[i] == EntryOf(order[i], theMap[order[i]])
    ensures forall l :: l in theMap ==> EntryOf(l, theMap[l]) in entries
    ensures forall e :: e in entries ==> exists l :: l in theMap && e == EntryOf(l, theMap[l])
  {
    forall l | l in theMap ensures EntryOf(l, theMap[l]) in entries {
      var i :| 0 <= i < |order| && order[i] == l;
      assert entries[i] == EntryOf(l, theMap[l]);
    }
    forall e | e in entries ensures exists l :: l in theMap && e == EntryOf(l, theMap[l]) {
      var i :| 0 <= i < |entries| && entries[i] == e;
      assert order[i] in theMap && e == EntryOf(order[i], theMap[order[i]]);
    }
  }

  /**
   * CwmsDataManager.getLocationCatalog: the catalog carries the cursor it was given, the
   * total the cursor carried or the count of the office's AV_LOC rows, and one entry with
   * its aliases for every record of the joined query.
   */
  method GetLocationCatalog(cursor: Option<string>, pageSize: Int32, office: Option<string>,
                            decode: string -> seq<string>, locs: seq<LocRow>, assigns: seq<AssignRow>)
    returns (r: Result<Catalog<LocationEntry>, Exception>, ghost order: seq<LocRow>)
    ensures DecodeCatalogCursor(cursor, decode).Err? ==> r == Err(DecodeCatalogCursor(cursor, decode).error)
    ensures DecodeCatalogCursor(cursor, decode).Ok? ==>
      var start := DecodeCatalogCursor(cursor, decode).value;
      var rows := LocationRows(locs, assigns, start.key, pageSize, office);
      && r.Ok? && r.value.cursor == cursor && r.value.pageSize == pageSize
      && r.value.total == (if start.total.Some? then start.total.value else Count(locs, LocOfficeIs(office)))
      && |order| == |r.value.entries|
      && (forall i, j :: 0 <= i < j < |order| ==> order[i] != order[j])
      && (forall l :: l in order <==> l in Locs(rows))
      && (forall i :: 0 <= i < |order| ==> r.value.entries[i] == EntryOf(order[i], AliasesFor(rows, order[i])))
      && |r.value.entries| == |Locs(rows)|
      && (forall l :: l in Locs(rows) ==> EntryOf(l, AliasesFor(rows, l)) in r.value.entries)
      && (forall e :: e in r.value.entries ==> exists l :: l in Locs(rows) && e == EntryOf(l, AliasesFor(rows, l)))
  {
    var start := DecodeCatalogCursor(cursor, decode);
    if start.Err? {
      return Err(start.error), [];
    }
    var total := if start.value.total.Some? then start.value.total.value else Count(locs, LocOfficeIs(office));
    var rows := LocationRows(locs, assigns, start.value.key, pageSize, office);
    var theMap := FoldAliases(rows);
    var entries;
    entries, order := EntriesOf(theMap);
    r := Ok(Catalog(cursor, total, pageSize, entries));
  }
}
