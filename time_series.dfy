/**
 * The paged time-series value retrieval of CwmsDataManager.getTimeseries: the value cursor,
 * the begin/end/time-zone resolution, the inclusive value window and the row budget.
 *
 * Times are epoch milliseconds. Zones are region ids or bare offsets. The stored procedure
 * that produces the series' rows for the window is the input `table`.
 */
module TimeSeriesRetrieval {
  import opened Wrappers
  import opened JavaText
  import opened Relational

  /** A java.time ZoneId: a region such as "PST8PDT", or a ZoneOffset given in seconds. */
  datatype Zone = Named(id: string) | Offset(seconds: int)

  /** ZoneOffset.UTC.normalized(): itself an offset, not a region. */
  const Utc: Zone := Offset(0)

  const DayMs: int := 86_400_000

  /** What ISO_DATE_TIME.parseBest(text, ZonedDateTime::from, LocalDateTime::from) yields. */
  datatype TimeInput =
    | ZonedText(epochMs: int, zone: Zone)  // a ZonedDateTime: its instant and the zone it carries
    | LocalText(localMs: int)              // a LocalDateTime, as milliseconds of local clock time
    | Unparseable                          // DateTimeParseException

  /** A ZonedDateTime: an instant and its zone. */
  datatype ZonedTime = ZonedTime(epochMs: int, zone: Zone)

  /**
   * LocalDateTime.atZone(zone). A region's offset at a local time comes from the zone rules,
   * which are the parameter `namedOffset(id, localMs)` (in seconds).
   */
  function AtZone(localMs: int, zone: Zone, namedOffset: (string, int) -> int): ZonedTime
  {
    match zone
    case Offset(s) => ZonedTime(localMs - s * 1000, zone)
    case Named(id) => ZonedTime(localMs - namedOffset(id, localMs) * 1000, zone)
  }

  // ---------------------------------------------------------------- the value cursor

  /** The decoded value cursor: its raw key, the resume instant, the total and the page size. */
  datatype ValueCursor = ValueCursor(
    cursor: Option<string>, resumeMs: Option<int>, total: Option<Int32>, pageSize: Int32)

  /**
   * CwmsDataManager.getTimeseries: a token of two or more parts (as TimeSeries.decodeCursor, the parameter
   * `decode`, splits it) supplies the cursor and resume time (part 0, a long), the total
   * (part 1, only with three or more parts) and the page size (the last part). Anything
   * else keeps the page size it was given.
   */
  function DecodeValueCursor(page: Option<string>, pageSize: Int32, decode: string -> seq<string>)
    : (r: Result<ValueCursor, Exception>)
    ensures page.None? || page.value == "" || |decode(page.value)| <= 1 ==>
      r == Ok(ValueCursor(None, None, None, pageSize))
    ensures page.Some? && page.value != "" && |decode(page.value)| > 1 ==>
      var parts := decode(page.value);
      && (r.Ok? <==> ParseLong(parts[0]).Some? && (|parts| > 2 ==> ParseInt(parts[1]).Some?)
                     && ParseInt(parts[|parts| - 1]).Some?)
      && (r.Err? ==> r.error == NumberFormat)
      && (r.Ok? ==> r.value == ValueCursor(Some(parts[0]), ParseLong(parts[0]),
                                           if |parts| > 2 then ParseInt(parts[1]) else None,
                                           ParseInt(parts[|parts| - 1]).value))
  {
    if page.None? || page.value == "" then Ok(ValueCursor(None, None, None, pageSize))
    else
      var parts := decode(page.value);
      if |parts| <= 1 then Ok(ValueCursor(None, None, None, pageSize))
      else
        match ParseLong(parts[0])
        case None => Err(NumberFormat)
        case Some(ms) =>
          var total := if |parts| > 2 then ParseInt(parts[1]) else None;
          if |parts| > 2 && total.None? then Err(NumberFormat)
          else
            match ParseInt(parts[|parts| - 1])
            case None => Err(NumberFormat)
            case Some(size) => Ok(ValueCursor(Some(parts[0]), Some(ms), total, size))
  }

  /**
   * A three-part token of decimal strings decodes to the numbers that were written: the
   * resume time, the total and the page size.
   */
  lemma DecodeDecimalParts(page: string, decode: string -> seq<string>, pageSize: Int32,
                           ms: int, total: Int32, size: Int32)
    requires MinInt64 <= ms <= MaxInt64
    requires page != "" && decode(page) == [IntToString(ms), IntToString(total), IntToString(size)]
    ensures DecodeValueCursor(Some(page), pageSize, decode)
         == Ok(ValueCursor(Some(IntToString(ms)), Some(ms), Some(total), size))
  {
    ParseLongOfToString(ms);
    ParseIntOfToString(total);
    ParseIntOfToString(size);
  }

  /** A two-part token carries the resume time and the page size but no total. */
  lemma DecodeTwoParts(page: string, decode: string -> seq<string>, pageSize: Int32,
                       ms: int, size: Int32)
    requires MinInt64 <= ms <= MaxInt64
    requires page != "" && decode(page) == [IntToString(ms), IntToString(size)]
    ensures DecodeValueCursor(Some(page), pageSize, decode)
         == Ok(ValueCursor(Some(IntToString(ms)), Some(ms), None, size))
  {
    ParseLongOfToString(ms);
    ParseIntOfToString(size);
  }

  // ---------------------------------------------------------------- zone resolution

  /** CwmsDataManager.getTimeseries: a missing begin is the local clock minus one day, a missing end the local clock. */
  function OrLocal(t: Option<TimeInput>, localMs: int): TimeInput
  {
    if t.None? then LocalText(localMs) else t.value
  }

  /** The begin and end instants and the zone the request is interpreted in. */
  datatype Window = Window(begin: ZonedTime, end: ZonedTime, zone: Zone)

  /**
   * CwmsDataManager.getTimeseries. A local begin is placed in `timezone`, or in UTC when there is none; a
   * local end is placed in the begin time's zone. Without `timezone`, a begin whose zone is
   * a bare offset is rejected, and otherwise the begin's zone becomes the effective zone.
   */
  function ResolveWindow(begin: TimeInput, end: TimeInput, timezone: Option<Zone>,
                         namedOffset: (string, int) -> int): (r: Result<Window, Exception>)
    ensures begin.Unparseable? || end.Unparseable? ==> r == Err(DateTimeParse)
    ensures r.Err? ==> r.error == DateTimeParse || r.error == IllegalArgument
    ensures r.Ok? ==> r.value.zone == (if timezone.Some? then timezone.value else r.value.begin.zone)
    ensures r.Ok? && begin.ZonedText? ==> r.value.begin == ZonedTime(begin.epochMs, begin.zone)
    ensures r.Ok? && begin.LocalText? ==>
      r.value.begin == AtZone(begin.localMs, if timezone.Some? then timezone.value else Utc, namedOffset)
    ensures r.Ok? && end.ZonedText? ==> r.value.end == ZonedTime(end.epochMs, end.zone)
    ensures r.Ok? && end.LocalText? ==> r.value.end == AtZone(end.localMs, r.value.begin.zone, namedOffset)
    ensures r.Ok? && timezone.None? ==> r.value.zone.Named?
  {
    var zone := if timezone.None? then Utc else timezone.value;
    if begin.Unparseable? || end.Unparseable? then Err(DateTimeParse)
    else
      var beginTime := if begin.ZonedText? then ZonedTime(begin.epochMs, begin.zone)
                       else AtZone(begin.localMs, zone, namedOffset);
      var endTime := if end.ZonedText? then ZonedTime(end.epochMs, end.zone)
                     else AtZone(end.localMs, beginTime.zone, namedOffset);
      if timezone.None? && beginTime.zone.Offset? then Err(IllegalArgument)
      else Ok(Window(beginTime, endTime, if timezone.None? then beginTime.zone else zone))
  }

  /** With an explicit time zone, any two parseable times are accepted. */
  lemma ExplicitTimezoneAccepted(begin: TimeInput, end: TimeInput, timezone: Zone,
                                 namedOffset: (string, int) -> int)
    requires !begin.Unparseable? && !end.Unparseable?
    ensures ResolveWindow(begin, end, Some(timezone), namedOffset).Ok?
    ensures ResolveWindow(begin, end, Some(timezone), namedOffset).value.zone == timezone
  {
  }

  /** Without a time zone, a begin that carries only an offset is rejected. */
  lemma OffsetOnlyBeginRejected(ms: int, seconds: int, end: TimeInput, namedOffset: (string, int) -> int)
    requires !end.Unparseable?
    ensures ResolveWindow(ZonedText(ms, Offset(seconds)), end, None, namedOffset) == Err(IllegalArgument)
  {
  }

  /**
   * Because the fallback zone is the offset ZoneOffset.UTC, a local begin without a time
   * zone is rejected too; in particular a request with no begin, end or time zone fails.
   */
  lemma LocalBeginWithoutTimezoneRejected(localMs: int, end: TimeInput, namedOffset: (string, int) -> int)
    requires !end.Unparseable?
    ensures ResolveWindow(LocalText(localMs), end, None, namedOffset) == Err(IllegalArgument)
  {
  }

  lemma NoTimesNoTimezoneRejected(clockAtBegin: int, clockAtEnd: int, namedOffset: (string, int) -> int)
    ensures ResolveWindow(OrLocal(None, clockAtBegin - DayMs), OrLocal(None, clockAtEnd), None, namedOffset)
         == Err(IllegalArgument)
  {
  }

  /**
   * A begin in a named zone and a zone-less end, without a time zone: the end is read in the
   * begin's zone (never in UTC) and that zone is the effective one.
   */
  lemma EndInheritsBeginZone(ms: int, id: string, endLocal: int, namedOffset: (string, int) -> int)
    ensures var r := ResolveWindow(ZonedText(ms, Named(id)), LocalText(endLocal), None, namedOffset);
      && r.Ok? && r.value.zone == Named(id) && r.value.end.zone == Named(id)
      && r.value.end.epochMs == endLocal - namedOffset(id, endLocal) * 1000
  {
  }

  // ---------------------------------------------------------------- the value rows

  /** One row of the value query: time, value (the rounding is the database's) and quality. */
  datatype Reading = Reading(epochMs: int, value: Option<real>, quality: int)

  /** CwmsDataManager.getTimeseries: `lo <= DATE_TIME <= hi`, both ends inclusive. */
  function InWindow(lo: int, hi: int): Reading -> bool
  {
    (r: Reading) => lo <= r.epochMs <= hi
  }

  /** CwmsDataManager.getTimeseries: NVL(cursor time, begin): the resume time replaces the begin time. */
  function WindowStart(resumeMs: Option<int>, begin: ZonedTime): int
  {
    if resumeMs.Some? then resumeMs.value else begin.epochMs
  }

  /** How many value rows the query may return. */
  datatype RowBudget = NoQuery | Unlimited | AtMost(rows: int)

  /** CwmsDataManager.getTimeseries: no query at zero, LIMIT pageSize + 1 (an int sum) above, none below. */
  function BudgetFor(pageSize: Int32): RowBudget
  {
    if pageSize == 0 then NoQuery
    else if pageSize > 0 then AtMost(Wrap32(pageSize + 1))
    else Unlimited
  }

  /** The readings the value query returns, in the order the table function delivers them. */
  function SelectValues(table: seq<Reading>, lo: int, hi: int, budget: RowBudget): seq<Reading>
  {
    match budget
    case NoQuery => []
    case Unlimited => Filter(table, InWindow(lo, hi))
    case AtMost(n) => Limit(Filter(table, InWindow(lo, hi)), n)
  }

  /** Every selected reading lies in the inclusive window `lo..hi`. */
  lemma SelectedValuesInWindow(table: seq<Reading>, lo: int, hi: int, pageSize: Int32)
    ensures forall i :: 0 <= i < |SelectValues(table, lo, hi, BudgetFor(pageSize))| ==>
      lo <= SelectValues(table, lo, hi, BudgetFor(pageSize))[i].epochMs <= hi
  {
    var all := Filter(table, InWindow(lo, hi));
    var sel := SelectValues(table, lo, hi, BudgetFor(pageSize));
    forall i | 0 <= i < |sel| ensures lo <= sel[i].epochMs <= hi {
      assert sel[i] == all[i];
      assert InWindow(lo, hi)(all[i]);
    }
  }

  /**
   * The budget: a positive page size yields the first `pageSize + 1` matching readings (all
   * of them if fewer match), a negative one every matching reading, zero none; at the largest
   * int, `pageSize + 1` wraps to a negative limit and the query returns nothing.
   */
  lemma ValueRowBudget(table: seq<Reading>, lo: int, hi: int, pageSize: Int32)
    ensures var all, sel := Filter(table, InWindow(lo, hi)), SelectValues(table, lo, hi, BudgetFor(pageSize));
      && (pageSize == 0 ==> sel == [])
      && (pageSize < 0 ==> sel == all)
      && (0 < pageSize < MaxInt32 ==>
            sel == all[..|sel|] && |sel| == (if pageSize + 1 < |all| then pageSize + 1 else |all|))
      && (pageSize == MaxInt32 ==> sel == [])
  {
  }

  /**
   * Resuming is inclusive at the cursor: with a resume time every selected reading is at or
   * after it, whatever the page size. A reading exactly at the resume time is kept when the
   * query has no row limit, or when the limit admits every reading from the resume time on;
   * under a tighter limit it is dropped if enough earlier rows of the table come first.
   */
  lemma ResumeIsInclusive(table: seq<Reading>, resumeMs: int, begin: ZonedTime, hi: int,
                          pageSize: Int32, x: Reading)
    requires x in table && x.epochMs == resumeMs && resumeMs <= hi
    ensures var all := Filter(table, InWindow(resumeMs, hi));
      var sel := SelectValues(table, WindowStart(Some(resumeMs), begin), hi, BudgetFor(pageSize));
      && (forall y :: y in sel ==> resumeMs <= y.epochMs)
      && (pageSize < 0 ==> x in sel)
      && (0 < pageSize < MaxInt32 && |all| <= pageSize + 1 ==> x in sel)
  {
    var all := Filter(table, InWindow(resumeMs, hi));
    var sel := SelectValues(table, resumeMs, hi, BudgetFor(pageSize));
    var k :| 0 <= k < |table| && table[k] == x;
    assert InWindow(resumeMs, hi)(table[k]);
    assert x in all;
    forall y | y in sel ensures resumeMs <= y.epochMs {
      assert y in multiset(sel);
      assert y in multiset(all);
      var j :| 0 <= j < |all| && all[j] == y;
    }
  }

  // ---------------------------------------------------------------- the page object

  /** What the metadata query reads from the database for the series. */
  datatype SeriesMetadata = SeriesMetadata(name: string, officeId: string, units: string, interval: Option<int>)

  /** The TimeSeries page: fixed at construction except for its readings, which addValue appends. */
  class TimeSeries {
    const cursor: Option<string>
    const pageSize: Int32
    const total: int
    const name: string
    const officeId: string
    const begin: ZonedTime
    const end: ZonedTime
    const units: string
    const intervalMinutes: int
    var values: seq<Reading>

    constructor (cursor: Option<string>, pageSize: Int32, total: int, name: string, officeId: string,
                 begin: ZonedTime, end: ZonedTime, units: string, intervalMinutes: int)
      ensures this.cursor == cursor && this.pageSize == pageSize && this.total == total
      ensures this.name == name && this.officeId == officeId && this.units == units
      ensures this.begin == begin && this.end == end && this.intervalMinutes == intervalMinutes
      ensures values == []
    {
      this.cursor := cursor;
      this.pageSize := pageSize;
      this.total := total;
      this.name := name;
      this.officeId := officeId;
      this.begin := begin;
      this.end := end;
      this.units := units;
      this.intervalMinutes := intervalMinutes;
      values := [];
    }

    /**
     * One reading handed to addValue. `values` records what was handed in; TimeSeries'
     * own trimming to pageSize and its next-page cursor are not part of this model.
     */
    method AddValue(r: Reading)
      modifies this
      ensures values == old(values) + [r]
    {
      values := values + [r];
    }
  }

  /**
   * CwmsDataManager.getTimeseries. `decode` is TimeSeries.decodeCursor,
   * `zoneOf` is ZoneId.of (None where it throws), `clockAtBegin`/`clockAtEnd` are the two
   * readings of the local clock, `namedOffset` the zone rules, `meta` the metadata row and
   * `table` the rows of RETRIEVE_TS_OUT_TAB for the begin..end window.
   */
  method GetTimeseries(page: Option<string>, pageSize: Int32, begin: Option<TimeInput>,
                       end: Option<TimeInput>, timezone: Option<string>, zoneOf: string -> Option<Zone>,
                       clockAtBegin: int, clockAtEnd: int, decode: string -> seq<string>,
                       namedOffset: (string, int) -> int, meta: SeriesMetadata, table: seq<Reading>)
    returns (r: Result<TimeSeries, Exception>)
    ensures var c := DecodeValueCursor(page, pageSize, decode);
      c.Err? ==> r.Err? && r.error == c.error
    ensures DecodeValueCursor(page, pageSize, decode).Ok? && timezone.Some? && zoneOf(timezone.value).None? ==>
      r.Err? && r.error == DateTime
    ensures var c := DecodeValueCursor(page, pageSize, decode);
      var tz := if timezone.Some? then zoneOf(timezone.value) else None;
      var w := ResolveWindow(OrLocal(begin, clockAtBegin - DayMs), OrLocal(end, clockAtEnd), tz, namedOffset);
      c.Ok? && (timezone.Some? ==> tz.Some?) ==>
        && (w.Err? ==> r.Err? && r.error == w.error)
        && (w.Ok? ==>
            && r.Ok? && fresh(r.value)
            && r.value.cursor == c.value.cursor
            && r.value.pageSize == c.value.pageSize
            && r.value.total == (if c.value.total.Some? then c.value.total.value else |table|)
            && r.value.begin == w.value.begin && r.value.end == w.value.end
            && r.value.name == meta.name && r.value.officeId == meta.officeId && r.value.units == meta.units
            && r.value.intervalMinutes == (if meta.interval.Some? then meta.interval.value else 0)
            && r.value.values == SelectValues(table, WindowStart(c.value.resumeMs, w.value.begin),
                                              w.value.end.epochMs, BudgetFor(c.value.pageSize)))
  {
    var c := DecodeValueCursor(page, pageSize, decode);
    if c.Err? {
      return Err(c.error);
    }
    var tz: Option<Zone> := None;
    if timezone.Some? {
      tz := zoneOf(timezone.value);
      if tz.None? {
        return Err(DateTime);
      }
    }
    var w := ResolveWindow(OrLocal(begin, clockAtBegin - DayMs), OrLocal(end, clockAtEnd), tz, namedOffset);
    if w.Err? {
      return Err(w.error);
    }
    var cursor, tsCursor, total, size := c.value.cursor, c.value.resumeMs, c.value.total, c.value.pageSize;
    var beginTime, endTime := w.value.begin, w.value.end;

    var timeseries := new TimeSeries(cursor, size, if total.Some? then total.value else |table|,
                                     meta.name, meta.officeId, beginTime, endTime, meta.units,
                                     if meta.interval.Some? then meta.interval.value else 0);
    if size != 0 {
      var rows := SelectValues(table, WindowStart(tsCursor, beginTime), endTime.epochMs, BudgetFor(size));
      var i := 0;
      while i < |rows|
        invariant 0 <= i <= |rows|
        invariant timeseries.values == rows[..i]
      {
        timeseries.AddValue(rows[i]);
        i := i + 1;
      }
      assert rows[..|rows|] == rows;
    }
    r := Ok(timeseries);
  }
}
