/**
 * Controllers.queryParamAsClass: a query parameter looked up under its current name first
 * and then under its deprecated names, in order, falling back to a default; the second
 * overload also counts, in a metrics registry, which of the three answered.
 *
 * The request's query string is `params` (name to raw value); the conversion to the asked
 * class is `convert`, None where Validator.get would throw.
 */
module Controllers {
  import opened Wrappers
  import opened JavaText

  /** The first index at or after `from` whose name has a value. */
  function FirstWithValue(params: map<string, string>, names: seq<string>, from: nat): (r: Option<nat>)
    decreases |names| - from
    ensures r.Some? ==> from <= r.value < |names| && names[r.value] in params
    ensures r.Some? ==> forall j :: from <= j < r.value ==> names[j] !in params
    ensures r.None? ==> forall j :: from <= j < |names| ==> names[j] !in params
  {
    if from >= |names| then None
    else if names[from] in params then Some(from)
    else FirstWithValue(params, names, from + 1)
  }

  /** Which name answered: the current one, a deprecated one (its index), or none. */
  datatype Source = Correct | Deprecated(index: nat) | Default

  function SourceOf(params: map<string, string>, names: seq<string>): (s: Source)
    requires |names| > 0
    ensures s.Correct? <==> names[0] in params
    ensures s.Deprecated? ==> 0 < s.index < |names| && names[s.index] in params
                              && forall j :: 0 <= j < s.index ==> names[j] !in params
    ensures s.Default? <==> forall j :: 0 <= j < |names| ==> names[j] !in params
  {
    if names[0] in params then Correct
    else
      match FirstWithValue(params, names, 1)
      case Some(i) => Deprecated(i)
      case None => Default
  }

  /** The value both overloads return, or what they throw. */
  function Resolve<T>(params: map<string, string>, names: seq<string>, convert: string -> Option<T>,
                      defaultValue: T): Result<T, Exception>
  {
    if names == [] then Err(IndexOutOfBounds)
    else
      match SourceOf(params, names)
      case Correct => Converted(convert(params[names[0]]))
      case Deprecated(i) => Converted(convert(params[names[i]]))
      case Default => Ok(defaultValue)
  }

  function Converted<T>(v: Option<T>): Result<T, Exception>
  {
    if v.Some? then Ok(v.value) else Err(Validation)
  }

  /** Controllers.queryParamAsClass, the plain overload. */
  method QueryParamAsClass<T(==)>(params: map<string, string>, names: seq<string>,
                                  convert: string -> Option<T>, defaultValue: T)
    returns (r: Result<T, Exception>)
    ensures r == Resolve(params, names, convert, defaultValue)
  {
    if |names| == 0 {
      return Err(IndexOutOfBounds);
    }
    var retval := Ok(defaultValue);
    if names[0] in params {
      retval := Converted(convert(params[names[0]]));
    } else {
      var i := 1;
      while i < |names|
        invariant 1 <= i <= |names|
        invariant forall j :: 1 <= j < i ==> names[j] !in params
        invariant FirstWithValue(params, names, 1) == FirstWithValue(params, names, i)
        invariant retval == Ok(defaultValue)
      {
        if names[i] in params {
          retval := Converted(convert(params[names[i]]));
          break;
        }
        i := i + 1;
      }
    }
    r := retval;
  }

  /** The first name wins whenever it has a value, whatever the other names hold. */
  lemma FirstNameWins<T>(params: map<string, string>, names: seq<string>, convert: string -> Option<T>,
                         defaultValue: T)
    requires |names| > 0 && names[0] in params
    ensures Resolve(params, names, convert, defaultValue) == Converted(convert(params[names[0]]))
  {
  }

  /** Otherwise the first deprecated name in list order that has a value answers. */
  lemma FirstDeprecatedWins<T>(params: map<string, string>, names: seq<string>, convert: string -> Option<T>,
                               defaultValue: T, i: nat)
    requires 0 < i < |names| && names[i] in params
    requires forall j :: 0 <= j < i ==> names[j] !in params
    ensures Resolve(params, names, convert, defaultValue) == Converted(convert(params[names[i]]))
  {
    var s := SourceOf(params, names);
    assert !s.Correct? && !s.Default?;
    assert !(s.index < i) && !(i < s.index);
  }

  /** With no name present, the default is returned. */
  lemma DefaultWhenAbsent<T>(params: map<string, string>, names: seq<string>, convert: string -> Option<T>,
                             defaultValue: T)
    requires |names| > 0 && forall j :: 0 <= j < |names| ==> names[j] !in params
    ensures Resolve(params, names, convert, defaultValue) == Ok(defaultValue)
  {
  }

  // ---------------------------------------------------------------- the counting overload

  /** The counters of a metrics registry, by name; a counter not yet created reads as 0. */
  class MetricRegistry {
    var counts: map<string, nat>

    constructor ()
      ensures counts == map[]
    {
      counts := map[];
    }

    function Count(name: string): nat
      reads this
    {
      if name in counts then counts[name] else 0
    }

    /** metrics.counter(name).inc(). */
    method Inc(name: string)
      modifies this
      ensures counts == old(counts)[name := old(Count(name)) + 1]
    {
      counts := counts[name := Count(name) + 1];
    }
  }

  /** MetricRegistry.name(className, suffix): the non-empty parts joined with '.'. */
  function CounterName(className: string, suffix: string): (n: string)
    requires suffix != ""
    ensures className != "" ==> n == className + "." + suffix
    ensures className == "" ==> n == suffix
  {
    if className == "" then suffix else className + "." + suffix
  }

  function CounterFor(className: string, s: Source): string
  {
    match s
    case Correct => CounterName(className, "correct")
    case Deprecated(_) => CounterName(className, "deprecated")
    case Default => CounterName(className, "default")
  }

  /**
   * Controllers.queryParamAsClass, the counting overload: the same value as the first overload; on success exactly one counter,
   * the one for the name that answered, goes up by one and no other changes.
   */
  method QueryParamAsClassCounted<T(==)>(params: map<string, string>, names: seq<string>,
                                         convert: string -> Option<T>, defaultValue: T,
                                         metrics: MetricRegistry, className: string)
    returns (r: Result<T, Exception>)
    modifies metrics
    ensures r == Resolve(params, names, convert, defaultValue)
    ensures r.Ok? ==> var c := CounterFor(className, SourceOf(params, names));
      metrics.counts == old(metrics.counts)[c := old(metrics.Count(c)) + 1]
    ensures r.Err? ==> metrics.counts == old(metrics.counts)
  {
    if |names| == 0 {
      return Err(IndexOutOfBounds);
    }
    var retval: Option<T> := None;
    if names[0] in params {
      var v := convert(params[names[0]]);
      if v.None? {
        return Err(Validation);
      }
      retval := v;
      metrics.Inc(CounterName(className, "correct"));
    } else {
      var i := 1;
      while i < |names|
        invariant 1 <= i <= |names|
        invariant forall j :: 1 <= j < i ==> names[j] !in params
        invariant FirstWithValue(params, names, 1) == FirstWithValue(params, names, i)
        invariant retval.None? && metrics.counts == old(metrics.counts)
      {
        if names[i] in params {
          var v := convert(params[names[i]]);
          if v.None? {
            return Err(Validation);
          }
          retval := v;
          metrics.Inc(CounterName(className, "deprecated"));
          break;
        }
        i := i + 1;
      }
      if retval.None? {
        retval := Some(defaultValue);
        metrics.Inc(CounterName(className, "default"));
      }
    }
    r := Ok(retval.value);
  }

  /** Both overloads return the same result for the same request. */
  method OverloadsAgree<T(==)>(params: map<string, string>, names: seq<string>, convert: string -> Option<T>,
                               defaultValue: T, metrics: MetricRegistry, className: string)
    returns (plain: Result<T, Exception>, counted: Result<T, Exception>)
    modifies metrics
    ensures plain == counted
  {
    plain := QueryParamAsClass(params, names, convert, defaultValue);
    counted := QueryParamAsClassCounted(params, names, convert, defaultValue, metrics, className);
  }

  // ---------------------------------------------------------------- the pinned cases

  /** The page-size names of the time-series endpoint, current name first. */
  const PageSizeNames: seq<string> := ["page-size", "pageSize", "pagesize"]

  /** Integer conversion, as Validator.get applies it to Integer.class. */
  function IntegerOf(s: string): Option<int>
  {
    if ParseInt(s).Some? then Some(ParseInt(s).value) else None
  }

  lemma ParseThreeThirtyThree()
    ensures IntegerOf("333") == Some(333)
  {
    ParseIntOfToString(333);
    assert IntToString(333) == "333" by {
      assert NatToDigits(3) == "3";
      assert NatToDigits(33) == "33";
      assert NatToDigits(333) == "333";
    }
  }

  /** Whichever page-size name alone carries "333", the result is 333; an unknown name gets 500. */
  lemma PageSizeCases(name: string)
    requires name in PageSizeNames
    ensures Resolve(map[name := "333"], PageSizeNames, IntegerOf, 500) == Ok(333)
    ensures Resolve(map["fake" := "333"], PageSizeNames, IntegerOf, 500) == Ok(500)
  {
    ParseThreeThirtyThree();
    var params := map[name := "333"];
    if name == "page-size" {
      FirstNameWins(params, PageSizeNames, IntegerOf, 500);
    } else if name == "pageSize" {
      FirstDeprecatedWins(params, PageSizeNames, IntegerOf, 500, 1);
    } else {
      FirstDeprecatedWins(params, PageSizeNames, IntegerOf, 500, 2);
    }
    DefaultWhenAbsent(map["fake" := "333"], PageSizeNames, IntegerOf, 500);
  }

  /** The same five cases through the counting overload: which counter each one bumps. */
  lemma PageSizeCounters(className: string)
    requires className != ""
    ensures CounterFor(className, SourceOf(map["page-size" := "333"], PageSizeNames)) == className + ".correct"
    ensures CounterFor(className, SourceOf(map["pageSize" := "333"], PageSizeNames)) == className + ".deprecated"
    ensures CounterFor(className, SourceOf(map["pagesize" := "333"], PageSizeNames)) == className + ".deprecated"
    ensures CounterFor(className, SourceOf(map["fake" := "333"], PageSizeNames)) == className + ".default"
  {
  }
}
