/**
 * Filtering close approaches by user restrictions (filters.py): the names of
 * the restrictions, filling in missing bounds, the admission test for one
 * approach, and the limit on the number of results.
 *
 * The restrictions are a dictionary from names to values as the command line
 * delivers them; an exception the Python code would raise is an `Err` result.
 */
module Filters {
  import opened Wrappers
  import opened Helpers
  import opened Models

  const DistanceMinKey := "distance_min"
  const DistanceMaxKey := "distance_max"
  const DiameterMinKey := "diameter_min"
  const DiameterMaxKey := "diameter_max"
  const VelocityMinKey := "velocity_min"
  const VelocityMaxKey := "velocity_max"
  const DateKey := "date"
  const StartDateKey := "start_date"
  const EndDateKey := "end_date"
  const HazardousKey := "hazardous"

  /** A restriction value: `None`, a float, a calendar date or a boolean. */
  datatype Arg = Null | Num(x: Float) | Day(d: Date) | Flag(b: bool)

  /** The exceptions the filters can raise. */
  datatype Error = KeyError(key: string) | TypeError | AttributeError | ValueError

  // ---------------------------------------------------------------------------
  // Substrings: Python's `sub in s` on strings

  predicate OccursAt(sub: string, s: string, i: nat) {
    i + |sub| <= |s| && s[i..i + |sub|] == sub
  }

  predicate IsSubstring(sub: string, s: string) {
    exists i: nat | i <= |s| :: OccursAt(sub, s, i)
  }

  /** A non-empty pattern does not occur where its first or its last character does not match. */
  lemma NoOccurrence(sub: string, s: string)
    requires |sub| > 0
    requires forall i :: 0 <= i <= |s| - |sub| ==> s[i] != sub[0] || s[i + |sub| - 1] != sub[|sub| - 1]
    ensures !IsSubstring(sub, s)
  {
    forall i: nat | i <= |s|
      ensures !OccursAt(sub, s, i)
    {
      if i + |sub| <= |s| {
        var window := s[i..i + |sub|];
        if s[i] != sub[0] {
          assert window[0] != sub[0];
        } else {
          assert window[|sub| - 1] != sub[|sub| - 1];
        }
      }
    }
  }

  // ---------------------------------------------------------------------------
  // clean_args_dict

  /** Which bound a key names, tested in the order `min`, `max`, `start`, `end`. */
  datatype Kind = Lower | Upper | Start | End | Other

  function KindOf(key: string): Kind {
    if IsSubstring("min", key) then Lower
    else if IsSubstring("max", key) then Upper
    else if IsSubstring("start", key) then Start
    else if IsSubstring("end", key) then End
    else Other
  }

  /**
   * The cleaned value of one entry: a `None` lower or upper bound becomes the
   * matching infinity and a `None` start or end date the earliest or latest
   * valid date; every other value is kept.
   */
  function CleanValue(key: string, val: Arg, earliest: Date, latest: Date): Arg {
    if !val.Null? then val
    else
      match KindOf(key)
      case Lower => Num(NegInf)
      case Upper => Num(PosInf)
      case Start => Day(earliest)
      case End => Day(latest)
      case Other => Null
  }

  /** The dictionary `clean_args_dict` returns: a copy with every entry cleaned. */
  function Cleaned(args: map<string, Arg>, earliest: Date, latest: Date): (cleaned: map<string, Arg>)
    ensures cleaned.Keys == args.Keys
    ensures forall key :: key in args && !args[key].Null? ==> cleaned[key] == args[key]
  {
    map key | key in args :: CleanValue(key, args[key], earliest, latest)
  }

  /**
   * Copies the arguments and fills in each missing bound, one entry at a
   * time; the caller's dictionary is not modified.
   */
  method CleanArgsDict(args: map<string, Arg>, earliest: Date, latest: Date) returns (cleaned: map<string, Arg>)
    ensures cleaned == Cleaned(args, earliest, latest)
  {
    cleaned := args;
    var todo := args.Keys;
    while todo != {}
      invariant todo <= args.Keys
      invariant cleaned.Keys == args.Keys
      invariant forall key :: key in args ==>
                  cleaned[key] == if key in todo then args[key] else CleanValue(key, args[key], earliest, latest)
      decreases |todo|
    {
      var key :| key in todo;
      var val := cleaned[key];
      if IsSubstring("min", key) {
        if val == Null {
          cleaned := cleaned[key := Num(NegInf)];
        }
      } else if IsSubstring("max", key) {
        if val == Null {
          cleaned := cleaned[key := Num(PosInf)];
        }
      } else if IsSubstring("start", key) {
        if val == Null {
          cleaned := cleaned[key := Day(earliest)];
        }
      } else if IsSubstring("end", key) {
        if val == Null {
          cleaned := cleaned[key := Day(latest)];
        }
      }
      assert cleaned[key] == CleanValue(key, args[key], earliest, latest);
      todo := todo - {key};
    }
  }

  /**
   * The fill rule in full: a `None` entry whose key contains `min` becomes
   * -inf, else one containing `max` becomes +inf, else one containing `start`
   * becomes the earliest date, else one containing `end` the latest date;
   * any other `None` stays `None`.
   */
  lemma CleanedFillRule(args: map<string, Arg>, earliest: Date, latest: Date, key: string)
    requires key in args && args[key] == Null
    ensures var c := Cleaned(args, earliest, latest)[key];
      && (IsSubstring("min", key) ==> c == Num(NegInf))
      && (!IsSubstring("min", key) && IsSubstring("max", key) ==> c == Num(PosInf))
      && (!IsSubstring("min", key) && !IsSubstring("max", key) && IsSubstring("start", key) ==> c == Day(earliest))
      && (!IsSubstring("min", key) && !IsSubstring("max", key) && !IsSubstring("start", key) && IsSubstring("end", key)
          ==> c == Day(latest))
      && (!IsSubstring("min", key) && !IsSubstring("max", key) && !IsSubstring("start", key) && !IsSubstring("end", key)
          ==> c == Null)
  {
  }

  /** Cleaning twice is cleaning once. */
  lemma CleanedIdempotent(args: map<string, Arg>, earliest: Date, latest: Date)
    ensures Cleaned(Cleaned(args, earliest, latest), earliest, latest) == Cleaned(args, earliest, latest)
  {
    var once := Cleaned(args, earliest, latest);
    var twice := Cleaned(once, earliest, latest);
    forall key | key in args
      ensures twice[key] == once[key]
    {
      if args[key].Null? && KindOf(key) == Other {
        assert once[key] == Null;
      }
    }
  }

  /** The three lower-bound names contain `min`. */
  lemma LowerKeys()
    ensures KindOf(DistanceMinKey) == Lower && KindOf(DiameterMinKey) == Lower && KindOf(VelocityMinKey) == Lower
  {
    assert OccursAt("min", DistanceMinKey, 9);
    assert OccursAt("min", DiameterMinKey, 9);
    assert OccursAt("min", VelocityMinKey, 9);
  }

  /** The three upper-bound names contain `max` and not `min`. */
  lemma UpperKeys()
    ensures KindOf(DistanceMaxKey) == Upper && KindOf(DiameterMaxKey) == Upper && KindOf(VelocityMaxKey) == Upper
  {
    assert OccursAt("max", DistanceMaxKey, 9);
    assert OccursAt("max", DiameterMaxKey, 9);
    assert OccursAt("max", VelocityMaxKey, 9);
    NoOccurrence("min", DistanceMaxKey);
    NoOccurrence("min", DiameterMaxKey);
    NoOccurrence("min", VelocityMaxKey);
  }

  /** `start_date` is a start bound and `end_date` an end bound. */
  lemma DateRangeKeys()
    ensures KindOf(StartDateKey) == Start && KindOf(EndDateKey) == End
  {
    assert OccursAt("start", StartDateKey, 0);
    assert OccursAt("end", EndDateKey, 0);
    NoOccurrence("min", StartDateKey);
    NoOccurrence("max", StartDateKey);
    NoOccurrence("min", EndDateKey);
    NoOccurrence("max", EndDateKey);
    NoOccurrence("start", EndDateKey);
  }

  /** `date` and `hazardous` are no bounds: cleaning leaves them `None`. */
  lemma OtherKeys()
    ensures KindOf(DateKey) == Other && KindOf(HazardousKey) == Other
  {
    NoOccurrence("min", DateKey);
    NoOccurrence("max", DateKey);
    NoOccurrence("start", DateKey);
    NoOccurrence("end", DateKey);
    NoOccurrence("min", HazardousKey);
    NoOccurrence("max", HazardousKey);
    NoOccurrence("start", HazardousKey);
    NoOccurrence("end", HazardousKey);
  }

  /** The names of all restrictions. */
  const RestrictionKeys: set<string> :=
    {DistanceMinKey, DistanceMaxKey, DiameterMinKey, DiameterMaxKey, VelocityMinKey, VelocityMaxKey,
     DateKey, StartDateKey, EndDateKey, HazardousKey}

  /** The restrictions of a query with no option given, before cleaning. */
  const NoRestrictions: map<string, Arg> := map key | key in RestrictionKeys :: Null

  /** Cleaning the empty query fills every bound: infinite float bounds and the valid date range. */
  lemma CleanedNoRestrictions(earliest: Date, latest: Date)
    ensures var c := Cleaned(NoRestrictions, earliest, latest);
      && c.Keys == NoRestrictions.Keys
      && c[DistanceMinKey] == Num(NegInf) && c[DistanceMaxKey] == Num(PosInf)
      && c[DiameterMinKey] == Num(NegInf) && c[DiameterMaxKey] == Num(PosInf)
      && c[VelocityMinKey] == Num(NegInf) && c[VelocityMaxKey] == Num(PosInf)
      && c[StartDateKey] == Day(earliest) && c[EndDateKey] == Day(latest)
      && c[DateKey] == Null && c[HazardousKey] == Null
  {
    LowerKeys();
    UpperKeys();
    DateRangeKeys();
    OtherKeys();
  }

  // ---------------------------------------------------------------------------
  // is_valid_close_approach

  /** `restrictions[key]`, raising `KeyError` for a missing key. */
  function Lookup(restrictions: map<string, Arg>, key: string): (r: Result<Arg, Error>)
    ensures r.Ok? <==> key in restrictions
    ensures r.Ok? ==> r.value == restrictions[key]
    ensures r.Err? ==> r.error == KeyError(key)
  {
    if key in restrictions then Ok(restrictions[key]) else Err(KeyError(key))
  }

  /** The values `float()` accepts: floats and booleans. */
  predicate Floatable(arg: Arg) {
    arg.Num? || arg.Flag?
  }

  /** `float(arg)`: a float is kept, a boolean is 1.0 or 0.0, anything else raises `TypeError`. */
  function ToFloat(arg: Arg): (r: Result<Float, Error>)
    ensures r.Ok? <==> Floatable(arg)
    ensures r.Err? ==> r.error == TypeError
    ensures arg.Num? ==> r == Ok(arg.x)
    ensures arg.Flag? ==> r == Ok(Fin(if arg.b then 1.0 else 0.0))
  {
    match arg
    case Num(x) => Ok(x)
    case Flag(b) => Ok(Fin(if b then 1.0 else 0.0))
    case _ => Err(TypeError)
  }

  /**
   * One range test of the admission check: `bt_floats(x, float(r[lo]))` and
   * then, only when that holds, `lt_floats(x, float(r[hi]))`.
   */
  function InBounds(x: Float, restrictions: map<string, Arg>, loKey: string, hiKey: string): (r: Result<bool, Error>)
    ensures r == Ok(true) ==> loKey in restrictions && hiKey in restrictions
    ensures r == Ok(true) ==> x.Fin?
  {
    var loArg :- Lookup(restrictions, loKey);
    var lo :- ToFloat(loArg);
    if !BtFloats(x, lo, DefaultTol) then Ok(false)
    else
      var hiArg :- Lookup(restrictions, hiKey);
      var hi :- ToFloat(hiArg);
      Ok(LtFloats(x, hi, DefaultTol))
  }

  /** `hazardous != arg` in Python: a boolean compares as 1 or 0, a date is always different. */
  function HazardDiffers(hazardous: bool, arg: Arg): bool {
    match arg
    case Flag(b) => b != hazardous
    case Num(x) => x != Fin(if hazardous then 1.0 else 0.0)
    case Day(_) => true
    case Null => false
  }

  /**
   * `is_valid_close_approach(approach, restrictions)`: the tests in the
   * source's order, each stopping at the first failure, with the exceptions
   * that missing keys, values of the wrong type and an unlinked approach raise.
   */
  function IsValidCloseApproach(approach: CloseApproach, restrictions: map<string, Arg>): (r: Result<bool, Error>)
    reads approach
    ensures r == Ok(true) ==> approach.neo != null && approach.neo.diameter.Fin?
    ensures r == Ok(true) ==>
              && StartDateKey in restrictions && restrictions[StartDateKey].Day?
              && EndDateKey in restrictions && restrictions[EndDateKey].Day?
              && DateLess(restrictions[StartDateKey].d, approach.time.date)
              && DateLess(approach.time.date, restrictions[EndDateKey].d)
    ensures r == Ok(true) ==>
              DateKey in restrictions && restrictions[DateKey] in {Null, Day(approach.time.date)}
    ensures r == Err(AttributeError) ==> approach.neo == null
  {
    var distanceOk :- InBounds(Fin(approach.distance), restrictions, DistanceMinKey, DistanceMaxKey);
    if !distanceOk then Ok(false)
    else if approach.neo == null then Err(AttributeError)
    else
      var neo := approach.neo;
      var diameterOk :- InBounds(neo.diameter, restrictions, DiameterMinKey, DiameterMaxKey);
      if !diameterOk then Ok(false)
      else
        var velocityOk :- InBounds(Fin(approach.velocity), restrictions, VelocityMinKey, VelocityMaxKey);
        if !velocityOk then Ok(false)
        else
          var date := approach.time.date;
          var day :- Lookup(restrictions, DateKey);
          if !day.Null? && day != Day(date) then Ok(false)
          else
            var start :- Lookup(restrictions, StartDateKey);
            if !start.Day? then Err(TypeError)
            else if !DateLess(start.d, date) then Ok(false)
            else
              var end :- Lookup(restrictions, EndDateKey);
              if !end.Day? then Err(TypeError)
              else if !DateLess(date, end.d) then Ok(false)
              else
                var hazardous :- Lookup(restrictions, HazardousKey);
                Ok(hazardous.Null? || !HazardDiffers(neo.hazardous, hazardous))
  }

  /**
   * The clean form the admission check expects: every restriction present,
   * the numeric bounds convertible by `float()`, and both date bounds dates.
   */
  predicate CleanForm(restrictions: map<string, Arg>) {
    && DistanceMinKey in restrictions && Floatable(restrictions[DistanceMinKey])
    && DistanceMaxKey in restrictions && Floatable(restrictions[DistanceMaxKey])
    && DiameterMinKey in restrictions && Floatable(restrictions[DiameterMinKey])
    && DiameterMaxKey in restrictions && Floatable(restrictions[DiameterMaxKey])
    && VelocityMinKey in restrictions && Floatable(restrictions[VelocityMinKey])
    && VelocityMaxKey in restrictions && Floatable(restrictions[VelocityMaxKey])
    && DateKey in restrictions
    && StartDateKey in restrictions && restrictions[StartDateKey].Day?
    && EndDateKey in restrictions && restrictions[EndDateKey].Day?
    && HazardousKey in restrictions
  }

  /** Strictly between two bounds, by more than the default tolerance on each side. */
  predicate Between(x: Float, lo: Float, hi: Float) {
    BtFloats(x, lo, DefaultTol) && LtFloats(x, hi, DefaultTol)
  }

  /**
   * The admission rule as one conjunction: distance, diameter and velocity
   * strictly inside their bounds, the date equal to the requested one if any,
   * the date strictly after the start and before the end, and the hazard flag
   * equal to the requested one if any.
   */
  predicate Admits(approach: CloseApproach, restrictions: map<string, Arg>)
    reads approach
    requires CleanForm(restrictions) && approach.neo != null
  {
    var r := restrictions;
    var date := approach.time.date;
    && Between(Fin(approach.distance), ToFloat(r[DistanceMinKey]).value, ToFloat(r[DistanceMaxKey]).value)
    && Between(approach.neo.diameter, ToFloat(r[DiameterMinKey]).value, ToFloat(r[DiameterMaxKey]).value)
    && Between(Fin(approach.velocity), ToFloat(r[VelocityMinKey]).value, ToFloat(r[VelocityMaxKey]).value)
    && (r[DateKey].Null? || r[DateKey] == Day(date))
    && DateLess(r[StartDateKey].d, date) && DateLess(date, r[EndDateKey].d)
    && (r[HazardousKey].Null? || !HazardDiffers(approach.neo.hazardous, r[HazardousKey]))
  }

  /**
   * A well-typed query, as the command line delivers it: every restriction
   * present, each numeric bound `None`, a float or a boolean, and each date
   * bound `None` or a date.
   */
  predicate WellTyped(args: map<string, Arg>) {
    && RestrictionKeys <= args.Keys
    && !args[DistanceMinKey].Day? && !args[DistanceMaxKey].Day?
    && !args[DiameterMinKey].Day? && !args[DiameterMaxKey].Day?
    && !args[VelocityMinKey].Day? && !args[VelocityMaxKey].Day?
    && (args[StartDateKey].Null? || args[StartDateKey].Day?)
    && (args[EndDateKey].Null? || args[EndDateKey].Day?)
  }

  /** Cleaning a well-typed query gives the clean form the admission check expects. */
  lemma CleanedIsCleanForm(args: map<string, Arg>, earliest: Date, latest: Date)
    requires WellTyped(args)
    ensures CleanForm(Cleaned(args, earliest, latest))
  {
    LowerKeys();
    UpperKeys();
    DateRangeKeys();
  }

  /** With both bounds present and convertible, a range test raises nothing and decides `Between`. */
  lemma InBoundsDecides(x: Float, restrictions: map<string, Arg>, loKey: string, hiKey: string)
    requires loKey in restrictions && Floatable(restrictions[loKey])
    requires hiKey in restrictions && Floatable(restrictions[hiKey])
    ensures InBounds(x, restrictions, loKey, hiKey) ==
            Ok(Between(x, ToFloat(restrictions[loKey]).value, ToFloat(restrictions[hiKey]).value))
  {
  }

  /** On restrictions in clean form and a linked approach, the check raises nothing and decides `Admits`. */
  lemma IsValidIffAdmits(approach: CloseApproach, restrictions: map<string, Arg>)
    requires CleanForm(restrictions) && approach.neo != null
    ensures IsValidCloseApproach(approach, restrictions) == Ok(Admits(approach, restrictions))
  {
    InBoundsDecides(Fin(approach.distance), restrictions, DistanceMinKey, DistanceMaxKey);
    InBoundsDecides(approach.neo.diameter, restrictions, DiameterMinKey, DiameterMaxKey);
    InBoundsDecides(Fin(approach.velocity), restrictions, VelocityMinKey, VelocityMaxKey);
  }

  /**
   * On a cleaned well-typed query and a linked approach, the check raises
   * nothing and decides the six-part rule `Admits`.
   */
  lemma CleanedQueryDecides(approach: CloseApproach, args: map<string, Arg>, earliest: Date, latest: Date)
    requires WellTyped(args) && approach.neo != null
    ensures CleanForm(Cleaned(args, earliest, latest))
    ensures IsValidCloseApproach(approach, Cleaned(args, earliest, latest)) ==
            Ok(Admits(approach, Cleaned(args, earliest, latest)))
  {
    CleanedIsCleanForm(args, earliest, latest);
    IsValidIffAdmits(approach, Cleaned(args, earliest, latest));
  }

  /** An unlinked approach is rejected when its distance is out of range and raises otherwise. */
  lemma UnlinkedApproach(approach: CloseApproach, restrictions: map<string, Arg>)
    requires CleanForm(restrictions) && approach.neo == null
    ensures var r := restrictions;
      IsValidCloseApproach(approach, r) ==
        if Between(Fin(approach.distance), ToFloat(r[DistanceMinKey]).value, ToFloat(r[DistanceMaxKey]).value)
        then Err(AttributeError) else Ok(false)
  {
  }

  /** An object of unknown diameter never passes, whatever the restrictions. */
  lemma UnknownDiameterRejected(approach: CloseApproach, restrictions: map<string, Arg>)
    requires approach.neo != null && approach.neo.diameter == NaN
    ensures IsValidCloseApproach(approach, restrictions) != Ok(true)
  {
  }

  /** Both date bounds are exclusive: an approach on the start or the end date is rejected. */
  lemma DateBoundsExclusive(approach: CloseApproach, restrictions: map<string, Arg>)
    requires StartDateKey in restrictions && EndDateKey in restrictions
    requires restrictions[StartDateKey] == Day(approach.time.date) || restrictions[EndDateKey] == Day(approach.time.date)
    ensures IsValidCloseApproach(approach, restrictions) != Ok(true)
  {
    DateLessStrictTotal(approach.time.date, approach.time.date, approach.time.date);
  }

  /**
   * End to end: with no option given, the cleaned restrictions only check
   * the date window and that the diameter is known.
   */
  lemma UnrestrictedQuery(approach: CloseApproach, earliest: Date, latest: Date)
    requires approach.neo != null
    ensures IsValidCloseApproach(approach, Cleaned(NoRestrictions, earliest, latest)) ==
      Ok(approach.neo.diameter.Fin? && DateLess(earliest, approach.time.date) && DateLess(approach.time.date, latest))
  {
    var c := Cleaned(NoRestrictions, earliest, latest);
    CleanedNoRestrictions(earliest, latest);
    IsValidIffAdmits(approach, c);
    InfiniteBounds(approach.distance, DefaultTol);
    InfiniteBounds(approach.velocity, DefaultTol);
    if approach.neo.diameter.Fin? {
      InfiniteBounds(approach.neo.diameter.r, DefaultTol);
    }
  }

  // ---------------------------------------------------------------------------
  // limit

  /** `sys.maxsize` on a 64-bit platform: the largest count `islice` accepts. */
  const MaxSize: int := 0x7fff_ffff_ffff_ffff

  /**
   * `limit(iterator, n)` on the stream as a sequence: `None` or 0 leaves it
   * unlimited, a count outside `0 <= n <= sys.maxsize` raises `ValueError` as
   * `islice` does, and a positive count keeps the first `n` values.
   */
  function Limit<T>(s: seq<T>, n: Option<int>): (r: Result<seq<T>, Error>)
    ensures r.Err? <==> n.Some? && (n.value < 0 || n.value > MaxSize)
    ensures r.Err? ==> r.error == ValueError
    ensures r.Ok? ==> r.value <= s
    ensures r.Ok? && n.Some? && n.value > 0 ==> |r.value| == if n.value < |s| then n.value else |s|
    ensures r.Ok? && (n.None? || n.value == 0) ==> r.value == s
  {
    if n.None? || n.value == 0 then Ok(s)
    else if n.value < 0 || n.value > MaxSize then Err(ValueError)
    else Ok(s[..if n.value < |s| then n.value else |s|])
  }

  /** Limiting again by the same count changes nothing. */
  lemma LimitIdempotent<T>(s: seq<T>, n: Option<int>)
    requires Limit(s, n).Ok?
    ensures Limit(Limit(s, n).value, n) == Limit(s, n)
  {
    var once := Limit(s, n).value;
    if n.Some? && n.value > 0 {
      assert |once| <= n.value;
      assert once[..|once|] == once;
    }
  }

  /**
   * Two positive limits in a row keep as many values as the smaller one; if
   * either count is above `sys.maxsize`, the chain raises `ValueError`.
   */
  lemma LimitCompose<T>(s: seq<T>, m: nat, n: nat)
    requires m > 0 && n > 0
    ensures var twice := match Limit(s, Some(m)) case Ok(first) => Limit(first, Some(n)) case Err(e) => Err(e);
      twice == if m <= MaxSize && n <= MaxSize then Limit(s, Some(if m < n then m else n)) else Err(ValueError)
  {
    if m <= MaxSize && n <= MaxSize {
      var first := Limit(s, Some(m)).value;
      var k := if n < |first| then n else |first|;
      assert first[..k] == s[..k];
    }
  }

}
