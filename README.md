# NEO catalogue: linking, lookups and filters

This project models the in-memory core of a catalogue of near-Earth objects
(NEOs) and their close approaches to Earth. It covers four parts:

- **Tolerance comparisons** (`helpers.py`). `eq_floats`, `lt_floats` and
  `bt_floats` compare floats approximately through `math.isclose`.
- **Records** (`models.py`). A `NearEarthObject` has a designation, an
  optional name, a diameter (NaN when unknown), a hazard flag and a list of
  approaches that starts empty. A `CloseApproach` has the designation it was
  recorded under, a time, a distance, a velocity and a link to its object that
  starts as `None`. The module also has the `fullname` rule.
- **The database** (`database.py`). Its constructor links every approach to
  the object with the same designation and appends the approach to that
  object's list. It also has linear-scan lookups by designation and by name,
  and a query that returns every stored approach.
- **Filters** (`filters.py`). `clean_args_dict` fills in missing bounds.
  `is_valid_close_approach` is the admission test for one approach. `limit`
  keeps a prefix of a stream.

Files:

| file | module | contents |
|---|---|---|
| `wrappers.dfy` | `Wrappers` | `Option` and `Result` |
| `helpers.dfy` | `Helpers` | floats as extended reals, `math.isclose`, the three comparisons and their laws |
| `models.dfy` | `Models` | dates, the classes `NearEarthObject` and `CloseApproach`, `fullname` |
| `database.dfy` | `Database` | the linking loop, the class `NEODatabase` and its lookups and query |
| `filters.dfy` | `Filters` | restriction names, `clean_args_dict`, `is_valid_close_approach`, `limit` |

Python floats are modelled as `Float = NegInf | Fin(r) | PosInf | NaN`, with
exact arithmetic over `real`. Python exceptions are `Err` results of type
`Filters.Error`: `KeyError`, `TypeError`, `AttributeError` and `ValueError`.
The code is imperative in three places:

- the constructors;
- the database constructor, with its two loops;
- `clean_args_dict`, which overwrites entries of a copy in a loop.

Those are Dafny classes with `var` fields and methods with loops. Each such
method is proved against a specification function: `DesignationMap`,
`Matching` or `Cleaned`.

Points where the code does something other than what a reader might expect,
which the model follows as written:

- **`eq_floats` accepts either criterion.** It passes
  `rel_tol = abs_tol = tol` to `isclose` (helpers.py:39), so a pair is close
  when it meets the relative criterion or the absolute one
  (`Helpers.EitherCriterionSuffices` shows a pair close by the absolute
  criterion only).
- **Unknown designations stay stored.** An approach with an unknown
  designation is skipped by the linking loop (database.py:35-38) but stays in
  `_approaches` with `neo` still `None` (database.py:41;
  `Database.NEODatabase.constructor`).
- **Lookups scan.** Both lookups scan `_neos` one object at a time
  (database.py:56-59, 74-77).
- **`query` ignores its filters.** Its docstring promises the approaches that
  match the filters, but the code yields every stored approach, in the
  iteration order of a Python set (database.py:79-95).
- **`get_neo_by_name(None)` can match.** The docstring says no object is
  associated with `None`. The code's `==` test returns an object without a
  name when asked for `None` (`Database.NEODatabase.GetNeoByName`).
- **The constructor does not require unlinked input.** Its docstring expects
  unlinked input but the code does not check it. The constructor's contract
  is therefore stated for any input, relative to the old lists and links.

## Model

| member | source | states |
|---|---|---|
| Helpers.EqFloats | helpers.py:37-39 | closeness never holds with NaN, and a finite value is close only to finite values |
| Helpers.LtFloats | helpers.py:42-44 | approximately smaller implies IEEE `f1 < f2` and distinct values |
| Helpers.BtFloats | helpers.py:47-49 | approximately larger implies IEEE `f1 > f2` and distinct values |
| Helpers.EqFloatsDistinct | helpers.py:37-39 | for distinct finite values, `eq_floats` holds iff the distance is within `tol*abs(b)`, within `tol*abs(a)` or within `tol` (either criterion suffices) |
| Helpers.BoundIsEitherCriterion | helpers.py:37-39 | the bound `max(tol*max(x, y), tol)` is met exactly when the distance is within `tol*x`, within `tol*y` or within `tol` |
| Helpers.EqFloatsIffWithin | helpers.py:37-39 | for finite values, `eq_floats` holds iff the distance is at most `isclose`'s bound `max(tol*max(abs(a), abs(b)), tol)` |
| Helpers.EqFloatsReflexive | helpers.py:37-39 | every value but NaN is close to itself; NaN is close to nothing |
| Helpers.EqFloatsSymmetric | helpers.py:37-39 | `eq_floats(a, b) == eq_floats(b, a)` |
| Helpers.DefaultTolExample | helpers.py:36-39 | with the default tolerance 0.01, 2.57 and 2.56 count as equal |
| Helpers.EitherCriterionSuffices | helpers.py:37-39 | 0.1 and 0.105 are close under tolerance 0.01 although the relative criterion fails |
| Helpers.LtFloatsFinite | helpers.py:42-44 | for finite values, `lt_floats(a, b)` iff `a < b` and `b - a` exceeds `tol`, `tol*abs(a)` and `tol*abs(b)` |
| Helpers.BtFloatsIsFlippedLt | helpers.py:42-49 | `bt_floats(a, b) == lt_floats(b, a)` for all values |
| Helpers.Trichotomy | helpers.py:37-49 | for finite values exactly one of `lt_floats`, `eq_floats`, `bt_floats` holds |
| Helpers.InfiniteBounds | helpers.py:39-49 | every finite x has `bt_floats(x, -inf)` and `lt_floats(x, +inf)`, and is close to neither infinity |
| Helpers.NaNIncomparable | helpers.py:42-49 | NaN is neither approximately smaller nor approximately larger than anything |
| Helpers.ToleranceBoundaryExamples | helpers.py:42-44 | 1.00 is not approximately below 1.005 under tolerance 0.01, but is below 1.02 |
| Helpers.LtFloatsStrictOrder | helpers.py:42-44 | `lt_floats` is irreflexive and transitive |
| Models.DateLessStrictTotal | filters.py:72-73 | date comparison is a strict total order |
| Models.NearEarthObject.constructor | models.py:33-49 | fields are stored as given, name defaults to `None`, diameter to NaN, and `approaches` starts empty |
| Models.NearEarthObject.Fullname | models.py:52-58 | the full name starts with the designation, and equals it exactly when the name is `None` or empty |
| Models.FullnameRoundTrip | models.py:55-58 | the full name determines the name: `NameOfFullname`, which reads the text between `" ("` after the designation and a final `")"`, recovers a non-empty name and gives `None` otherwise |
| Models.NameOfFullnameSound | models.py:55-58 | conversely, a string that starts with the designation and from which `NameOfFullname` recovers a name is exactly `designation + " (" + name + ")"` |
| Models.CloseApproach.constructor | models.py:94-104 | designation, time, distance and velocity are stored as given, and `neo` starts as `None` |
| Database.DesignationMap | database.py:26-28 | every object's designation is a key, and every entry is an input object stored under its own designation |
| Database.DesignationMapLastWins | database.py:26-28 | on duplicate designations the last object in input order is the one kept |
| Database.Matching | database.py:30-34 | the approaches appended to one object are no more than the input, each is an input approach recorded under the designation, and every such input approach is among them (order and multiplicity: `MatchingAppend`, `MatchingCount`) |
| Database.MatchingAppend | database.py:30-34 | the selection keeps input order: it distributes over concatenation |
| Database.MatchingCount | database.py:30-34 | the selection keeps each approach with the designation as often as the input has it, and nothing else |
| Database.LinkOne | database.py:31-38 | one loop pass links a known approach to its object and appends it to that object's list only; an unknown designation changes nothing |
| Database.LinkApproaches | database.py:30-38 | after the loop, each known approach links to the object for its designation and unknown ones keep their link; each object's list is its old list followed by exactly its matching approaches in input order |
| Database.NEODatabase.constructor | database.py:14-41 | the stored objects are one per distinct designation (last wins), the stored approaches are all inputs including unlinked ones, and links and lists are as for `LinkApproaches` |
| Database.NEODatabase.DesignationsUnique | database.py:26-40 | two stored objects with the same designation are the same object |
| Database.NEODatabase.GetNeoByDesignation | database.py:44-59 | returns a stored object with exactly that designation, or `None` iff no stored object has it; that object is the dictionary's entry |
| Database.NEODatabase.GetNeoByName | database.py:61-77 | returns a stored object whose name equals the argument, or `None` iff there is none; `None` finds an unnamed object |
| Database.NEODatabase.Query | database.py:79-95 | yields every stored approach exactly once, whatever the filters, and changes nothing |
| Filters.Cleaned | filters.py:21-44 | the cleaned dictionary has the same keys, and every non-`None` value is kept |
| Filters.CleanArgsDict | filters.py:21-44 | the loop over a copy produces exactly `Cleaned`; the argument is a value and is not modified |
| Filters.CleanedFillRule | filters.py:27-43 | a `None` entry becomes -inf if its key contains `min`, otherwise +inf if it contains `max`, otherwise the earliest date for `start`, otherwise the latest date for `end`, otherwise stays `None` |
| Filters.CleanedIdempotent | filters.py:28-43 | cleaning a cleaned dictionary changes nothing |
| Filters.LowerKeys | filters.py:9-31 | the three `*_min` restriction names are lower bounds |
| Filters.UpperKeys | filters.py:9-35 | the three `*_max` restriction names are upper bounds (they contain `max` but not `min`) |
| Filters.DateRangeKeys | filters.py:15-43 | `start_date` is filled with the earliest date and `end_date` with the latest |
| Filters.OtherKeys | filters.py:15-44 | `date` and `hazardous` contain none of the four substrings and stay `None` |
| Filters.CleanedNoRestrictions | filters.py:9-44 | cleaning the query with no option set gives infinite float bounds, the valid date window, and `None` for `date` and `hazardous` |
| Filters.Lookup | filters.py:57-76 | `restrictions[key]` succeeds iff the key is present and raises `KeyError(key)` otherwise |
| Filters.ToFloat | filters.py:57-66 | `float()` accepts floats (kept) and booleans (`True` is 1.0, `False` 0.0), and raises `TypeError` for `None` and dates |
| Filters.InBounds | filters.py:57-67 | a passing range test implies both bounds are present and the value is finite |
| Filters.InBoundsDecides | filters.py:57-67 | with both bounds present and convertible, a range test raises nothing and is `bt_floats(x, lo) and lt_floats(x, hi)` |
| Filters.IsValidCloseApproach | filters.py:47-79 | acceptance implies a linked object with known diameter, an approach date strictly between the start and end dates, and a `date` restriction that is `None` or that date; `AttributeError` only for an unlinked approach |
| Filters.CleanedIsCleanForm | filters.py:21-55 | cleaning any query with every restriction present, numeric bounds `None`, float or boolean, and date bounds `None` or a date, gives the clean form the admission check's docstring asks for |
| Filters.IsValidIffAdmits | filters.py:57-79 | on clean restrictions and a linked approach, the test raises nothing and accepts iff all six conditions of `Admits` hold |
| Filters.CleanedQueryDecides | filters.py:21-79 | for every such cleaned query and linked approach, the check raises nothing and accepts iff the six conditions of `Admits` hold |
| Filters.UnlinkedApproach | filters.py:57-63 | an unlinked approach is rejected when its distance is out of range and raises `AttributeError` otherwise |
| Filters.UnknownDiameterRejected | filters.py:61-63 | an object with NaN diameter never passes, whatever the bounds |
| Filters.DateBoundsExclusive | filters.py:72-74 | an approach on the start date or on the end date is rejected |
| Filters.UnrestrictedQuery | filters.py:21-79 | with no option given, a linked approach passes iff its diameter is known and its date is strictly inside the valid window |
| Filters.Limit | filters.py:82-93 | `None` or 0 returns the stream unchanged, a count below 0 or above `sys.maxsize` raises `ValueError` as `islice` does, and any other positive `n` gives the prefix of length `min(n, len)` |
| Filters.LimitIdempotent | filters.py:91-93 | limiting twice by the same count is limiting once |
| Filters.LimitCompose | filters.py:91-93 | two positive limits in a row keep as many values as the smaller one, and raise `ValueError` when either count is above `sys.maxsize` |

## Left out

- File reading and writing (`extract.py`, `write.py`) are not part of this model. Objects and approaches come in as already-built, unlinked records.
- `cd_to_datetime` and `datetime_to_str` (`helpers.py`) are not modelled. An approach time is a `DateTime` value made of a calendar `Date` plus hour and minute. The earliest and latest valid dates are parameters of `clean_args_dict`.
- Date validity (month and day ranges) is not modelled. Dates compare lexicographically as Python's `date` does.
- `__str__`, `__repr__` and `time_str` (`models.py`) are left out: they only format text, and one of them reads the clock.
- The diagnostic `print` when an approach is skipped is left out (console output).
- Floating-point rounding is not modelled. Values are exact reals, plus the two infinities and NaN.
- Helpers.EqFloats: a negative `tol` is excluded by the `Tolerance` type, because `math.isclose` raises `ValueError` for it and no caller passes one.
- Models.CloseApproach.constructor: distance and velocity are finite reals, so a NaN or infinite distance or velocity is not modelled.
- Filters.IsValidCloseApproach: restriction values are limited to `None`, floats, dates and booleans. Other Python values, such as strings, are not modelled.
- Filters.Limit: `islice` with a count that is not an `int` is not modelled. The model takes `None` or an integer.
- Filters.Limit: `sys.maxsize` is taken as on a 64-bit platform (`2^63 - 1`).
- Filters.Limit: generator laziness is not modelled, and `limit` works on the whole stream as a sequence. The same holds for `query`.
- Database.NEODatabase.Query: the order of a Python set is unspecified, so the result's order is left open. Only its contents and distinctness are stated.
- Database.NEODatabase.GetNeoByName: the model does not say which of several objects with the same name is returned, since that depends on set order.
- Database.NEODatabase.constructor: the stored sets are `const` fields. Python could reassign them, but no operation of the catalogue does.
- Aliasing of the caller's lists is not modelled. The constructor receives sequences of object references and mutates the referenced objects in place, as the source does.
