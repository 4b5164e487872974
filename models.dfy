/**
 * Near-Earth objects and their close approaches (models.py).
 *
 * Fields that no operation of the catalogue reassigns are `const`; the two
 * fields the catalogue's constructor fills in (`approaches` of an object and
 * `neo` of an approach) are `var`.
 */
module Models {
  import opened Wrappers
  import opened Helpers

  /** A calendar date, ordered year first. */
  datatype Date = Date(year: int, month: int, day: int)

  /** An approach time: a calendar date and a time of day. */
  datatype DateTime = DateTime(date: Date, hour: int, minute: int)

  /** Python's `date < date`: lexicographic on (year, month, day). */
  predicate DateLess(a: Date, b: Date) {
    a.year < b.year
    || (a.year == b.year && a.month < b.month)
    || (a.year == b.year && a.month == b.month && a.day < b.day)
  }

  /** Dates are totally and strictly ordered. */
  lemma DateLessStrictTotal(a: Date, b: Date, c: Date)
    ensures !DateLess(a, a)
    ensures DateLess(a, b) ==> !DateLess(b, a)
    ensures DateLess(a, b) && DateLess(b, c) ==> DateLess(a, c)
    ensures a == b || DateLess(a, b) || DateLess(b, a)
  {
  }

  /** Python truthiness of an optional name: neither `None` nor the empty string. */
  predicate HasName(name: Option<string>) {
    name.Some? && name.value != ""
  }

  class NearEarthObject {
    const designation: string
    const name: Option<string>
    /** `NaN` when the diameter is unknown. */
    const diameter: Float
    const hazardous: bool
    var approaches: seq<CloseApproach>

    /** A new object has no approaches; name and diameter default to unknown. */
    constructor (designation: string, hazardous: bool, name: Option<string> := None, diameter: Float := NaN)
      ensures this.designation == designation && this.hazardous == hazardous
      ensures this.name == name && this.diameter == diameter
      ensures approaches == []
    {
      this.designation := designation;
      this.name := name;
      this.diameter := diameter;
      this.hazardous := hazardous;
      approaches := [];
    }

    /** The designation, followed by the name in parentheses when there is one. */
    function Fullname(): (r: string)
      ensures |designation| <= |r| && r[..|designation|] == designation
      ensures r == designation <==> !HasName(name)
    {
      if HasName(name) then designation + " (" + name.value + ")" else designation
    }
  }

  /**
   * Recovers the name from a full name, given the designation: the text
   * between `" ("` right after the designation and a closing `")"` at the
   * end; `None` when the full name has no such part.
   */
  function NameOfFullname(designation: string, fullname: string): (name: Option<string>)
    requires |designation| <= |fullname|
    ensures name.Some? ==> |designation| + 3 <= |fullname|
  {
    var k := |designation|;
    if |fullname| < k + 3 || fullname[k..k + 2] != " (" || fullname[|fullname| - 1] != ')' then None
    else Some(fullname[k + 2 .. |fullname| - 1])
  }

  /** The full name determines the name: `NameOfFullname` undoes `Fullname`. */
  lemma FullnameRoundTrip(neo: NearEarthObject)
    ensures |neo.designation| <= |neo.Fullname()|
    ensures NameOfFullname(neo.designation, neo.Fullname()) == if HasName(neo.name) then neo.name else None
  {
    var full := neo.Fullname();
    if HasName(neo.name) {
      var d, n := neo.designation, neo.name.value;
      assert full == d + " (" + n + ")";
      assert full[|d|..|d| + 2] == " (";
      assert full[|d| + 2 .. |full| - 1] == n;
    }
  }

  /**
   * Conversely, a string that starts with the designation and from which
   * `NameOfFullname` recovers a name is exactly the full name built from it.
   */
  lemma NameOfFullnameSound(designation: string, fullname: string, name: string)
    requires |designation| <= |fullname| && fullname[..|designation|] == designation
    requires NameOfFullname(designation, fullname) == Some(name)
    ensures fullname == designation + " (" + name + ")"
  {
    var k := |designation|;
    assert fullname == fullname[..k] + fullname[k..k + 2] + fullname[k + 2 .. |fullname| - 1] + [fullname[|fullname| - 1]];
  }

  class CloseApproach {
    /** The designation as recorded, kept after linking. */
    const designation: string
    const time: DateTime
    const distance: real
    const velocity: real
    var neo: NearEarthObject?

    /** A new approach is not linked to any object. */
    constructor (designation: string, time: DateTime, distance: real, velocity: real)
      ensures this.designation == designation && this.time == time
      ensures this.distance == distance && this.velocity == velocity
      ensures neo == null
    {
      this.designation := designation;
      this.time := time;
      this.distance := distance;
      this.velocity := velocity;
      neo := null;
    }
  }
}
