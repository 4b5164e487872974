/**
 * The catalogue of near-Earth objects and close approaches (database.py):
 * linking approaches to objects, lookups and the query stream.
 */
module Database {
  import opened Wrappers
  import opened Models

  /**
   * The designation-to-object dictionary built from the objects in order:
   * a later object with the same designation overwrites an earlier one.
   */
  function DesignationMap(neos: seq<NearEarthObject>): (m: map<string, NearEarthObject>)
    ensures forall n :: n in neos ==> n.designation in m
    ensures forall d :: d in m ==> m[d] in neos && m[d].designation == d
  {
    if neos == [] then map[]
    else
      var last := neos[|neos| - 1];
      DesignationMap(neos[..|neos| - 1])[last.designation := last]
  }

  /** Last one wins: the entry for a designation is its last object in input order. */
  lemma {:induction false} DesignationMapLastWins(neos: seq<NearEarthObject>, i: nat)
    requires i < |neos|
    requires forall j :: i < j < |neos| ==> neos[j].designation != neos[i].designation
    ensures DesignationMap(neos)[neos[i].designation] == neos[i]
  {
    if i < |neos| - 1 {
      DesignationMapLastWins(neos[..|neos| - 1], i);
    }
  }

  /** The approaches recorded under `designation`, in input order. */
  function Matching(approaches: seq<CloseApproach>, designation: string): (r: seq<CloseApproach>)
    ensures |r| <= |approaches|
    ensures forall i :: 0 <= i < |r| ==> r[i] in approaches && r[i].designation == designation
    ensures forall i :: 0 <= i < |approaches| && approaches[i].designation == designation ==> approaches[i] in r
  {
    if approaches == [] then []
    else
      var last := approaches[|approaches| - 1];
      Matching(approaches[..|approaches| - 1], designation) + (if last.designation == designation then [last] else [])
  }

  lemma MatchingSnoc(s: seq<CloseApproach>, x: CloseApproach, designation: string)
    ensures Matching(s + [x], designation) == Matching(s, designation) + if x.designation == designation then [x] else []
  {
    assert (s + [x])[..|s|] == s;
  }

  /** Selection keeps input order: it distributes over concatenation. */
  lemma {:induction false} MatchingAppend(s: seq<CloseApproach>, t: seq<CloseApproach>, designation: string)
    ensures Matching(s + t, designation) == Matching(s, designation) + Matching(t, designation)
  {
    if t != [] {
      var last := t[|t| - 1];
      assert (s + t)[..|s + t| - 1] == s + t[..|t| - 1];
      MatchingAppend(s, t[..|t| - 1], designation);
    } else {
      assert s + t == s;
    }
  }

  /**
   * Selection keeps exactly the matching occurrences: each approach recorded
   * under `designation` as often as in the input, and nothing else.
   */
  lemma {:induction false} MatchingCount(s: seq<CloseApproach>, designation: string, a: CloseApproach)
    ensures multiset(Matching(s, designation))[a] == if a.designation == designation then multiset(s)[a] else 0
  {
    if s != [] {
      var init, last := s[..|s| - 1], s[|s| - 1];
      assert s == init + [last];
      MatchingCount(init, designation, a);
    }
  }

  /**
   * The loop step in pure terms: if an object holds its original approaches
   * followed by the selection from a prefix, appending the next approach when
   * it matches gives the selection from the longer prefix.
   */
  lemma LinkedStep(base: seq<CloseApproach>, linked: seq<CloseApproach>, prefix: seq<CloseApproach>, x: CloseApproach, designation: string)
    requires linked == base + Matching(prefix, designation)
    ensures linked + (if designation == x.designation then [x] else []) == base + Matching(prefix + [x], designation)
  {
    MatchingSnoc(prefix, x, designation);
  }

  /**
   * One pass of the linking loop: an approach whose designation is known is
   * linked to that object and appended to its approaches; otherwise nothing
   * changes.
   */
  method LinkOne(desToNeo: map<string, NearEarthObject>, approach: CloseApproach)
    requires forall d :: d in desToNeo ==> desToNeo[d].designation == d
    modifies desToNeo.Values, approach
    ensures approach.neo == if approach.designation in desToNeo then desToNeo[approach.designation] else old(approach.neo)
    ensures forall d :: d in desToNeo ==>
              desToNeo[d].approaches == old(desToNeo[d].approaches) + if d == approach.designation then [approach] else []
  {
    if approach.designation in desToNeo {
      var neo := desToNeo[approach.designation];
      approach.neo := neo;
      neo.approaches := neo.approaches + [approach];
    }
  }

  /**
   * The linking loop of the catalogue's constructor, applied to every
   * approach in input order: the object stored under designation `d` gains
   * exactly the approaches recorded under `d`.
   */
  method LinkApproaches(desToNeo: map<string, NearEarthObject>, approaches: seq<CloseApproach>)
    requires forall d :: d in desToNeo ==> desToNeo[d].designation == d
    modifies desToNeo.Values, approaches
    ensures forall a :: a in approaches ==>
              a.neo == if a.designation in desToNeo then desToNeo[a.designation] else old(a.neo)
    ensures forall d :: d in desToNeo ==>
              desToNeo[d].approaches == old(desToNeo[d].approaches) + Matching(approaches, d)
  {
    for i := 0 to |approaches|
      invariant forall a :: a in approaches ==>
                  a.neo == if a.designation in desToNeo && a in approaches[..i] then desToNeo[a.designation] else old(a.neo)
      invariant forall d :: d in desToNeo ==>
                  desToNeo[d].approaches == old(desToNeo[d].approaches) + Matching(approaches[..i], d)
    {
      var approach := approaches[i];
      assert approaches[..i + 1] == approaches[..i] + [approach];
      label before:
      LinkOne(desToNeo, approach);
      forall d | d in desToNeo
        ensures desToNeo[d].approaches == old(desToNeo[d].approaches) + Matching(approaches[..i + 1], d)
      {
        LinkedStep(old(desToNeo[d].approaches), old@before(desToNeo[d].approaches), approaches[..i], approach, d);
      }
    }
    assert approaches[..|approaches|] == approaches;
  }

  class NEODatabase {
    /** The stored objects: one per distinct designation. */
    const neos: set<NearEarthObject>
    /** Every approach handed to the constructor, linked or not. */
    const approaches: set<CloseApproach>
    /** The dictionary the constructor built; kept for the specification only. */
    ghost const byDesignation: map<string, NearEarthObject>

    ghost predicate Valid() {
      && neos == byDesignation.Values
      && forall d :: d in byDesignation ==> byDesignation[d].designation == d
    }

    /**
     * Links every approach whose designation is known to the object with that
     * designation (the last such object on duplicates) and appends it to that
     * object's approaches, in input order; unknown designations are skipped.
     */
    constructor (neos: seq<NearEarthObject>, approaches: seq<CloseApproach>)
      modifies neos, approaches
      ensures Valid()
      ensures byDesignation == DesignationMap(neos)
      ensures this.neos == DesignationMap(neos).Values
      ensures this.approaches == set a | a in approaches
      ensures forall a :: a in approaches ==>
                a.neo == if a.designation in byDesignation then byDesignation[a.designation] else old(a.neo)
      ensures forall n :: n in neos ==>
                n.approaches == old(n.approaches) +
                  if byDesignation[n.designation] == n then Matching(approaches, n.designation) else []
    {
      var desToNeo: map<string, NearEarthObject> := map[];
      for i := 0 to |neos|
        invariant desToNeo == DesignationMap(neos[..i])
      {
        assert neos[..i + 1][..i] == neos[..i];
        desToNeo := desToNeo[neos[i].designation := neos[i]];
      }
      assert neos[..|neos|] == neos;
      this.neos := desToNeo.Values;
      this.approaches := set a | a in approaches;
      byDesignation := desToNeo;
      new;
      LinkApproaches(desToNeo, approaches);
    }

    /** The stored objects have pairwise distinct designations. */
    lemma DesignationsUnique(n: NearEarthObject, m: NearEarthObject)
      requires Valid() && n in neos && m in neos
      ensures n.designation == m.designation ==> n == m
    {
    }

    /** Linear scan of the stored objects for an exact designation match. */
    method GetNeoByDesignation(designation: string) returns (neo: NearEarthObject?)
      ensures neo != null ==> neo in neos && neo.designation == designation
      ensures neo == null <==> forall n :: n in neos ==> n.designation != designation
      ensures Valid() ==> neo == if designation in byDesignation then byDesignation[designation] else null
    {
      var rest := neos;
      while rest != {}
        invariant rest <= neos
        invariant forall n :: n in neos - rest ==> n.designation != designation
      {
        var n :| n in rest;
        if n.designation == designation {
          return n;
        }
        rest := rest - {n};
      }
      return null;
    }

    /**
     * Linear scan of the stored objects for a name equal to `name`; a `None`
     * argument finds an unnamed object. Which of several objects sharing a
     * name is returned is not specified.
     */
    method GetNeoByName(name: Option<string>) returns (neo: NearEarthObject?)
      ensures neo != null ==> neo in neos && neo.name == name
      ensures neo == null <==> forall n :: n in neos ==> n.name != name
    {
      var rest := neos;
      while rest != {}
        invariant rest <= neos
        invariant forall n :: n in neos - rest ==> n.name != name
      {
        var n :| n in rest;
        if n.name == name {
          return n;
        }
        rest := rest - {n};
      }
      return null;
    }

    /**
     * Every stored approach, each exactly once, in an unspecified order; the
     * filters are not consulted.
     */
    method Query<F>(filters: F) returns (result: seq<CloseApproach>)
      ensures |result| == |approaches|
      ensures forall a :: a in result <==> a in approaches
      ensures forall i, j :: 0 <= i < j < |result| ==> result[i] != result[j]
    {
      result := [];
      var rest := approaches;
      while rest != {}
        invariant rest <= approaches
        invariant forall a :: a in result <==> a in approaches - rest
        invariant |result| + |rest| == |approaches|
        invariant forall i, j :: 0 <= i < j < |result| ==> result[i] != result[j]
      {
        var a :| a in rest;
        assert a !in result;
        result := result + [a];
        rest := rest - {a};
      }
    }
  }
}
