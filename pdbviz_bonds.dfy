/**
 * The viewer crate's copy of bond determination (pdbviz/src/bonds.rs). Its loops, lookups and
 * thresholds are those of rust/src/bonds.rs; the only difference is that a confirmed bond is
 * returned as a two-element array `[i, j]` instead of a tuple.
 */
module PdbvizBonds {
  import opened Geometry
  import opened ReferenceTables
  import opened Pairs
  import opened Bonds

  /** The index pairs written as two-element arrays, in the same order. */
  function AsArrays(ps: seq<Pair>): (r: seq<seq<nat>>)
    ensures |r| == |ps|
    ensures forall k :: 0 <= k < |r| ==> |r[k]| == 2 && (r[k][0], r[k][1]) == ps[k]
  {
    seq(|ps|, k requires 0 <= k < |ps| => [ps[k].0, ps[k].1])
  }

  /** Each two-element array read as a pair: the inverse of `AsArrays`, which no source code performs. */
  function AsPairs(rs: seq<seq<nat>>): (ps: seq<Pair>)
    requires forall k :: 0 <= k < |rs| ==> |rs[k]| == 2
    ensures |ps| == |rs|
  {
    seq(|rs|, k requires 0 <= k < |rs| => (rs[k][0], rs[k][1]))
  }

  /** Returning arrays instead of tuples loses nothing: reading them back gives the original pairs. */
  lemma ArraysRoundTrip(ps: seq<Pair>)
    ensures AsPairs(AsArrays(ps)) == ps
  {
  }

  /** With derived averages, a pair is missing exactly when neither key has a range entry. */
  lemma MissingMeansNoRange(coords: seq<Vec3>, atomTypes: seq<string>, ranges: RangeTable)
    requires TypesCover(coords, atomTypes)
    ensures forall p: Pair :: p.0 < p.1 < |coords| ==>
      (ClassOf(coords, atomTypes, ReferenceTables(ranges, Averages(ranges)), p) == Missing <==>
       Lookup(ranges, atomTypes[p.0], atomTypes[p.1]).None?)
  {
    forall p: Pair | p.0 < p.1 < |coords| {
      LookupAgrees(Averages(ranges), ranges, atomTypes[p.0], atomTypes[p.1]);
    }
  }

  /** The confirmed pairs as arrays: each `[i, j]` has i < j, is confirmed, and all confirmed pairs are there, in order. */
  lemma ConfirmedArrays(coords: seq<Vec3>, atomTypes: seq<string>, t: ReferenceTables, pairs: seq<Pair>)
    requires TypesCover(coords, atomTypes)
    requires StrictlyOrdered(pairs)
    requires forall p :: p in pairs <==> p.0 < p.1 < |coords| && ClassOf(coords, atomTypes, t, p) == Confirmed
    ensures forall k :: 0 <= k < |AsArrays(pairs)| ==>
      |AsArrays(pairs)[k]| == 2 && AsArrays(pairs)[k][0] < AsArrays(pairs)[k][1] < |coords| &&
      ClassOf(coords, atomTypes, t, (AsArrays(pairs)[k][0], AsArrays(pairs)[k][1])) == Confirmed
    ensures forall i: nat, j: nat ::
      i < j < |coords| && ClassOf(coords, atomTypes, t, (i, j)) == Confirmed ==> [i, j] in AsArrays(pairs)
    ensures forall a, b :: 0 <= a < b < |AsArrays(pairs)| ==>
      AsArrays(pairs)[a][0] < AsArrays(pairs)[b][0] ||
      (AsArrays(pairs)[a][0] == AsArrays(pairs)[b][0] && AsArrays(pairs)[a][1] < AsArrays(pairs)[b][1])
  {
    var bonds := AsArrays(pairs);
    forall k | 0 <= k < |bonds|
      ensures bonds[k][0] < bonds[k][1] < |coords| && ClassOf(coords, atomTypes, t, (bonds[k][0], bonds[k][1])) == Confirmed
    {
      assert pairs[k] in pairs;
    }
    forall i: nat, j: nat | i < j < |coords| && ClassOf(coords, atomTypes, t, (i, j)) == Confirmed
      ensures [i, j] in bonds
    {
      assert (i, j) in pairs;
      var k :| 0 <= k < |pairs| && pairs[k] == (i, j);
      assert bonds[k] == [i, j];
    }
    forall a, b | 0 <= a < b < |bonds|
      ensures bonds[a][0] < bonds[b][0] || (bonds[a][0] == bonds[b][0] && bonds[a][1] < bonds[b][1])
    {
      assert Before(pairs[a], pairs[b]);
    }
  }

  /**
   * `determine_bonds` of the viewer: the averages derived from the ranges, then the same scan
   * as the library's, with the confirmed bonds as `[i, j]` arrays.
   */
  method DetermineBonds(coords: seq<Vec3>, atomTypes: seq<string>, ranges: RangeTable)
    returns (bonds: seq<seq<nat>>, near: seq<Pair>, missing: set<(string, string)>)
    requires TypesCover(coords, atomTypes)
    ensures forall k :: 0 <= k < |bonds| ==>
      |bonds[k]| == 2 && bonds[k][0] < bonds[k][1] < |coords| &&
      ClassOf(coords, atomTypes, ReferenceTables(ranges, Averages(ranges)), (bonds[k][0], bonds[k][1])) == Confirmed
    ensures forall i: nat, j: nat ::
      (i < j < |coords| && ClassOf(coords, atomTypes, ReferenceTables(ranges, Averages(ranges)), (i, j)) == Confirmed)
      ==> [i, j] in bonds
    ensures forall a, b :: 0 <= a < b < |bonds| ==>
      bonds[a][0] < bonds[b][0] || (bonds[a][0] == bonds[b][0] && bonds[a][1] < bonds[b][1])
    ensures near == []
    ensures forall m :: m in missing <==>
      exists p: Pair :: p.0 < p.1 < |coords| &&
        Lookup(ranges, atomTypes[p.0], atomTypes[p.1]).None? && m == (atomTypes[p.0], atomTypes[p.1])
  {
    var averages := DeriveAverages(ranges);
    AveragesUnique(averages, Averages(ranges), ranges);
    var t := ReferenceTables(ranges, averages);
    var pairs;
    pairs, near, missing := Bonds.DetermineBonds(coords, atomTypes, t);
    bonds := AsArrays(pairs);
    ConfirmedArrays(coords, atomTypes, t, pairs);
    MissingMeansNoRange(coords, atomTypes, ranges);
  }
}
