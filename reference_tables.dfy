/**
 * The bond-distance reference tables (rust/src/utilities/bonds.rs): the range table, keyed by
 * "A-B" element-pair strings and loaded from configuration, and the average table derived from
 * it once. Both are plain values here, so nothing can change them after they are built.
 */
module ReferenceTables {
  import opened Wrappers

  /** Element-pair key -> (minimum, maximum) bond length. */
  type RangeTable = map<string, (real, real)>

  /** Element-pair key -> typical bond length. */
  type AverageTable = map<string, real>

  datatype ReferenceTables = ReferenceTables(ranges: RangeTable, averages: AverageTable)

  /** The lookup key `format!("{}-{}", a, b)`. */
  function PairKey(a: string, b: string): string
  {
    a + "-" + b
  }

  /** A table lookup that tries "a-b" first and falls back to "b-a". */
  function Lookup<V>(table: map<string, V>, a: string, b: string): Option<V>
  {
    if PairKey(a, b) in table then Some(table[PairKey(a, b)])
    else if PairKey(b, a) in table then Some(table[PairKey(b, a)])
    else None
  }

  /** The average `(min + max) / 2` of one range entry. */
  function Midpoint(lo: real, hi: real): (m: real)
    ensures lo <= hi ==> lo <= m <= hi
    ensures m - lo == hi - m
  {
    (lo + hi) / 2.0
  }

  /** `averages` has exactly the keys of `ranges`, each mapped to the midpoint of its range. */
  ghost predicate AveragesOf(averages: AverageTable, ranges: RangeTable)
  {
    && averages.Keys == ranges.Keys
    && forall k :: k in averages ==> averages[k] == Midpoint(ranges[k].0, ranges[k].1)
  }

  /** The derived table as a single comprehension. */
  function Averages(ranges: RangeTable): (averages: AverageTable)
    ensures AveragesOf(averages, ranges)
  {
    map k | k in ranges :: Midpoint(ranges[k].0, ranges[k].1)
  }

  /** The `AVG_BOND_DISTANCES` initialiser: one insertion per range entry, in map order. */
  method DeriveAverages(ranges: RangeTable) returns (averages: AverageTable)
    ensures AveragesOf(averages, ranges)
  {
    averages := map[];
    var pending := ranges.Keys;
    while pending != {}
      invariant pending <= ranges.Keys
      invariant averages.Keys == ranges.Keys - pending
      invariant forall k :: k in averages ==> averages[k] == Midpoint(ranges[k].0, ranges[k].1)
      decreases |pending|
    {
      var k :| k in pending;
      averages := averages[k := Midpoint(ranges[k].0, ranges[k].1)];
      pending := pending - {k};
    }
  }

  /** The derived table is determined by the range table: the insertion order does not matter. */
  lemma AveragesUnique(a1: AverageTable, a2: AverageTable, ranges: RangeTable)
    requires AveragesOf(a1, ranges) && AveragesOf(a2, ranges)
    ensures a1 == a2
  {
    assert forall k :: k in a1 ==> a1[k] == a2[k];
  }

  /** A derived average lies inside its (well-ordered) range. */
  lemma AverageInsideRange(averages: AverageTable, ranges: RangeTable, k: string)
    requires AveragesOf(averages, ranges) && k in ranges && ranges[k].0 <= ranges[k].1
    ensures k in averages && ranges[k].0 <= averages[k] <= ranges[k].1
  {
  }

  /** With a derived average table, an average is found exactly when a range is found. */
  lemma LookupAgrees(averages: AverageTable, ranges: RangeTable, a: string, b: string)
    requires AveragesOf(averages, ranges)
    ensures Lookup(averages, a, b).Some? <==> Lookup(ranges, a, b).Some?
    ensures Lookup(ranges, a, b).Some? ==>
      Lookup(averages, a, b).value == Midpoint(Lookup(ranges, a, b).value.0, Lookup(ranges, a, b).value.1)
  {
  }

  const BOND_DISTANCES_FILE: string := "/bond_distances.yml"

  /** `get_bond_distances_path`: the data directory followed by the bond file's name. */
  function BondDistancesPath(dataPath: string): (path: string)
    ensures |path| == |dataPath| + |BOND_DISTANCES_FILE|
    ensures path[..|dataPath|] == dataPath && path[|dataPath|..] == BOND_DISTANCES_FILE
  {
    dataPath + BOND_DISTANCES_FILE
  }

  /** The data directory a bond-file path was built from, if it was built by `BondDistancesPath`. */
  function DataPathOf(path: string): (r: Option<string>)
    ensures r.Some? ==> BondDistancesPath(r.value) == path
  {
    if |path| >= |BOND_DISTANCES_FILE| && path[|path| - |BOND_DISTANCES_FILE|..] == BOND_DISTANCES_FILE
    then Some(path[..|path| - |BOND_DISTANCES_FILE|])
    else None
  }

  /** The path names the data directory it came from. */
  lemma BondDistancesPathRoundTrip(dataPath: string)
    ensures DataPathOf(BondDistancesPath(dataPath)) == Some(dataPath)
  {
    var p := BondDistancesPath(dataPath);
    assert p[|p| - |BOND_DISTANCES_FILE|..] == BOND_DISTANCES_FILE;
    assert p[..|p| - |BOND_DISTANCES_FILE|] == dataPath;
  }
}
