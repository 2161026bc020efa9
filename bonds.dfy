/**
 * Geometric bond determination (rust/src/bonds.rs, `determine_bonds`): every unordered atom pair
 * i < j is classified against the reference tables as confirmed, near or missing, or dropped.
 */
module Bonds {
  import opened Wrappers
  import opened Geometry
  import opened ReferenceTables
  import opened Pairs

  /** The `threshold` for a near bond. */
  const NEAR_TOLERANCE: real := 0.2

  /**
   * The outcome for one pair. OutOfRange (a range entry exists, the distance is outside it) and
   * NotNear (only an average exists, the distance is more than the tolerance away) are the two
   * ways a pair is dropped.
   */
  datatype PairClass = Confirmed | OutOfRange | Near | NotNear | Missing

  /** The classification of one pair with types `a`, `b` at squared distance `s`. */
  function Classify(t: ReferenceTables, a: string, b: string, s: real): PairClass
  {
    match Lookup(t.ranges, a, b)
    case Some(range) =>
      if RootWithin(s, range.0, range.1) then Confirmed else OutOfRange
    case None =>
      match Lookup(t.averages, a, b)
      case Some(avg) =>
        if RootWithin(s, avg - NEAR_TOLERANCE, avg + NEAR_TOLERANCE) then Near else NotNear
      case None => Missing
  }

  /** Classification read off in terms of the actual distance `d` (with `s == d * d`). */
  lemma ClassifyByDistance(t: ReferenceTables, a: string, b: string, d: real)
    requires 0.0 <= d
    ensures Classify(t, a, b, d * d) == Confirmed <==>
      Lookup(t.ranges, a, b).Some? && Lookup(t.ranges, a, b).value.0 <= d <= Lookup(t.ranges, a, b).value.1
    ensures Classify(t, a, b, d * d) == OutOfRange <==>
      Lookup(t.ranges, a, b).Some? && !(Lookup(t.ranges, a, b).value.0 <= d <= Lookup(t.ranges, a, b).value.1)
    ensures Classify(t, a, b, d * d) == Near <==>
      Lookup(t.ranges, a, b).None? && Lookup(t.averages, a, b).Some? &&
      -NEAR_TOLERANCE <= d - Lookup(t.averages, a, b).value <= NEAR_TOLERANCE
    ensures Classify(t, a, b, d * d) == Missing <==>
      Lookup(t.ranges, a, b).None? && Lookup(t.averages, a, b).None?
  {
    match Lookup(t.ranges, a, b)
    case Some(range) =>
      RootWithinMeaning(d, range.0, range.1);
    case None =>
      match Lookup(t.averages, a, b)
      case Some(avg) =>
        RootWithinMeaning(d, avg - NEAR_TOLERANCE, avg + NEAR_TOLERANCE);
      case None =>
  }

  /** When the averages are derived from the ranges, neither near outcome can occur. */
  lemma NearNeverWithDerivedAverages(t: ReferenceTables, a: string, b: string, s: real)
    requires AveragesOf(t.averages, t.ranges)
    ensures Classify(t, a, b, s) != Near && Classify(t, a, b, s) != NotNear
  {
    LookupAgrees(t.averages, t.ranges, a, b);
  }

  /**
   * Swapping the two atom types does not change the outcome as long as the table does not store
   * both orientations of the pair with different values.
   */
  lemma ClassifySymmetric(t: ReferenceTables, a: string, b: string, s: real)
    requires PairKey(a, b) in t.ranges && PairKey(b, a) in t.ranges ==>
      t.ranges[PairKey(a, b)] == t.ranges[PairKey(b, a)]
    requires PairKey(a, b) in t.averages && PairKey(b, a) in t.averages ==>
      t.averages[PairKey(a, b)] == t.averages[PairKey(b, a)]
    ensures Classify(t, a, b, s) == Classify(t, b, a, s)
  {
  }

  /** When both orientations are stored, the forward key wins, so the outcome can depend on the order. */
  lemma ForwardKeyWins()
    ensures var t := ReferenceTables(map["C-O" := (1.0, 1.5), "O-C" := (2.0, 2.5)], map[]);
      Classify(t, "C", "O", 1.44) == Confirmed && Classify(t, "O", "C", 1.44) == OutOfRange
  {
    var t := ReferenceTables(map["C-O" := (1.0, 1.5), "O-C" := (2.0, 2.5)], map[]);
    assert PairKey("C", "O") == "C-O";
    assert PairKey("O", "C") == "O-C";
  }

  /** Whether the types cover every index a pair can use (`atom_types[j]` for j < N). */
  predicate TypesCover(coords: seq<Vec3>, atomTypes: seq<string>)
  {
    |coords| < 2 || |coords| <= |atomTypes|
  }

  /** The classification of atom pair p. */
  function ClassOf(coords: seq<Vec3>, atomTypes: seq<string>, t: ReferenceTables, p: Pair): PairClass
    requires p.0 < p.1 < |coords| && p.1 < |atomTypes|
  {
    Classify(t, atomTypes[p.0], atomTypes[p.1], SquaredDistance(coords[p.0], coords[p.1]))
  }

  /** The test "p is a pair of this structure with outcome c". */
  function HasClass(coords: seq<Vec3>, atomTypes: seq<string>, t: ReferenceTables, c: PairClass): Pair -> bool
  {
    (p: Pair) => p.0 < p.1 < |coords| && p.1 < |atomTypes| && ClassOf(coords, atomTypes, t, p) == c
  }

  /** The three outputs of a scan: `bonds_vec`, `near_bonds` and `missing`. */
  datatype Outputs = Outputs(confirmed: seq<Pair>, near: seq<Pair>, missing: set<(string, string)>)

  /** What the scan has produced after visiting the pairs ps. */
  function ScanOf(coords: seq<Vec3>, atomTypes: seq<string>, t: ReferenceTables, ps: seq<Pair>): Outputs
  {
    Outputs(Filter(ps, HasClass(coords, atomTypes, t, Confirmed)),
            Filter(ps, HasClass(coords, atomTypes, t, Near)),
            TypePairs(atomTypes, ps, HasClass(coords, atomTypes, t, Missing)))
  }

  /** The effect of visiting pair p on the outputs o. */
  function Record(coords: seq<Vec3>, atomTypes: seq<string>, t: ReferenceTables, o: Outputs, p: Pair): Outputs
    requires p.0 < p.1 < |coords| && p.1 < |atomTypes|
  {
    match ClassOf(coords, atomTypes, t, p)
    case Confirmed => o.(confirmed := o.confirmed + [p])
    case Near => o.(near := o.near + [p])
    case Missing => o.(missing := o.missing + {(atomTypes[p.0], atomTypes[p.1])})
    case _ => o
  }

  /** The inner loop's step from (i, j) to (i, j + 1). */
  lemma ScanAdvance(coords: seq<Vec3>, atomTypes: seq<string>, t: ReferenceTables, done: seq<Pair>, i: nat, j: nat)
    requires i < j < |coords| && j < |atomTypes|
    ensures ScanOf(coords, atomTypes, t, done + Row(i, i + 1, j + 1)) ==
      Record(coords, atomTypes, t, ScanOf(coords, atomTypes, t, done + Row(i, i + 1, j)), (i, j))
  {
    FilterAdvance(done, i, j, HasClass(coords, atomTypes, t, Confirmed));
    FilterAdvance(done, i, j, HasClass(coords, atomTypes, t, Near));
    TypePairsAdvance(atomTypes, done, i, j, HasClass(coords, atomTypes, t, Missing));
  }

  /**
   * The body of the inner loop for pair (i, j): look the pair up, compare its distance, and add
   * it to at most one of the three outputs.
   */
  method VisitPair(coords: seq<Vec3>, atomTypes: seq<string>, t: ReferenceTables, i: nat, j: nat, o: Outputs)
    returns (o': Outputs)
    requires i < j < |coords| && j < |atomTypes|
    ensures o' == Record(coords, atomTypes, t, o, (i, j))
  {
    o' := o;
    // The distance is compared through its square: `RootWithin(s, lo, hi)` is `lo <= sqrt(s) <= hi`.
    var s := SquaredDistance(coords[i], coords[j]);
    var range := Lookup(t.ranges, atomTypes[i], atomTypes[j]);
    if range.Some? {
      if RootWithin(s, range.value.0, range.value.1) {
        o' := o'.(confirmed := o'.confirmed + [(i, j)]);
      }
    } else {
      var typical := Lookup(t.averages, atomTypes[i], atomTypes[j]);
      if typical.Some? {
        if RootWithin(s, typical.value - NEAR_TOLERANCE, typical.value + NEAR_TOLERANCE) {
          o' := o'.(near := o'.near + [(i, j)]);
        }
      } else {
        o' := o'.(missing := o'.missing + {(atomTypes[i], atomTypes[j])});
      }
    }
  }

  /** The outputs o after visiting the pairs (i, i + 1) .. (i, j - 1) in order. */
  ghost function RowVisit(coords: seq<Vec3>, atomTypes: seq<string>, t: ReferenceTables, o: Outputs, i: nat, j: nat): Outputs
    requires TypesCover(coords, atomTypes) && i < j <= |coords|
    decreases j
  {
    if j == i + 1 then o
    else Record(coords, atomTypes, t, RowVisit(coords, atomTypes, t, o, i, j - 1), (i, j - 1))
  }

  /** Visiting row i after the pairs done gives what the scan produces from done and then row i. */
  lemma {:induction false} RowVisitMeaning(coords: seq<Vec3>, atomTypes: seq<string>, t: ReferenceTables, done: seq<Pair>, i: nat, j: nat)
    requires TypesCover(coords, atomTypes) && i < j <= |coords|
    ensures RowVisit(coords, atomTypes, t, ScanOf(coords, atomTypes, t, done), i, j) ==
      ScanOf(coords, atomTypes, t, done + Row(i, i + 1, j))
    decreases j
  {
    if j == i + 1 {
      assert done + Row(i, i + 1, j) == done;
    } else {
      RowVisitMeaning(coords, atomTypes, t, done, i, j - 1);
      ScanAdvance(coords, atomTypes, t, done, i, j - 1);
    }
  }

  /** The scan after row i, from the scan before it. */
  lemma RowDone(coords: seq<Vec3>, atomTypes: seq<string>, t: ReferenceTables, i: nat)
    requires TypesCover(coords, atomTypes) && i < |coords|
    ensures RowVisit(coords, atomTypes, t, ScanOf(coords, atomTypes, t, PairsBefore(i, |coords|)), i, |coords|) ==
      ScanOf(coords, atomTypes, t, PairsBefore(i + 1, |coords|))
  {
    RowVisitMeaning(coords, atomTypes, t, PairsBefore(i, |coords|), i, |coords|);
    RowEnd(i, |coords|);
  }

  /**
   * The inner loop `for j in i + 1..n` for row i: visits (i, i + 1), ..., (i, n - 1) in order,
   * extending the outputs o0 accumulated over the rows before i.
   */
  method ScanRow(coords: seq<Vec3>, atomTypes: seq<string>, t: ReferenceTables, i: nat, o0: Outputs)
    returns (o: Outputs)
    requires TypesCover(coords, atomTypes) && i < |coords|
    ensures o == RowVisit(coords, atomTypes, t, o0, i, |coords|)
  {
    var n := |coords|;
    o := o0;
    var j: nat := i + 1;
    while j < n
      invariant i + 1 <= j <= n
      invariant o == RowVisit(coords, atomTypes, t, o0, i, j)
    {
      o := VisitPair(coords, atomTypes, t, i, j, o);
      j := j + 1;
    }
  }

  /**
   * `determine_bonds`: the nested loops over i < j. Returns the confirmed pairs, the near pairs
   * and the set of ordered type pairs that have no reference entry at all.
   */
  method DetermineBonds(coords: seq<Vec3>, atomTypes: seq<string>, t: ReferenceTables)
    returns (confirmed: seq<Pair>, near: seq<Pair>, missing: set<(string, string)>)
    requires TypesCover(coords, atomTypes)
    ensures confirmed == Filter(AllPairs(|coords|), HasClass(coords, atomTypes, t, Confirmed))
    ensures near == Filter(AllPairs(|coords|), HasClass(coords, atomTypes, t, Near))
    ensures missing == TypePairs(atomTypes, AllPairs(|coords|), HasClass(coords, atomTypes, t, Missing))
    ensures StrictlyOrdered(confirmed) && StrictlyOrdered(near)
    ensures forall p :: p in confirmed <==> p.0 < p.1 < |coords| && ClassOf(coords, atomTypes, t, p) == Confirmed
    ensures forall p :: p in near <==> p.0 < p.1 < |coords| && ClassOf(coords, atomTypes, t, p) == Near
    ensures forall m :: m in missing <==>
      exists p: Pair :: p.0 < p.1 < |coords| &&
        ClassOf(coords, atomTypes, t, p) == Missing && m == (atomTypes[p.0], atomTypes[p.1])
    ensures AveragesOf(t.averages, t.ranges) ==> near == []
  {
    var n := |coords|;
    var o := Outputs([], [], {});
    var i: nat := 0;
    while i < n
      invariant 0 <= i <= n
      invariant o == ScanOf(coords, atomTypes, t, PairsBefore(i, n))
    {
      RowDone(coords, atomTypes, t, i);
      o := ScanRow(coords, atomTypes, t, i, o);
      i := i + 1;
    }
    confirmed, near, missing := o.confirmed, o.near, o.missing;
    OutcomeListShape(coords, atomTypes, t, Confirmed);
    OutcomeListShape(coords, atomTypes, t, Near);
    MissingShape(coords, atomTypes, t);
    if AveragesOf(t.averages, t.ranges) {
      NoNearWithDerivedAverages(coords, atomTypes, t);
    }
  }

  // ---- What the three outputs contain ----

  /** The pairs with outcome c: exactly the pairs i < j < N with that outcome, in loop order. */
  lemma OutcomeListShape(coords: seq<Vec3>, atomTypes: seq<string>, t: ReferenceTables, c: PairClass)
    requires TypesCover(coords, atomTypes)
    ensures StrictlyOrdered(Filter(AllPairs(|coords|), HasClass(coords, atomTypes, t, c)))
    ensures forall p :: p in Filter(AllPairs(|coords|), HasClass(coords, atomTypes, t, c)) <==>
      p.0 < p.1 < |coords| && ClassOf(coords, atomTypes, t, p) == c
  {
    AllPairsShape(|coords|);
    FilterMembership(AllPairs(|coords|), HasClass(coords, atomTypes, t, c));
    FilterOrdered(AllPairs(|coords|), HasClass(coords, atomTypes, t, c));
  }

  /** The missing set: exactly the type pairs of the pairs that have no reference entry. */
  lemma MissingShape(coords: seq<Vec3>, atomTypes: seq<string>, t: ReferenceTables)
    requires TypesCover(coords, atomTypes)
    ensures forall m :: m in TypePairs(atomTypes, AllPairs(|coords|), HasClass(coords, atomTypes, t, Missing)) <==>
      exists p: Pair :: p.0 < p.1 < |coords| &&
        ClassOf(coords, atomTypes, t, p) == Missing && m == (atomTypes[p.0], atomTypes[p.1])
  {
    AllPairsShape(|coords|);
    forall m: (string, string) {
      TypePairsMembership(atomTypes, AllPairs(|coords|), HasClass(coords, atomTypes, t, Missing), m);
    }
  }

  /** With the averages derived from the ranges (as the loaded tables are), no pair is near. */
  lemma NoNearWithDerivedAverages(coords: seq<Vec3>, atomTypes: seq<string>, t: ReferenceTables)
    requires TypesCover(coords, atomTypes)
    requires AveragesOf(t.averages, t.ranges)
    ensures Filter(AllPairs(|coords|), HasClass(coords, atomTypes, t, Near)) == []
  {
    var near := Filter(AllPairs(|coords|), HasClass(coords, atomTypes, t, Near));
    if near != [] {
      OutcomeListShape(coords, atomTypes, t, Near);
      var p := near[0];
      assert p in near;
      NearNeverWithDerivedAverages(t, atomTypes[p.0], atomTypes[p.1], SquaredDistance(coords[p.0], coords[p.1]));
      assert false;
    }
  }
}
