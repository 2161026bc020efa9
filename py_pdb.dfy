/**
 * The Python reader and classifier (amphiquantic/file/pdb/__main__.py): `parse_pdb`, which keeps
 * the coordinates and element of every atom record, and the older `determine_bonds`, which
 * uses a range table keyed by type tuples, has no near category and returns only the bonds.
 */
module PyPdb {
  import opened Wrappers
  import opened Geometry
  import opened Text
  import opened PdbRecords
  import opened ReferenceTables
  import opened Pairs

  /** Python's `float(text)`: the value, or None where it raises ValueError. */
  type PyFloat = string -> Option<real>

  /** The only exception `parse_pdb` raises on a line: `float` rejecting a column. */
  datatype PyError = ValueError

  /** `line[lo:hi]` for 0 <= lo <= hi: Python clamps both bounds to the length. */
  function PySlice(line: string, lo: nat, hi: nat): (r: string)
    requires lo <= hi
    ensures |r| == (if hi <= |line| then hi else |line|) - (if lo <= |line| then lo else |line|)
    ensures hi <= |line| ==> r == line[lo..hi]
  {
    var a := if lo <= |line| then lo else |line|;
    var b := if hi <= |line| then hi else |line|;
    line[a..b]
  }

  /** `line[lo:hi].strip()`. */
  function PyColumn(line: string, cols: (nat, nat)): string
    requires cols.0 <= cols.1
  {
    Trim(PySlice(line, cols.0, cols.1), IsPyWhitespace)
  }

  /** The element of an atom record, `line[76:78].strip()`; a short line gives a shorter or empty string. */
  function PyElement(line: string): string
  {
    PyColumn(line, ELEMENT_COLUMNS)
  }

  /** The coordinate triple of an atom record, or None if a column is not a float. */
  function PyCoord(line: string, float: PyFloat): Option<Vec3>
  {
    var x, y, z := float(PyColumn(line, X_COLUMNS)), float(PyColumn(line, Y_COLUMNS)), float(PyColumn(line, Z_COLUMNS));
    if x.Some? && y.Some? && z.Some? then Some((x.value, y.value, z.value)) else None
  }

  /** A short line has an empty element column rather than an error. */
  lemma ShortLineElement(line: string)
    requires |line| <= 76
    ensures PyElement(line) == ""
  {
  }

  /** One atom record read: its coordinate triple and element, or None if a column is not a float. */
  function PyAtom(line: string, float: PyFloat): Option<(Vec3, string)>
  {
    match PyCoord(line, float)
    case None => None
    case Some(c) => Some((c, PyElement(line)))
  }

  /** An atom record is accepted exactly when its three coordinate columns are floats. */
  lemma PyAtomMeaning(line: string, float: PyFloat)
    ensures Reader(float)(line).Some? <==> PyCoord(line, float).Some?
    ensures Reader(float)(line).Some? ==> Reader(float)(line).value == (PyCoord(line, float).value, PyElement(line))
  {
  }

  /** The per-record reader of `parse_pdb` for a given float conversion. */
  function Reader(float: PyFloat): string -> Option<(Vec3, string)>
  {
    line => PyAtom(line, float)
  }

  /**
   * The outcome of reading the atom records in order with the per-record reader `atom`: the
   * first record it rejects aborts the whole read.
   */
  function ParseRecords(records: seq<string>, atom: string -> Option<(Vec3, string)>): (r: Result<(seq<Vec3>, seq<string>), PyError>)
    ensures r.Ok? ==> |r.value.0| == |records| && |r.value.1| == |records|
  {
    if records == [] then Ok(([], []))
    else
      match ParseRecords(records[..|records| - 1], atom)
      case Err(e) => Err(e)
      case Ok((coords, atomTypes)) =>
        match atom(records[|records| - 1])
        case None => Err(ValueError)
        case Some((c, t)) => Ok((coords + [c], atomTypes + [t]))
  }

  /** Once a record fails, every longer read fails too. */
  lemma {:induction false} ParseRecordsErrSticky(records: seq<string>, more: seq<string>, atom: string -> Option<(Vec3, string)>)
    requires ParseRecords(records, atom).Err?
    ensures ParseRecords(records + more, atom).Err?
  {
    if more == [] {
      assert records + more == records;
    } else {
      var front := more[..|more| - 1];
      ParseRecordsErrSticky(records, front, atom);
      var all := records + more;
      assert all[..|all| - 1] == records + front;
      assert ParseRecords(all[..|all| - 1], atom).Err?;
    }
  }

  /**
   * The read succeeds exactly when every record is accepted, and then gives one coordinate and
   * one element per record, in record order.
   */
  lemma {:induction false} ParseRecordsMeaning(records: seq<string>, atom: string -> Option<(Vec3, string)>)
    ensures ParseRecords(records, atom).Ok? <==> forall k :: 0 <= k < |records| ==> atom(records[k]).Some?
    ensures ParseRecords(records, atom).Ok? ==> forall k :: 0 <= k < |records| ==>
      (ParseRecords(records, atom).value.0[k], ParseRecords(records, atom).value.1[k]) == atom(records[k]).value
  {
    if records != [] {
      var front := records[..|records| - 1];
      ParseRecordsMeaning(front, atom);
      assert forall k :: 0 <= k < |front| ==> records[k] == front[k];
    }
  }

  /** Reading one more line of the file: only an atom record changes the outcome. */
  lemma ParseStep(lines: seq<string>, i: nat, atom: string -> Option<(Vec3, string)>, coords: seq<Vec3>, atomTypes: seq<string>)
    requires i < |lines|
    requires ParseRecords(AtomRecords(lines[..i]), atom) == Ok((coords, atomTypes))
    requires IsAtomRecord(lines[i]) ==> atom(lines[i]).Some?
    ensures ParseRecords(AtomRecords(lines[..i + 1]), atom) ==
      if IsAtomRecord(lines[i])
      then Ok((coords + [atom(lines[i]).value.0], atomTypes + [atom(lines[i]).value.1]))
      else Ok((coords, atomTypes))
  {
    AtomRecordsStep(lines, i);
    var upTo := AtomRecords(lines[..i + 1]);
    if IsAtomRecord(lines[i]) {
      assert upTo[..|upTo| - 1] == AtomRecords(lines[..i]);
    } else {
      assert upTo == AtomRecords(lines[..i]);
    }
  }

  /** A rejected last record makes the read fail. */
  lemma ParseRejectsLast(front: seq<string>, line: string, atom: string -> Option<(Vec3, string)>)
    requires atom(line).None?
    ensures ParseRecords(front + [line], atom).Err?
  {
    var all := front + [line];
    assert all[..|all| - 1] == front;
  }

  /** A failing prefix makes the whole read fail. */
  lemma ParsePrefixErr(records: seq<string>, pre: seq<string>, atom: string -> Option<(Vec3, string)>)
    requires pre <= records && ParseRecords(pre, atom).Err?
    ensures ParseRecords(records, atom).Err?
  {
    ParseRecordsErrSticky(pre, records[|pre|..], atom);
    assert pre + records[|pre|..] == records;
  }

  /** An atom record the reader rejects makes the whole file's read fail. */
  lemma ParseAborts(lines: seq<string>, i: nat, atom: string -> Option<(Vec3, string)>)
    requires i < |lines| && IsAtomRecord(lines[i]) && atom(lines[i]).None?
    ensures ParseRecords(AtomRecords(lines), atom).Err?
  {
    AtomRecordsStep(lines, i);
    ParseRejectsLast(AtomRecords(lines[..i]), lines[i], atom);
    AtomRecordsPrefix(lines, i + 1);
    ParsePrefixErr(AtomRecords(lines), AtomRecords(lines[..i + 1]), atom);
  }

  /** The per-line work of `parse_pdb` on an atom record. */
  method ReadAtom(line: string, float: PyFloat) returns (a: Option<(Vec3, string)>)
    ensures a == PyAtom(line, float)
    ensures a.Some? ==> a.value.1 == PyElement(line) && PyCoord(line, float) == Some(a.value.0)
  {
    var atomType := PyElement(line);
    var c := PyCoord(line, float);
    if c.None? {
      return None;
    }
    return Some((c.value, atomType));
  }

  /**
   * `parse_pdb(lines)`: one coordinate and one element per atom record, in file order; a
   * coordinate column that is not a float aborts the whole parse.
   */
  method ParsePdb(lines: seq<string>, float: PyFloat) returns (r: Result<(seq<Vec3>, seq<string>), PyError>)
    ensures r == ParseRecords(AtomRecords(lines), Reader(float))
  {
    ghost var atom := Reader(float);
    var coords: seq<Vec3> := [];
    var atomTypes: seq<string> := [];
    var i := 0;
    while i < |lines|
      invariant 0 <= i <= |lines|
      invariant ParseRecords(AtomRecords(lines[..i]), atom) == Ok((coords, atomTypes))
    {
      var line := lines[i];
      if IsAtomRecord(line) {
        var a := ReadAtom(line, float);
        if a.None? {
          ParseAborts(lines, i, atom);
          assert ParseRecords(AtomRecords(lines), atom).error == ValueError;
          return Err(ValueError);
        }
        ParseStep(lines, i, atom, coords, atomTypes);
        coords := coords + [a.value.0];
        atomTypes := atomTypes + [a.value.1];
      } else {
        ParseStep(lines, i, atom, coords, atomTypes);
      }
      i := i + 1;
    }
    assert lines[..i] == lines;
    return Ok((coords, atomTypes));
  }

  /**
   * What `parse_pdb` returns: it succeeds exactly when every atom record has three float
   * columns, and then holds one coordinate and one element per atom record, in file order.
   */
  lemma ParsePdbMeaning(lines: seq<string>, float: PyFloat)
    ensures var r := ParseRecords(AtomRecords(lines), Reader(float));
      && (r.Ok? <==> forall k :: 0 <= k < |AtomRecords(lines)| ==> PyCoord(AtomRecords(lines)[k], float).Some?)
      && (r.Ok? ==> |r.value.0| == |AtomRecords(lines)| == |r.value.1|)
      && (r.Ok? ==> forall k :: 0 <= k < |AtomRecords(lines)| ==>
            r.value.0[k] == PyCoord(AtomRecords(lines)[k], float).value &&
            r.value.1[k] == PyElement(AtomRecords(lines)[k]))
  {
    var records := AtomRecords(lines);
    ParseRecordsMeaning(records, Reader(float));
    forall k | 0 <= k < |records|
      ensures Reader(float)(records[k]).Some? <==> PyCoord(records[k], float).Some?
      ensures Reader(float)(records[k]).Some? ==>
        Reader(float)(records[k]).value == (PyCoord(records[k], float).value, PyElement(records[k]))
    {
      PyAtomMeaning(records[k], float);
    }
  }

  // ---- determine_bonds ----

  /** The range table keyed by type tuples `(a, b)`. */
  type TupleRangeTable = map<(string, string), (real, real)>

  /** `if pair in bond_distances ... elif pair[::-1] in bond_distances ...`. */
  function TupleLookup(table: TupleRangeTable, a: string, b: string): Option<(real, real)>
  {
    if (a, b) in table then Some(table[(a, b)])
    else if (b, a) in table then Some(table[(b, a)])
    else None
  }

  /** What the loop body does with one pair: append it, skip it (out of range) or record its types. */
  datatype TupleClass = Appended | Skipped | Unlisted

  /** The branch taken for a pair with types `a`, `b` at squared distance `s`. */
  function TupleClassify(table: TupleRangeTable, a: string, b: string, s: real): TupleClass
  {
    match TupleLookup(table, a, b)
    case Some(range) => if RootWithin(s, range.0, range.1) then Appended else Skipped
    case None => Unlisted
  }

  /** The branch taken for atom pair p. */
  function TupleClassOf(coords: seq<Vec3>, atomTypes: seq<string>, table: TupleRangeTable, p: Pair): TupleClass
    requires p.0 < p.1 < |coords| && p.1 < |atomTypes|
  {
    TupleClassify(table, atomTypes[p.0], atomTypes[p.1], SquaredDistance(coords[p.0], coords[p.1]))
  }

  /** The test "p is a pair of this structure for which the loop body takes branch c". */
  function HasTupleClass(coords: seq<Vec3>, atomTypes: seq<string>, table: TupleRangeTable, c: TupleClass): Pair -> bool
  {
    (p: Pair) => p.0 < p.1 < |coords| && p.1 < |atomTypes| && TupleClassOf(coords, atomTypes, table, p) == c
  }

  /** The two collections the loops build: `bonds` and `missing`. */
  datatype PyOutputs = PyOutputs(bonds: seq<Pair>, missing: set<(string, string)>)

  /** What the loops have built after visiting the pairs ps. */
  function PyScanOf(coords: seq<Vec3>, atomTypes: seq<string>, table: TupleRangeTable, ps: seq<Pair>): PyOutputs
  {
    PyOutputs(Filter(ps, HasTupleClass(coords, atomTypes, table, Appended)),
              TypePairs(atomTypes, ps, HasTupleClass(coords, atomTypes, table, Unlisted)))
  }

  /** The effect of visiting pair p on the collections o. */
  function PyRecord(coords: seq<Vec3>, atomTypes: seq<string>, table: TupleRangeTable, o: PyOutputs, p: Pair): PyOutputs
    requires p.0 < p.1 < |coords| && p.1 < |atomTypes|
  {
    match TupleClassOf(coords, atomTypes, table, p)
    case Appended => o.(bonds := o.bonds + [p])
    case Unlisted => o.(missing := o.missing + {(atomTypes[p.0], atomTypes[p.1])})
    case Skipped => o
  }

  /** The inner loop's step from (i, j) to (i, j + 1). */
  lemma PyScanAdvance(coords: seq<Vec3>, atomTypes: seq<string>, table: TupleRangeTable, done: seq<Pair>, i: nat, j: nat)
    requires i < j < |coords| && j < |atomTypes|
    ensures PyScanOf(coords, atomTypes, table, done + Row(i, i + 1, j + 1)) ==
      PyRecord(coords, atomTypes, table, PyScanOf(coords, atomTypes, table, done + Row(i, i + 1, j)), (i, j))
  {
    FilterAdvance(done, i, j, HasTupleClass(coords, atomTypes, table, Appended));
    TypePairsAdvance(atomTypes, done, i, j, HasTupleClass(coords, atomTypes, table, Unlisted));
  }

  /**
   * `determine_bonds(coords, atom_types, bond_distances)`: the nested loops over i < j. Only
   * `bonds` is returned; the `missing` set the function builds and then drops is the ghost result.
   */
  method DetermineBonds(coords: seq<Vec3>, atomTypes: seq<string>, table: TupleRangeTable)
    returns (bonds: seq<Pair>, ghost missing: set<(string, string)>)
    requires |coords| < 2 || |coords| <= |atomTypes|
    ensures bonds == Filter(AllPairs(|coords|), HasTupleClass(coords, atomTypes, table, Appended))
    ensures missing == TypePairs(atomTypes, AllPairs(|coords|), HasTupleClass(coords, atomTypes, table, Unlisted))
  {
    var n := |coords|;
    var o := PyOutputs([], {});
    var i: nat := 0;
    while i < n
      invariant i <= n
      invariant o == PyScanOf(coords, atomTypes, table, PairsBefore(i, n))
    {
      RowDone(coords, atomTypes, table, i);
      o := ScanRow(coords, atomTypes, table, i, o);
      i := i + 1;
    }
    bonds, missing := o.bonds, o.missing;
  }

  /** The collections o after visiting the pairs (i, i + 1) .. (i, j - 1) in order. */
  ghost function RowVisit(coords: seq<Vec3>, atomTypes: seq<string>, table: TupleRangeTable, o: PyOutputs, i: nat, j: nat): PyOutputs
    requires (|coords| < 2 || |coords| <= |atomTypes|) && i < j <= |coords|
    decreases j
  {
    if j == i + 1 then o
    else PyRecord(coords, atomTypes, table, RowVisit(coords, atomTypes, table, o, i, j - 1), (i, j - 1))
  }

  /** Visiting row i after the pairs done gives what the loops build from done and then row i. */
  lemma {:induction false} RowVisitMeaning(coords: seq<Vec3>, atomTypes: seq<string>, table: TupleRangeTable, done: seq<Pair>, i: nat, j: nat)
    requires (|coords| < 2 || |coords| <= |atomTypes|) && i < j <= |coords|
    ensures RowVisit(coords, atomTypes, table, PyScanOf(coords, atomTypes, table, done), i, j) ==
      PyScanOf(coords, atomTypes, table, done + Row(i, i + 1, j))
    decreases j
  {
    var start := PyScanOf(coords, atomTypes, table, done);
    if j == i + 1 {
      assert done + Row(i, i + 1, j) == done;
    } else {
      RowVisitMeaning(coords, atomTypes, table, done, i, j - 1);
      PyScanAdvance(coords, atomTypes, table, done, i, j - 1);
    }
  }

  /** The scan after row i, from the scan before it. */
  lemma RowDone(coords: seq<Vec3>, atomTypes: seq<string>, table: TupleRangeTable, i: nat)
    requires (|coords| < 2 || |coords| <= |atomTypes|) && i < |coords|
    ensures RowVisit(coords, atomTypes, table, PyScanOf(coords, atomTypes, table, PairsBefore(i, |coords|)), i, |coords|) ==
      PyScanOf(coords, atomTypes, table, PairsBefore(i + 1, |coords|))
  {
    RowVisitMeaning(coords, atomTypes, table, PairsBefore(i, |coords|), i, |coords|);
    RowEnd(i, |coords|);
  }

  /** The inner loop `for j in range(i + 1, num_atoms)` of row i. */
  method ScanRow(coords: seq<Vec3>, atomTypes: seq<string>, table: TupleRangeTable, i: nat, o0: PyOutputs)
    returns (o: PyOutputs)
    requires (|coords| < 2 || |coords| <= |atomTypes|) && i < |coords|
    ensures o == RowVisit(coords, atomTypes, table, o0, i, |coords|)
  {
    var n := |coords|;
    o := o0;
    var j: nat := i + 1;
    while j < n
      invariant i + 1 <= j <= n
      invariant o == RowVisit(coords, atomTypes, table, o0, i, j)
    {
      o := VisitPair(coords, atomTypes, table, i, j, o);
      j := j + 1;
    }
  }

  /**
   * The loop body for (i, j). In the `else` branch the guard `pair not in missing or
   * pair[::-1] not in missing` only fails when the pair is already in the set, so the pair
   * always ends up in it.
   */
  method VisitPair(coords: seq<Vec3>, atomTypes: seq<string>, table: TupleRangeTable, i: nat, j: nat, o0: PyOutputs)
    returns (o: PyOutputs)
    requires i < j < |coords| && j < |atomTypes|
    ensures o == PyRecord(coords, atomTypes, table, o0, (i, j))
  {
    var bonds, missing := o0.bonds, o0.missing;
    var pair := (atomTypes[i], atomTypes[j]);
    var s := SquaredDistance(coords[i], coords[j]);
    if pair in table {
      var (lo, hi) := table[pair];
      if RootWithin(s, lo, hi) {
        bonds := bonds + [(i, j)];
      }
    } else if (pair.1, pair.0) in table {
      var (lo, hi) := table[(pair.1, pair.0)];
      if RootWithin(s, lo, hi) {
        bonds := bonds + [(i, j)];
      }
    } else {
      if pair !in missing || (pair.1, pair.0) !in missing {
        missing := missing + {pair};
      } else {
        assert missing + {pair} == missing;
      }
    }
    o := PyOutputs(bonds, missing);
  }

  // ---- What the outputs contain ----

  /**
   * The returned bonds are exactly the pairs i < j whose types have a range (forward tuple
   * first) containing their distance, without duplicates and in lexicographic order.
   */
  lemma BondsShape(coords: seq<Vec3>, atomTypes: seq<string>, table: TupleRangeTable)
    requires |coords| < 2 || |coords| <= |atomTypes|
    ensures StrictlyOrdered(Filter(AllPairs(|coords|), HasTupleClass(coords, atomTypes, table, Appended)))
    ensures forall p :: p in Filter(AllPairs(|coords|), HasTupleClass(coords, atomTypes, table, Appended)) <==>
      p.0 < p.1 < |coords| && TupleLookup(table, atomTypes[p.0], atomTypes[p.1]).Some? &&
      var range := TupleLookup(table, atomTypes[p.0], atomTypes[p.1]).value;
      RootWithin(SquaredDistance(coords[p.0], coords[p.1]), range.0, range.1)
  {
    AllPairsShape(|coords|);
    FilterMembership(AllPairs(|coords|), HasTupleClass(coords, atomTypes, table, Appended));
    FilterOrdered(AllPairs(|coords|), HasTupleClass(coords, atomTypes, table, Appended));
  }

  /** The dropped missing set holds the type tuple (ti, tj) of every pair without any range. */
  lemma MissingShape(coords: seq<Vec3>, atomTypes: seq<string>, table: TupleRangeTable, m: (string, string))
    requires |coords| < 2 || |coords| <= |atomTypes|
    ensures m in TypePairs(atomTypes, AllPairs(|coords|), HasTupleClass(coords, atomTypes, table, Unlisted)) <==>
      exists p: Pair :: p.0 < p.1 < |coords| &&
        TupleLookup(table, atomTypes[p.0], atomTypes[p.1]).None? && m == (atomTypes[p.0], atomTypes[p.1])
  {
    AllPairsShape(|coords|);
    TypePairsMembership(atomTypes, AllPairs(|coords|), HasTupleClass(coords, atomTypes, table, Unlisted), m);
  }

  /**
   * With a tuple table that holds the same entries as a string-keyed range table, the Python
   * classifier confirms exactly the pairs the `"A-B"` lookup of the Rust classifier would.
   */
  lemma AgreesWithStringKeys(table: TupleRangeTable, ranges: RangeTable, a: string, b: string)
    requires (a, b) in table <==> PairKey(a, b) in ranges
    requires (b, a) in table <==> PairKey(b, a) in ranges
    requires (a, b) in table ==> table[(a, b)] == ranges[PairKey(a, b)]
    requires (b, a) in table ==> table[(b, a)] == ranges[PairKey(b, a)]
    ensures TupleLookup(table, a, b) == Lookup(ranges, a, b)
  {
  }
}
