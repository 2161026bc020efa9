/**
 * `write_pdb` of rust/src/pdb.rs: one ATOM line per atom, then, when bonds are given, one CONECT
 * line per bond, with 1-based atom numbers. A panic part-way (an `atom_types[i]` past the end, a
 * `from + 1` that overflows `usize`) leaves the lines written so far, which `Written` records.
 */
module PdbWrite {
  import opened Wrappers
  import opened Geometry
  import opened Text
  import opened PdbRecords
  import opened Pairs
  import opened Pdb

  /** `{:>8.3}` without its padding: how a float is written with three decimals. */
  type Fixed3 = real -> string

  /** The lines that reach the file, and whether `write_pdb` returned without a panic. */
  datatype Written = Written(lines: seq<string>, complete: bool)

  /** The fixed columns between the atom type and the x coordinate. */
  const RESIDUE: string := " MOL     1    "
  /** The fixed columns between the z coordinate and the element: occupancy and temperature factor. */
  const FACTORS: string := "  1.00  0.00          "

  /** The ATOM line of atom number `serial` as `write_pdb` formats it. */
  function AtomLine(serial: nat, t: string, c: Vec3, fixed3: Fixed3): string
  {
    "ATOM  " + AtomFields(serial, t, c, fixed3)
  }

  /** The columns of an ATOM line after the record name. */
  function AtomFields(serial: nat, t: string, c: Vec3, fixed3: Fixed3): string
  {
    PadLeft(Decimal(serial), 5) + " " + PadRight(t, 3) + RESIDUE +
    PadLeft(fixed3(c.0), 8) + " " + PadLeft(fixed3(c.1), 8) + " " + PadLeft(fixed3(c.2), 8) +
    FACTORS + PadLeft(t, 2)
  }

  /** The CONECT line of a bond: both atom numbers made 1-based, right-aligned in five columns. */
  function ConectLine(b: Pair): string
  {
    ConectText(Decimal(b.0 + 1), Decimal(b.1 + 1))
  }

  /** `"CONECT {:>5} {:>5}"` filled with two atom numbers already written out. */
  function ConectText(f: string, t: string): string
  {
    "CONECT" + (" " + (PadLeft(f, 5) + (" " + PadLeft(t, 5))))
  }

  /** Whether `from + 1` and `to + 1` fit in a `usize`. */
  predicate Fits(b: Pair)
  {
    b.0 < USIZE_MAX && b.1 < USIZE_MAX
  }

  /** How many bonds are written before the first one whose atom number overflows. */
  function WritableBonds(bonds: seq<Pair>): (n: nat)
    ensures n <= |bonds|
    ensures forall k :: 0 <= k < n ==> Fits(bonds[k])
    ensures n < |bonds| ==> !Fits(bonds[n])
  {
    if bonds == [] || !Fits(bonds[0]) then 0
    else
      var rest := WritableBonds(bonds[1..]);
      assert forall k :: 1 <= k < 1 + rest ==> bonds[k] == bonds[1..][k - 1];
      1 + rest
  }

  /** One line per item, in order. */
  function Lines<T>(items: seq<T>, line: T -> string): (ls: seq<string>)
    ensures |ls| == |items|
  {
    if items == [] then [] else Lines(items[..|items| - 1], line) + [line(items[|items| - 1])]
  }

  /** What one ATOM line is made from: the 1-based atom number, the atom type and the coordinates. */
  type AtomEntry = (nat, string, Vec3)

  /** The entries of the first n atoms, as `coords.iter().enumerate()` with `atom_types[i]` gives them. */
  function AtomEntries(coords: seq<Vec3>, atomTypes: seq<string>, n: nat): (es: seq<AtomEntry>)
    requires n <= |coords| && n <= |atomTypes|
    ensures |es| == n
  {
    if n == 0 then [] else AtomEntries(coords, atomTypes, n - 1) + [(n, atomTypes[n - 1], coords[n - 1])]
  }

  /** The ATOM line format for a given float formatter. */
  function AtomLineOf(fixed3: Fixed3): AtomEntry -> string
  {
    (e: AtomEntry) => AtomLine(e.0, e.1, e.2, fixed3)
  }

  /** The ATOM lines of the first n atoms. */
  function AtomLines(coords: seq<Vec3>, atomTypes: seq<string>, n: nat, fixed3: Fixed3): (ls: seq<string>)
    requires n <= |coords| && n <= |atomTypes|
    ensures |ls| == n
  {
    Lines(AtomEntries(coords, atomTypes, n), AtomLineOf(fixed3))
  }

  /** The CONECT lines of bonds, one per bond, in order. */
  function ConectLines(bonds: seq<Pair>): (ls: seq<string>)
    ensures |ls| == |bonds|
  {
    Lines(bonds, ConectLine)
  }

  /** What `write_pdb(coords, atom_types, bonds)` leaves in the file. */
  function WrittenFile(coords: seq<Vec3>, atomTypes: seq<string>, bonds: Option<seq<Pair>>, fixed3: Fixed3): Written
  {
    if |atomTypes| < |coords| then Written(AtomLines(coords, atomTypes, |atomTypes|, fixed3), false)
    else
      var atoms := AtomLines(coords, atomTypes, |coords|, fixed3);
      match bonds
      case None => Written(atoms, true)
      case Some(bs) =>
        var n := WritableBonds(bs);
        Written(atoms + ConectLines(bs[..n]), n == |bs|)
  }

  /**
   * `write_pdb`: the ATOM loop, then, under `if let Some(bonds)`, the CONECT loop; each loop stops
   * at the first panic with what it has written.
   */
  method WritePdb(coords: seq<Vec3>, atomTypes: seq<string>, bonds: Option<seq<Pair>>, fixed3: Fixed3)
    returns (w: Written)
    ensures w == WrittenFile(coords, atomTypes, bonds, fixed3)
  {
    var out: seq<string> := [];
    var i := 0;
    while i < |coords|
      invariant 0 <= i <= |coords| && i <= |atomTypes|
      invariant out == AtomLines(coords, atomTypes, i, fixed3)
    {
      if i >= |atomTypes| {
        return Written(out, false);
      }
      var entry: AtomEntry := (i + 1, atomTypes[i], coords[i]);
      LinesSnoc(AtomEntries(coords, atomTypes, i), entry, AtomLineOf(fixed3));
      assert AtomEntries(coords, atomTypes, i + 1) == AtomEntries(coords, atomTypes, i) + [entry];
      out := out + [AtomLine(i + 1, atomTypes[i], coords[i], fixed3)];
      i := i + 1;
    }
    if bonds.None? {
      return Written(out, true);
    }
    var conects, complete := WriteConects(bonds.value);
    return Written(out + conects, complete);
  }

  /**
   * The CONECT loop of `write_pdb`: one line per bond, in order, until a bond whose `from + 1` or
   * `to + 1` overflows; `complete` tells whether every bond was written.
   */
  method WriteConects(bonds: seq<Pair>) returns (lines: seq<string>, complete: bool)
    ensures lines == ConectLines(bonds[..WritableBonds(bonds)])
    ensures complete <==> WritableBonds(bonds) == |bonds|
  {
    lines := [];
    var k := 0;
    while k < |bonds|
      invariant k <= WritableBonds(bonds)
      invariant lines == ConectLines(bonds[..k])
    {
      if !Fits(bonds[k]) {
        return lines, false;
      }
      var line := ConectLine(bonds[k]);
      LinesPrefixSnoc(bonds, k, ConectLine);
      lines := lines + [line];
      k := k + 1;
    }
    return lines, true;
  }

  /** The bonds written are exactly those before the first one that does not fit. */
  lemma WritableBondsAt(bonds: seq<Pair>, k: nat)
    requires k <= |bonds| && forall j :: 0 <= j < k ==> Fits(bonds[j])
    requires k < |bonds| ==> !Fits(bonds[k])
    ensures WritableBonds(bonds) == k
  {
  }

  /** Writing one more item writes its line after the others. */
  lemma LinesSnoc<T>(items: seq<T>, x: T, line: T -> string)
    ensures Lines(items + [x], line) == Lines(items, line) + [line(x)]
  {
    assert (items + [x])[..|items|] == items;
  }

  /** The lines of one more item of a sequence. */
  lemma LinesPrefixSnoc<T>(items: seq<T>, k: nat, line: T -> string)
    requires k < |items|
    ensures Lines(items[..k + 1], line) == Lines(items[..k], line) + [line(items[k])]
  {
    assert items[..k + 1] == items[..k] + [items[k]];
    LinesSnoc(items[..k], items[k], line);
  }

  /** Line k is the line of item k. */
  lemma {:induction false} LinesAt<T>(items: seq<T>, line: T -> string)
    ensures forall k :: 0 <= k < |items| ==> Lines(items, line)[k] == line(items[k])
  {
    if items != [] {
      LinesAt(items[..|items| - 1], line);
    }
  }

  // ---- What the written lines are ----

  /** Any line that starts with `ATOM  ` is a coordinate record and not a CONECT record. */
  lemma AtomPrefixed(fields: string)
    ensures IsAtomRecord("ATOM  " + fields) && !IsConectRecord("ATOM  " + fields)
  {
    assert StartsWith("ATOM  ", "ATOM");
    StartsWithAppend("ATOM  ", fields, "ATOM");
    RecordKindsDisjoint("ATOM  " + fields);
  }

  /** Any line that starts with `CONECT` is a CONECT record and not a coordinate record. */
  lemma ConectPrefixed(fields: string)
    ensures IsConectRecord("CONECT" + fields) && !IsAtomRecord("CONECT" + fields)
  {
    assert StartsWith("CONECT", "CONECT");
    StartsWithAppend("CONECT", fields, "CONECT");
    RecordKindsDisjoint("CONECT" + fields);
  }

  /** Every written ATOM line is a coordinate record and never a CONECT record. */
  lemma AtomLineKind(serial: nat, t: string, c: Vec3, fixed3: Fixed3)
    ensures IsAtomRecord(AtomLine(serial, t, c, fixed3))
    ensures !IsConectRecord(AtomLine(serial, t, c, fixed3))
  {
    AtomPrefixed(AtomFields(serial, t, c, fixed3));
  }

  /** Every written CONECT line is a CONECT record and never a coordinate record. */
  lemma ConectLineKind(b: Pair)
    ensures IsConectRecord(ConectLine(b)) && !IsAtomRecord(ConectLine(b))
  {
    var f, t := Decimal(b.0 + 1), Decimal(b.1 + 1);
    ConectPrefixed(" " + (PadLeft(f, 5) + (" " + PadLeft(t, 5))));
  }

  /** The file is complete exactly when there is a type for every atom and every bond's numbers fit. */
  lemma WrittenFileShape(coords: seq<Vec3>, atomTypes: seq<string>, bonds: Option<seq<Pair>>, fixed3: Fixed3)
    ensures var w := WrittenFile(coords, atomTypes, bonds, fixed3);
      w.complete <==> |coords| <= |atomTypes| && (bonds.Some? ==> forall k :: 0 <= k < |bonds.value| ==> Fits(bonds.value[k]))
    ensures var w := WrittenFile(coords, atomTypes, bonds, fixed3);
      w.complete ==> |w.lines| == |coords| + if bonds.Some? then |bonds.value| else 0
  {
  }

  /** A line `name {:>5} {:>5}` splits into the name and the two numbers as written. */
  lemma PairTextTokens(name: string, f: string, t: string)
    requires name != [] && NoneIn(name, IsWhitespace)
    requires f != [] && NoneIn(f, IsWhitespace)
    requires t != [] && NoneIn(t, IsWhitespace)
    ensures SplitWhitespace(name + (" " + (PadLeft(f, 5) + (" " + PadLeft(t, 5))))) == [name, f, t]
  {
    var tail := " " + PadLeft(t, 5);
    assert tail == " " + (PadLeft(t, 5) + []);
    SplitTakesField(t, 5, []);
    SplitTakesField(f, 5, tail);
    SplitTakesWord(name, " " + (PadLeft(f, 5) + tail));
  }

  /** A record of two numbers the index reader accepts reads as their one pair. */
  lemma ConectOfOne(name: string, f: string, t: string, index: IndexReader, from: nat, to: nat)
    requires index(f) == Ok(from) && index(t) == Ok(to)
    ensures ConectOf([name, f, t], index) == Ok([(from, to)])
  {
    var tokens := [name, f, t];
    ConectOfMeaning(tokens, index);
    assert tokens[1] == f && tokens[2] == t;
    var r := ConectOf(tokens, index);
    assert r.Ok? && |r.value| == 1 && r.value[0] == (from, to);
    assert r.value == [(from, to)];
  }

  /** A token of a CONECT record that reads, one-based, as atom index `v`. */
  predicate IndexToken(s: string, v: nat)
  {
    s != [] && NoneIn(s, IsWhitespace) && OneBased(s) == Ok(v)
  }

  /** A written-out atom number reads back, one-based, as the number less one. */
  lemma OneBasedDecimal(n: nat)
    requires 1 <= n <= USIZE_MAX
    ensures IndexToken(Decimal(n), n - 1)
  {
    ParseDecimal(n);
  }

  /** The record name is one whitespace-free token. */
  lemma ConectNameWord()
    ensures NoneIn("CONECT", IsWhitespace)
  {
    var name := "CONECT";
    assert forall k :: 0 <= k < |name| ==> 'A' <= name[k] <= 'Z';
  }

  /** A CONECT record of two numbers the reader accepts reads back as their one pair. */
  lemma ConectTextRoundTrip(f: string, t: string, from: nat, to: nat)
    requires IndexToken(f, from) && IndexToken(t, to)
    ensures ConectPairs(ConectText(f, t)) == Ok([(from, to)])
  {
    assert SplitWhitespace(ConectText(f, t)) == ["CONECT", f, t] by {
      ConectNameWord();
      PairTextTokens("CONECT", f, t);
    }
    ConectOfOne("CONECT", f, t, OneBased, from, to);
  }

  /** The CONECT line of a bond whose numbers fit reads back as exactly that bond. */
  lemma ConectLineRoundTrip(b: Pair)
    requires Fits(b)
    ensures ConectPairs(ConectLine(b)) == Ok([b])
  {
    var f, t := Decimal(b.0 + 1), Decimal(b.1 + 1);
    OneBasedDecimal(b.0 + 1);
    OneBasedDecimal(b.1 + 1);
    ConectTextRoundTrip(f, t, b.0, b.1);
  }

  /** Lines that are all coordinate records are all read as atoms, and none as a CONECT record. */
  lemma {:induction false} AtomKindLines<T>(items: seq<T>, line: T -> string)
    requires forall x :: IsAtomRecord(line(x)) && !IsConectRecord(line(x))
    ensures AtomRecords(Lines(items, line)) == Lines(items, line)
    ensures ConectRecords(Lines(items, line)) == []
  {
    if items != [] {
      AtomKindLines(items[..|items| - 1], line);
    }
  }

  /** Lines that are all CONECT records are all read as CONECT records, and none as an atom. */
  lemma {:induction false} ConectKindLines<T>(items: seq<T>, line: T -> string)
    requires forall x :: IsConectRecord(line(x)) && !IsAtomRecord(line(x))
    ensures ConectRecords(Lines(items, line)) == Lines(items, line)
    ensures AtomRecords(Lines(items, line)) == []
  {
    if items != [] {
      ConectKindLines(items[..|items| - 1], line);
    }
  }

  /** Lines each read back as their own item's bonds read back, in order, as the items. */
  lemma {:induction false} LinesReadBack(bonds: seq<Pair>, line: Pair -> string, conect: ConectReader)
    requires forall k :: 0 <= k < |bonds| ==> conect(line(bonds[k])) == Ok([bonds[k]])
    ensures ConectBonds(Lines(bonds, line), conect) == bonds
  {
    if bonds != [] {
      var front := bonds[..|bonds| - 1];
      LinesReadBack(front, line, conect);
      assert bonds == front + [bonds[|bonds| - 1]];
    }
  }

  /** The CONECT lines of bonds whose numbers fit read back as those bonds, in order. */
  lemma ConectLinesRoundTrip(bonds: seq<Pair>)
    requires forall k :: 0 <= k < |bonds| ==> Fits(bonds[k])
    ensures ConectBonds(ConectLines(bonds), ConectPairs) == bonds
  {
    forall k | 0 <= k < |bonds|
      ensures ConectPairs(ConectLine(bonds[k])) == Ok([bonds[k]])
    {
      ConectLineRoundTrip(bonds[k]);
    }
    LinesReadBack(bonds, ConectLine, ConectPairs);
  }

  /** The coordinate records of a file are those of its first part, then those of its second. */
  lemma {:induction false} AtomRecordsAppend(a: seq<string>, b: seq<string>)
    ensures AtomRecords(a + b) == AtomRecords(a) + AtomRecords(b)
  {
    if b == [] {
      assert a + b == a;
    } else {
      var front := b[..|b| - 1];
      AtomRecordsAppend(a, front);
      assert (a + b)[..|a + b| - 1] == a + front;
    }
  }

  /** The bonds read from two blocks of CONECT records are those of the first, then the second. */
  lemma {:induction false} ConectBondsAppend(a: seq<string>, b: seq<string>, conect: ConectReader)
    ensures ConectBonds(a + b, conect) == ConectBonds(a, conect) + ConectBonds(b, conect)
  {
    if b == [] {
      assert a + b == a;
    } else {
      var front := b[..|b| - 1];
      ConectBondsAppend(a, front, conect);
      assert (a + b)[..|a + b| - 1] == a + front;
    }
  }

  /** The atom records of a written file are its ATOM lines and its CONECT records are its CONECT lines. */
  lemma WrittenRecords(coords: seq<Vec3>, atomTypes: seq<string>, bonds: Option<seq<Pair>>, fixed3: Fixed3)
    ensures var w := WrittenFile(coords, atomTypes, bonds, fixed3);
      var n := if |atomTypes| < |coords| then |atomTypes| else |coords|;
      AtomRecords(w.lines) == AtomLines(coords, atomTypes, n, fixed3) &&
      ConectRecords(w.lines) ==
        if |atomTypes| < |coords| || bonds.None? then [] else ConectLines(bonds.value[..WritableBonds(bonds.value)])
  {
    var n := if |atomTypes| < |coords| then |atomTypes| else |coords|;
    var atoms := AtomLines(coords, atomTypes, n, fixed3);
    forall e: AtomEntry
      ensures IsAtomRecord(AtomLineOf(fixed3)(e)) && !IsConectRecord(AtomLineOf(fixed3)(e))
    {
      AtomLineKind(e.0, e.1, e.2, fixed3);
    }
    AtomKindLines(AtomEntries(coords, atomTypes, n), AtomLineOf(fixed3));
    if |atomTypes| >= |coords| && bonds.Some? {
      var written := bonds.value[..WritableBonds(bonds.value)];
      forall b: Pair
        ensures IsConectRecord(ConectLine(b)) && !IsAtomRecord(ConectLine(b))
      {
        ConectLineKind(b);
      }
      ConectKindLines(written, ConectLine);
      AtomRecordsAppend(atoms, ConectLines(written));
      ConectRecordsAppend(atoms, ConectLines(written));
    }
  }

  /** CONECT lines written for bonds whose numbers fit always parse, to exactly those bonds and no atoms. */
  lemma ConectFileParses(bonds: seq<Pair>, atom: AtomReader)
    requires forall k :: 0 <= k < |bonds| ==> Fits(bonds[k])
    ensures ParseLines(ConectLines(bonds), atom, ConectPairs) == Ok(PdbData([], [], bonds))
  {
    var lines := ConectLines(bonds);
    forall b: Pair
      ensures IsConectRecord(ConectLine(b)) && !IsAtomRecord(ConectLine(b))
    {
      ConectLineKind(b);
    }
    ConectKindLines(bonds, ConectLine);
    LinesAt(bonds, ConectLine);
    forall k | 0 <= k < |lines|
      ensures LineReads(lines[k], atom, ConectPairs)
    {
      ConectLineRoundTrip(bonds[k]);
    }
    ParseLinesOk(lines, atom, ConectPairs);
    ParseLinesAtoms(lines, atom, ConectPairs);
    ParseLinesBonds(lines, atom, ConectPairs);
    ConectLinesRoundTrip(bonds);
  }

  /** The ATOM lines `write_pdb` writes: one per atom, up to the first atom without a type. */
  function WrittenAtomLines(coords: seq<Vec3>, atomTypes: seq<string>, fixed3: Fixed3): (ls: seq<string>)
    ensures |ls| == if |atomTypes| < |coords| then |atomTypes| else |coords|
  {
    AtomLines(coords, atomTypes, if |atomTypes| < |coords| then |atomTypes| else |coords|, fixed3)
  }

  /** The CONECT lines `write_pdb` writes: none when an atom lacks a type or bonds are omitted. */
  function WrittenConectLines(coords: seq<Vec3>, atomTypes: seq<string>, bonds: Option<seq<Pair>>): seq<string>
  {
    if |atomTypes| < |coords| || bonds.None? then [] else ConectLines(bonds.value[..WritableBonds(bonds.value)])
  }

  /** Whether every one of the lines reads as an atom under the float parser. */
  predicate AtomsRead(lines: seq<string>, parse: F64Parse)
  {
    forall k :: 0 <= k < |lines| ==> AtomOf(lines[k], parse).Ok?
  }

  /** Two blocks of lines read back together exactly when each reads back on its own. */
  lemma ParseAppendOk(a: seq<string>, b: seq<string>, atom: AtomReader, conect: ConectReader)
    ensures ParseLines(a + b, atom, conect).Ok? <==> ParseLines(a, atom, conect).Ok? && ParseLines(b, atom, conect).Ok?
  {
    ParseLinesOk(a + b, atom, conect);
    ParseLinesOk(a, atom, conect);
    ParseLinesOk(b, atom, conect);
    if ParseLines(a + b, atom, conect).Ok? {
      forall k | 0 <= k < |a|
        ensures LineReads(a[k], atom, conect)
      {
        assert (a + b)[k] == a[k];
      }
      forall k | 0 <= k < |b|
        ensures LineReads(b[k], atom, conect)
      {
        assert (a + b)[|a| + k] == b[k];
      }
    }
    if ParseLines(a, atom, conect).Ok? && ParseLines(b, atom, conect).Ok? {
      forall k | 0 <= k < |a + b|
        ensures LineReads((a + b)[k], atom, conect)
      {
        if k < |a| {
          assert (a + b)[k] == a[k];
        } else {
          assert (a + b)[k] == b[k - |a|];
        }
      }
    }
  }

  /** The ATOM lines written read back exactly when each of them reads as an atom. */
  lemma AtomLinesParse(coords: seq<Vec3>, atomTypes: seq<string>, fixed3: Fixed3, parse: F64Parse)
    ensures ParseLines(WrittenAtomLines(coords, atomTypes, fixed3), Atoms(parse), ConectPairs).Ok? <==>
      AtomsRead(WrittenAtomLines(coords, atomTypes, fixed3), parse)
  {
    var n := if |atomTypes| < |coords| then |atomTypes| else |coords|;
    var atoms := WrittenAtomLines(coords, atomTypes, fixed3);
    assert atoms == AtomLines(coords, atomTypes, n, fixed3);
    ParseLinesOk(atoms, Atoms(parse), ConectPairs);
    LinesAt(AtomEntries(coords, atomTypes, n), AtomLineOf(fixed3));
    forall k | 0 <= k < n
      ensures LineReads(atoms[k], Atoms(parse), ConectPairs) <==> AtomOf(atoms[k], parse).Ok?
    {
      var e := AtomEntries(coords, atomTypes, n)[k];
      AtomLineKind(e.0, e.1, e.2, fixed3);
    }
  }

  /** The CONECT lines written always read back, whether or not the write was cut short. */
  lemma ConectLinesParse(coords: seq<Vec3>, atomTypes: seq<string>, bonds: Option<seq<Pair>>, atom: AtomReader)
    ensures ParseLines(WrittenConectLines(coords, atomTypes, bonds), atom, ConectPairs).Ok?
  {
    if |atomTypes| >= |coords| && bonds.Some? {
      ConectFileParses(bonds.value[..WritableBonds(bonds.value)], atom);
    }
  }

  /** A written file is its ATOM lines, then the CONECT lines of the bonds written. */
  lemma WrittenLines(coords: seq<Vec3>, atomTypes: seq<string>, bonds: Option<seq<Pair>>, fixed3: Fixed3)
    ensures WrittenFile(coords, atomTypes, bonds, fixed3).lines ==
      WrittenAtomLines(coords, atomTypes, fixed3) + WrittenConectLines(coords, atomTypes, bonds)
  {
    var atoms := WrittenAtomLines(coords, atomTypes, fixed3);
    assert atoms + [] == atoms;
  }

  /**
   * A written file reads back exactly when its ATOM lines do: the CONECT lines it holds always
   * read, whether or not the write was cut short.
   */
  lemma WrittenFileParses(coords: seq<Vec3>, atomTypes: seq<string>, bonds: Option<seq<Pair>>, fixed3: Fixed3, parse: F64Parse)
    ensures ParseLines(WrittenFile(coords, atomTypes, bonds, fixed3).lines, Atoms(parse), ConectPairs).Ok? <==>
      AtomsRead(WrittenAtomLines(coords, atomTypes, fixed3), parse)
  {
    WrittenLines(coords, atomTypes, bonds, fixed3);
    AtomLinesParse(coords, atomTypes, fixed3, parse);
    ConectLinesParse(coords, atomTypes, bonds, Atoms(parse));
    ParseAppendOk(WrittenAtomLines(coords, atomTypes, fixed3), WrittenConectLines(coords, atomTypes, bonds), Atoms(parse), ConectPairs);
  }

  /** A successful read of a written file holds one atom per ATOM line written, each read from its line. */
  lemma ParsedWrittenAtoms(coords: seq<Vec3>, atomTypes: seq<string>, bonds: Option<seq<Pair>>, fixed3: Fixed3, parse: F64Parse)
    requires ParseLines(WrittenFile(coords, atomTypes, bonds, fixed3).lines, Atoms(parse), ConectPairs).Ok?
    ensures var d := ParseLines(WrittenFile(coords, atomTypes, bonds, fixed3).lines, Atoms(parse), ConectPairs).value;
      var atoms := WrittenAtomLines(coords, atomTypes, fixed3);
      |d.coords| == |atoms| && |d.atomTypes| == |atoms| &&
      forall k :: 0 <= k < |atoms| ==> AtomOf(atoms[k], parse) == Ok((d.coords[k], d.atomTypes[k]))
  {
    var lines := WrittenFile(coords, atomTypes, bonds, fixed3).lines;
    var d := ParseLines(lines, Atoms(parse), ConectPairs).value;
    var atoms := WrittenAtomLines(coords, atomTypes, fixed3);
    assert AtomRecords(lines) == atoms by {
      WrittenRecords(coords, atomTypes, bonds, fixed3);
    }
    ParseLinesAtoms(lines, Atoms(parse), ConectPairs);
    forall k | 0 <= k < |atoms|
      ensures AtomOf(atoms[k], parse) == Ok((d.coords[k], d.atomTypes[k]))
    {
      assert Atoms(parse)(AtomRecords(lines)[k]) == Ok((d.coords[k], d.atomTypes[k]));
    }
  }

  /** A successful read of a written file holds exactly the bonds written, in order. */
  lemma ParsedWrittenBonds(coords: seq<Vec3>, atomTypes: seq<string>, bonds: Option<seq<Pair>>, fixed3: Fixed3, parse: F64Parse)
    requires ParseLines(WrittenFile(coords, atomTypes, bonds, fixed3).lines, Atoms(parse), ConectPairs).Ok?
    ensures ParseLines(WrittenFile(coords, atomTypes, bonds, fixed3).lines, Atoms(parse), ConectPairs).value.bonds ==
      if |atomTypes| < |coords| || bonds.None? then [] else bonds.value[..WritableBonds(bonds.value)]
  {
    var lines := WrittenFile(coords, atomTypes, bonds, fixed3).lines;
    var conects := if |atomTypes| < |coords| || bonds.None? then [] else ConectLines(bonds.value[..WritableBonds(bonds.value)]);
    assert ConectRecords(lines) == conects by {
      WrittenRecords(coords, atomTypes, bonds, fixed3);
    }
    ParseLinesBonds(lines, Atoms(parse), ConectPairs);
    if |atomTypes| >= |coords| && bonds.Some? {
      ConectLinesRoundTrip(bonds.value[..WritableBonds(bonds.value)]);
    }
  }

  /**
   * Reading back a written file whose ATOM lines read: the parse succeeds, with one atom per ATOM
   * line written, each read from its line, and exactly the bonds written, in order; with bonds
   * omitted it has none.
   */
  lemma WriteThenParse(coords: seq<Vec3>, atomTypes: seq<string>, bonds: Option<seq<Pair>>, fixed3: Fixed3, parse: F64Parse)
    requires AtomsRead(WrittenAtomLines(coords, atomTypes, fixed3), parse)
    ensures ParseLines(WrittenFile(coords, atomTypes, bonds, fixed3).lines, Atoms(parse), ConectPairs).Ok?
    ensures var d := ParseLines(WrittenFile(coords, atomTypes, bonds, fixed3).lines, Atoms(parse), ConectPairs).value;
      var atoms := WrittenAtomLines(coords, atomTypes, fixed3);
      |d.coords| == |atoms| && |d.atomTypes| == |atoms| &&
      (forall k :: 0 <= k < |atoms| ==> AtomOf(atoms[k], parse) == Ok((d.coords[k], d.atomTypes[k]))) &&
      d.bonds == if |atomTypes| < |coords| || bonds.None? then [] else bonds.value[..WritableBonds(bonds.value)]
  {
    WrittenFileParses(coords, atomTypes, bonds, fixed3, parse);
    ParsedWrittenAtoms(coords, atomTypes, bonds, fixed3, parse);
    ParsedWrittenBonds(coords, atomTypes, bonds, fixed3, parse);
  }

  /** A complete write with bonds whose ATOM lines read reads back with all of those bonds. */
  lemma CompleteWriteKeepsBonds(coords: seq<Vec3>, atomTypes: seq<string>, bonds: seq<Pair>, fixed3: Fixed3, parse: F64Parse)
    requires WrittenFile(coords, atomTypes, Some(bonds), fixed3).complete
    requires AtomsRead(WrittenAtomLines(coords, atomTypes, fixed3), parse)
    ensures ParseLines(WrittenFile(coords, atomTypes, Some(bonds), fixed3).lines, Atoms(parse), ConectPairs).Ok?
    ensures ParseLines(WrittenFile(coords, atomTypes, Some(bonds), fixed3).lines, Atoms(parse), ConectPairs).value.bonds == bonds
  {
    WriteThenParse(coords, atomTypes, Some(bonds), fixed3, parse);
    assert bonds[..|bonds|] == bonds;
  }
}
