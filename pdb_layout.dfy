/**
 * Where `write_pdb` puts the fields of an ATOM line, against the columns `parse_pdb` reads them
 * from (the PDB ATOM layout: x in columns 31-38, y in 39-46, z in 47-54, element in 77-78). The
 * written line has one column fewer before the coordinates and a separator between them, so x
 * and z are read one column off and the element one column early; `AlignedAtomLine` is the layout
 * the reader expects, and it reads back exactly.
 */
module PdbLayout {
  import opened Wrappers
  import opened Geometry
  import opened Text
  import opened PdbRecords
  import opened Pdb
  import opened PdbWrite

  /** The fixed columns between the atom type and x in the PDB layout: one more than `RESIDUE`. */
  const ALIGNED_RESIDUE: string := "  MOL     1    "

  /** An ATOM line in the PDB layout: the same fields, with the coordinates in adjacent 8-column fields. */
  function AlignedAtomLine(serial: nat, t: string, c: Vec3, fixed3: Fixed3): string
  {
    "ATOM  " + (PadLeft(Decimal(serial), 5) + " " + PadRight(t, 3) + ALIGNED_RESIDUE +
    PadLeft(fixed3(c.0), 8) + PadLeft(fixed3(c.1), 8) + PadLeft(fixed3(c.2), 8) +
    FACTORS + PadLeft(t, 2))
  }

  /** The columns of a written ATOM line whose fields have their usual widths. */
  lemma WrittenColumns(s: string, t: string, x: string, y: string, z: string, e: string)
    requires |s| == 5 && |t| == 3 && |x| == 8 && |y| == 8 && |z| == 8 && |e| == 2
    ensures var line := "ATOM  " + (s + " " + t + RESIDUE + x + " " + y + " " + z + FACTORS + e);
      |line| == 79 && line[30..38] == x[1..] + " " && line[38..46] == y &&
      line[46..54] == " " + z[..7] && line[76..78] == " " + e[..1]
  {
    var line := "ATOM  " + (s + " " + t + RESIDUE + x + " " + y + " " + z + FACTORS + e);
    var pre := "ATOM  " + (s + " " + t + RESIDUE);
    assert |pre| == 29;
    assert line == pre + x + " " + y + " " + z + FACTORS + e;
    assert line[30..38] == x[1..] + " ";
    assert line[46..54] == " " + z[..7];
    assert line[76..78] == " " + e[..1];
  }

  /** The columns of an ATOM line in the PDB layout. */
  lemma AlignedColumns(s: string, t: string, x: string, y: string, z: string, e: string)
    requires |s| == 5 && |t| == 3 && |x| == 8 && |y| == 8 && |z| == 8 && |e| == 2
    ensures var line := "ATOM  " + (s + " " + t + ALIGNED_RESIDUE + x + y + z + FACTORS + e);
      |line| == 78 && line[30..38] == x && line[38..46] == y && line[46..54] == z && line[76..78] == e
  {
    var line := "ATOM  " + (s + " " + t + ALIGNED_RESIDUE + x + y + z + FACTORS + e);
    var pre := "ATOM  " + (s + " " + t + ALIGNED_RESIDUE);
    assert |pre| == 30;
    assert line == pre + x + y + z + FACTORS + e;
  }

  /** Atom numbers below 100000 fill the five-column serial field exactly. */
  lemma SerialWidth(serial: nat)
    requires serial < 100000
    ensures |PadLeft(Decimal(serial), 5)| == 5
  {
    assert Pow10(5) == 100000 by {
      assert Pow10(0) == 1;
    }
    DecimalLength(serial, 5);
  }

  /** A word without surrounding whitespace, right-aligned in its field, trims back to itself. */
  lemma TrimPadded(w: string, width: nat)
    requires w == [] || (!IsWhitespace(w[0]) && !IsWhitespace(w[|w| - 1]))
    ensures Trim(PadLeft(w, width), IsWhitespace) == w
  {
    var sp := Spaces(|PadLeft(w, width)| - |w|);
    assert PadLeft(w, width) == sp + w + [];
    TrimFrame(sp, w, [], IsWhitespace);
  }

  /** A formatted number that fits its eight columns. */
  predicate Word8(w: string)
  {
    1 <= |w| <= 8 && NoneIn(w, IsWhitespace)
  }

  /** The three formatted coordinates each fit their columns. */
  predicate CoordinateWords(c: Vec3, fixed3: Fixed3)
  {
    Word8(fixed3(c.0)) && Word8(fixed3(c.1)) && Word8(fixed3(c.2))
  }

  /** What `{:>8.3}` must give for a coordinate to survive the round trip. */
  predicate Readable(v: real, fixed3: Fixed3, parse: F64Parse)
  {
    Word8(fixed3(v)) && parse(fixed3(v)) == Some(v)
  }

  /** An element symbol that fits its two columns. */
  predicate ElementSymbol(t: string)
  {
    1 <= |t| <= 2 && NoneIn(t, IsWhitespace)
  }

  /**
   * With the PDB layout, reading back a written ATOM line gives exactly the atom's coordinates and
   * element.
   */
  lemma AlignedRoundTrip(serial: nat, t: string, c: Vec3, fixed3: Fixed3, parse: F64Parse)
    requires serial < 100000 && ElementSymbol(t)
    requires Readable(c.0, fixed3, parse) && Readable(c.1, fixed3, parse) && Readable(c.2, fixed3, parse)
    ensures AtomOf(AlignedAtomLine(serial, t, c, fixed3), parse) == Ok((c, t))
  {
    var line := AlignedAtomLine(serial, t, c, fixed3);
    SerialWidth(serial);
    AlignedColumns(PadLeft(Decimal(serial), 5), PadRight(t, 3), PadLeft(fixed3(c.0), 8),
      PadLeft(fixed3(c.1), 8), PadLeft(fixed3(c.2), 8), PadLeft(t, 2));
    TrimPadded(fixed3(c.0), 8);
    TrimPadded(fixed3(c.1), 8);
    TrimPadded(fixed3(c.2), 8);
    TrimPadded(t, 2);
    AtomOfMeaning(line, parse);
  }

  /** Trimming a field read one column early: the word loses its last character. */
  lemma TrimEarly(w: string, width: nat)
    requires 1 <= |w| <= width && NoneIn(w, IsWhitespace)
    ensures Trim(" " + PadLeft(w, width)[..width - 1], IsWhitespace) == w[..|w| - 1]
  {
    var sp := Spaces(width - |w|);
    assert " " + PadLeft(w, width)[..width - 1] == " " + sp + w[..|w| - 1] + [];
    TrimFrame(" " + sp, w[..|w| - 1], [], IsWhitespace);
  }

  /** Trimming a field read one column late: the word loses its first character when it fills the field. */
  lemma TrimLate(w: string, width: nat)
    requires 1 <= |w| <= width && NoneIn(w, IsWhitespace)
    ensures Trim(PadLeft(w, width)[1..] + " ", IsWhitespace) == if |w| < width then w else w[1..]
  {
    var x := PadLeft(w, width);
    if |w| < width {
      var sp := Spaces(width - 1 - |w|);
      assert x[1..] + " " == sp + w + " ";
      TrimFrame(sp, w, " ", IsWhitespace);
    } else {
      assert x[1..] + " " == [] + w[1..] + " ";
      TrimFrame([], w[1..], " ", IsWhitespace);
    }
  }

  /**
   * As written, a one-letter element is read back as the empty string and a two-letter one as its
   * first letter.
   */
  lemma WrittenElementLost(serial: nat, t: string, c: Vec3, fixed3: Fixed3)
    requires serial < 100000 && ElementSymbol(t)
    requires CoordinateWords(c, fixed3)
    ensures |AtomLine(serial, t, c, fixed3)| == 79
    ensures Column(AtomLine(serial, t, c, fixed3), ELEMENT_COLUMNS) == t[..|t| - 1]
  {
    SerialWidth(serial);
    WrittenColumns(PadLeft(Decimal(serial), 5), PadRight(t, 3), PadLeft(fixed3(c.0), 8),
      PadLeft(fixed3(c.1), 8), PadLeft(fixed3(c.2), 8), PadLeft(t, 2));
    TrimEarly(t, 2);
  }

  /** As written, z is read without its last character: `1.234` comes back as `1.23`. */
  lemma WrittenZTruncated(serial: nat, t: string, c: Vec3, fixed3: Fixed3)
    requires serial < 100000 && ElementSymbol(t)
    requires CoordinateWords(c, fixed3)
    ensures |AtomLine(serial, t, c, fixed3)| == 79
    ensures Column(AtomLine(serial, t, c, fixed3), Z_COLUMNS) == fixed3(c.2)[..|fixed3(c.2)| - 1]
  {
    SerialWidth(serial);
    WrittenColumns(PadLeft(Decimal(serial), 5), PadRight(t, 3), PadLeft(fixed3(c.0), 8),
      PadLeft(fixed3(c.1), 8), PadLeft(fixed3(c.2), 8), PadLeft(t, 2));
    TrimEarly(fixed3(c.2), 8);
  }

  /** As written, x is read back whole only when it is shorter than its field: `-100.000` comes back as `100.000`. */
  lemma WrittenXShifted(serial: nat, t: string, c: Vec3, fixed3: Fixed3)
    requires serial < 100000 && ElementSymbol(t)
    requires CoordinateWords(c, fixed3)
    ensures |AtomLine(serial, t, c, fixed3)| == 79
    ensures Column(AtomLine(serial, t, c, fixed3), X_COLUMNS) ==
      if |fixed3(c.0)| < 8 then fixed3(c.0) else fixed3(c.0)[1..]
  {
    SerialWidth(serial);
    WrittenColumns(PadLeft(Decimal(serial), 5), PadRight(t, 3), PadLeft(fixed3(c.0), 8),
      PadLeft(fixed3(c.1), 8), PadLeft(fixed3(c.2), 8), PadLeft(t, 2));
    TrimLate(fixed3(c.0), 8);
  }

  /** A concrete case: carbon written at z = 1.234 reads back with no element and with z text `1.23`. */
  lemma CarbonReadBack()
    ensures var fixed3 := (v: real) => if v == 1.234 then "1.234" else "0.000";
      var line := AtomLine(1, "C", (0.0, 0.0, 1.234), fixed3);
      |line| == 79 && Column(line, ELEMENT_COLUMNS) == "" && Column(line, Z_COLUMNS) == "1.23"
  {
    var fixed3 := (v: real) => if v == 1.234 then "1.234" else "0.000";
    var c: Vec3 := (0.0, 0.0, 1.234);
    assert NoneIn("C", IsWhitespace) && NoneIn("1.234", IsWhitespace) && NoneIn("0.000", IsWhitespace);
    WrittenElementLost(1, "C", c, fixed3);
    WrittenZTruncated(1, "C", c, fixed3);
    assert "1.234"[..4] == "1.23";
  }
}
