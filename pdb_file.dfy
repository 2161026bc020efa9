/**
 * The `PdbFilePy` record of rust/src/pdb.rs: the three lists of a PDB file, built by `new` or by
 * `parse`, with `set_bonds` replacing the bond list in place, `write` writing the file (with or
 * without its bonds) and `determine_bonds` classifying the atom pairs of its coordinates.
 */
module PdbFiles {
  import opened Wrappers
  import opened Geometry
  import opened ReferenceTables
  import opened Pairs
  import opened Pdb
  import opened PdbWrite
  import Bonds

  class PdbFile {
    var coords: seq<Vec3>
    var atomTypes: seq<string>
    var bonds: seq<Pair>

    /** The three lists as one value. */
    function Data(): PdbData
      reads this
    {
      PdbData(coords, atomTypes, bonds)
    }

    /** `new`: the lists exactly as given; nothing checks that they agree in length. */
    constructor (coords: seq<Vec3>, atomTypes: seq<string>, bonds: seq<Pair>)
      ensures this.coords == coords && this.atomTypes == atomTypes && this.bonds == bonds
    {
      this.coords := coords;
      this.atomTypes := atomTypes;
      this.bonds := bonds;
    }

    /** `parse`: a new record holding what `parse_pdb` reads from the lines, or its panic. */
    static method Parse(lines: seq<string>, parse: F64Parse) returns (r: Result<PdbFile, PdbError>)
      ensures ParseLines(lines, Atoms(parse), ConectPairs).Err? ==>
        r == Err(ParseLines(lines, Atoms(parse), ConectPairs).error)
      ensures ParseLines(lines, Atoms(parse), ConectPairs).Ok? ==>
        r.Ok? && fresh(r.value) && r.value.Data() == ParseLines(lines, Atoms(parse), ConectPairs).value
    {
      var d := ParsePdb(lines, parse);
      if d.Err? {
        return Err(d.error);
      }
      var f := new PdbFile(d.value.coords, d.value.atomTypes, d.value.bonds);
      return Ok(f);
    }

    /** `set_bonds`: the bond list is replaced; coordinates and types are kept. */
    method SetBonds(bonds: seq<Pair>)
      modifies this
      ensures this.bonds == bonds
      ensures coords == old(coords) && atomTypes == old(atomTypes)
    {
      this.bonds := bonds;
    }

    /** `write`: `write_pdb` of the record's lists, with its bonds only when `writeBonds` is set. */
    method Write(writeBonds: bool, fixed3: Fixed3) returns (w: Written)
      ensures w == WrittenFile(coords, atomTypes, if writeBonds then Some(bonds) else None, fixed3)
    {
      w := WritePdb(coords, atomTypes, if writeBonds then Some(bonds) else None, fixed3);
    }

    /** `determine_bonds`: the classification of every atom pair of the record's coordinates. */
    method DetermineBonds(t: ReferenceTables) returns (confirmed: seq<Pair>, near: seq<Pair>, missing: set<(string, string)>)
      requires Bonds.TypesCover(coords, atomTypes)
      ensures forall p :: p in confirmed <==> p.0 < p.1 < |coords| && Bonds.ClassOf(coords, atomTypes, t, p) == Bonds.Confirmed
      ensures forall p :: p in near <==> p.0 < p.1 < |coords| && Bonds.ClassOf(coords, atomTypes, t, p) == Bonds.Near
      ensures forall m :: m in missing <==>
        exists p: Pair :: p.0 < p.1 < |coords| &&
          Bonds.ClassOf(coords, atomTypes, t, p) == Bonds.Missing && m == (atomTypes[p.0], atomTypes[p.1])
      ensures StrictlyOrdered(confirmed) && StrictlyOrdered(near)
    {
      confirmed, near, missing := Bonds.DetermineBonds(coords, atomTypes, t);
    }
  }
}
