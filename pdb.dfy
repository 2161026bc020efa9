/**
 * The Rust PDB reader and writer (rust/src/pdb.rs): `parse_pdb`, which keeps the coordinates and
 * element of every ATOM/HETATM record and expands every CONECT record into bond pairs,
 * `write_pdb`, which writes one ATOM line per atom and optionally one CONECT line per bond, and
 * the `PdbFilePy` record. A panic (an `unwrap` on a bad field, an out-of-range slice, an index
 * underflow) is modelled as an error result that ends the parse.
 */
module Pdb {
  import opened Wrappers
  import opened Geometry
  import opened Text
  import opened PdbRecords
  import opened Pairs
  import ReferenceTables
  import Bonds

  /** `str::parse::<f64>()`: the value, or None where it fails. */
  type F64Parse = string -> Option<real>

  /** Why `parse_pdb` panics on a line. */
  datatype PdbError =
    | ShortAtomRecord   // `line[76..78]` on an atom record shorter than 78 characters
    | BadCoordinate     // a coordinate column that is not a float
    | MissingIndex      // a CONECT record without a first atom number
    | BadIndex          // an atom number that is not a `usize`
    | ZeroIndex         // atom number 0: `0 - 1` underflows

  /** The three lists `parse_pdb` builds. */
  datatype PdbData = PdbData(coords: seq<Vec3>, atomTypes: seq<string>, bonds: seq<Pair>)

  // ---- One atom record ----

  /** `line[lo..hi].trim()`. */
  function Column(line: string, cols: (nat, nat)): string
    requires cols.0 <= cols.1 <= |line|
  {
    Trim(line[cols.0..cols.1], IsWhitespace)
  }

  /** What an atom record contributes: its coordinate triple and its element, or the panic. */
  function AtomOf(line: string, parse: F64Parse): Result<(Vec3, string), PdbError>
  {
    if |line| < ELEMENT_COLUMNS.1 then Err(ShortAtomRecord)
    else
      var x, y, z := parse(Column(line, X_COLUMNS)), parse(Column(line, Y_COLUMNS)), parse(Column(line, Z_COLUMNS));
      if x.Some? && y.Some? && z.Some? then Ok(((x.value, y.value, z.value), Column(line, ELEMENT_COLUMNS)))
      else Err(BadCoordinate)
  }

  /** An atom record is read exactly when it is long enough and its three coordinate columns are floats. */
  lemma AtomOfMeaning(line: string, parse: F64Parse)
    ensures AtomOf(line, parse).Ok? <==>
      (78 <= |line| && parse(Column(line, (30, 38))).Some? &&
       parse(Column(line, (38, 46))).Some? && parse(Column(line, (46, 54))).Some?)
    ensures AtomOf(line, parse).Ok? ==>
      AtomOf(line, parse).value ==
        ((parse(Column(line, (30, 38))).value, parse(Column(line, (38, 46))).value, parse(Column(line, (46, 54))).value),
         Column(line, (76, 78)))
    ensures |line| < 78 ==> AtomOf(line, parse) == Err(ShortAtomRecord)
  {
  }

  // ---- One CONECT record ----

  /** `t.parse::<usize>().unwrap() - 1`: a 1-based atom number made 0-based. */
  function OneBased(token: string): Result<nat, PdbError>
  {
    match ParseUsize(token)
    case None => Err(BadIndex)
    case Some(v) => if v == 0 then Err(ZeroIndex) else Ok(v - 1)
  }

  /** A token converts exactly when it is a positive `usize`, to that number less one. */
  lemma OneBasedMeaning(token: string)
    ensures OneBased(token).Ok? <==> ParseUsize(token).Some? && ParseUsize(token).value >= 1
    ensures OneBased(token).Ok? ==> OneBased(token).value + 1 == ParseUsize(token).value
    ensures OneBased(token).Ok? ==> OneBased(token).value < USIZE_MAX
    ensures ParseUsize(token) == Some(0) ==> OneBased(token) == Err(ZeroIndex)
  {
  }

  /** Reads every item with f, in order; the first item f rejects ends the reading with its error. */
  function ReadAll<T>(items: seq<string>, f: string -> Result<T, PdbError>): (r: Result<seq<T>, PdbError>)
    ensures r.Ok? ==> |r.value| == |items|
  {
    if items == [] then Ok([])
    else
      match ReadAll(items[..|items| - 1], f)
      case Err(e) => Err(e)
      case Ok(vs) =>
        match f(items[|items| - 1])
        case Err(e) => Err(e)
        case Ok(v) => Ok(vs + [v])
  }

  /** The pairs `(from, t)` for every t of `to`, in order. */
  function Fan(from: nat, to: seq<nat>): (ps: seq<Pair>)
    ensures |ps| == |to| && forall k :: 0 <= k < |to| ==> ps[k] == (from, to[k])
  {
    if to == [] then [] else Fan(from, to[..|to| - 1]) + [(from, to[|to| - 1])]
  }

  /** How an atom number of a CONECT record is read. */
  type IndexReader = string -> Result<nat, PdbError>

  /**
   * The bonds of a CONECT record split into tokens `CONECT f t1 .. tk`: the pairs
   * `(f', t1') .. (f', tk')` of the atom numbers as read by index.
   */
  function ConectOf(tokens: seq<string>, index: IndexReader): Result<seq<Pair>, PdbError>
  {
    if |tokens| < 2 then Err(MissingIndex)
    else
      match index(tokens[1])
      case Err(e) => Err(e)
      case Ok(from) =>
        match ReadAll(tokens[2..], index)
        case Err(e) => Err(e)
        case Ok(to) => Ok(Fan(from, to))
  }

  /** The bonds a CONECT record adds: its whitespace-separated tokens, with 1-based atom numbers made 0-based. */
  function ConectPairs(line: string): Result<seq<Pair>, PdbError>
  {
    ConectOf(SplitWhitespace(line), OneBased)
  }

  /** Reading succeeds exactly when f accepts every item, and then holds f's values in order. */
  lemma {:induction false} ReadAllMeaning<T>(items: seq<string>, f: string -> Result<T, PdbError>)
    ensures ReadAll(items, f).Ok? <==> forall k :: 0 <= k < |items| ==> f(items[k]).Ok?
    ensures ReadAll(items, f).Ok? ==> forall k :: 0 <= k < |items| ==> ReadAll(items, f).value[k] == f(items[k]).value
  {
    if items != [] {
      var front := items[..|items| - 1];
      ReadAllMeaning(front, f);
      assert forall k :: 0 <= k < |front| ==> items[k] == front[k];
    }
  }

  /** Once an item is rejected, reading any longer list fails with the same error. */
  lemma {:induction false} ReadAllErrSticky<T>(items: seq<string>, more: seq<string>, f: string -> Result<T, PdbError>)
    requires ReadAll(items, f).Err?
    ensures ReadAll(items + more, f) == ReadAll(items, f)
  {
    if more == [] {
      assert items + more == items;
    } else {
      var front := more[..|more| - 1];
      ReadAllErrSticky(items, front, f);
      var all := items + more;
      assert all[..|all| - 1] == items + front;
    }
  }

  /**
   * A CONECT record `CONECT f t1 .. tk` is read exactly when it has a first atom number and every
   * atom number is read, and then gives the k pairs `(f', ti')` in order.
   */
  lemma ConectOfMeaning(tokens: seq<string>, index: IndexReader)
    ensures ConectOf(tokens, index).Ok? <==> |tokens| >= 2 && forall k :: 1 <= k < |tokens| ==> index(tokens[k]).Ok?
    ensures ConectOf(tokens, index).Ok? ==>
      |ConectOf(tokens, index).value| == |tokens| - 2 &&
      forall k :: 0 <= k < |tokens| - 2 ==>
        ConectOf(tokens, index).value[k] == (index(tokens[1]).value, index(tokens[k + 2]).value)
  {
    if |tokens| >= 2 {
      var rest := tokens[2..];
      ReadAllMeaning(rest, index);
      assert forall k :: 2 <= k < |tokens| ==> tokens[k] == rest[k - 2];
    }
  }

  /**
   * The CONECT branch of `parse_pdb`: skip the record name, take the first atom number, collect
   * the remaining ones in `to` with the `while let` loop, then push one pair per entry of `to`.
   */
  method ReadConect(line: string, index: IndexReader) returns (r: Result<seq<Pair>, PdbError>)
    ensures r == ConectOf(SplitWhitespace(line), index)
  {
    var split := SplitWhitespace(line);
    if |split| < 2 {
      return Err(MissingIndex);
    }
    var f := index(split[1]);
    if f.Err? {
      return Err(f.error);
    }
    var from := f.value;
    var rest := split[2..];
    var to: seq<nat> := [];
    var k := 0;
    while k < |rest|
      invariant 0 <= k <= |rest|
      invariant ReadAll(rest[..k], index) == Ok(to)
    {
      var t := index(rest[k]);
      assert rest[..k + 1][..k] == rest[..k];
      if t.Err? {
        ReadAllErrSticky(rest[..k + 1], rest[k + 1..], index);
        assert rest[..k + 1] + rest[k + 1..] == rest;
        return Err(t.error);
      }
      to := to + [t.value];
      k := k + 1;
    }
    assert rest[..k] == rest;
    var pushed: seq<Pair> := [];
    var m := 0;
    while m < |to|
      invariant 0 <= m <= |to|
      invariant pushed == Fan(from, to[..m])
    {
      assert to[..m + 1][..m] == to[..m];
      pushed := pushed + [(from, to[m])];
      m := m + 1;
    }
    assert to[..m] == to;
    return Ok(pushed);
  }

  // ---- The whole file ----

  /** How an atom record and a CONECT record are read. */
  type AtomReader = string -> Result<(Vec3, string), PdbError>
  type ConectReader = string -> Result<seq<Pair>, PdbError>

  /** The atom-record reader of `parse_pdb` for a given float parser. */
  function Atoms(parse: F64Parse): AtomReader
  {
    line => AtomOf(line, parse)
  }

  /** What reading one more line does to the lists built so far: only the two record kinds change them. */
  function ReadLine(d: PdbData, line: string, atom: AtomReader, conect: ConectReader): Result<PdbData, PdbError>
  {
    if IsAtomRecord(line) then
      match atom(line)
      case Err(e) => Err(e)
      case Ok((c, t)) => Ok(d.(coords := d.coords + [c], atomTypes := d.atomTypes + [t]))
    else if IsConectRecord(line) then
      match conect(line)
      case Err(e) => Err(e)
      case Ok(ps) => Ok(d.(bonds := d.bonds + ps))
    else Ok(d)
  }

  /** How one line changes the lists built so far. */
  type LineStep = (PdbData, string) -> Result<PdbData, PdbError>

  /** Reading the lines in order from empty lists with step; the first panic ends it. */
  function Fold(lines: seq<string>, step: LineStep): Result<PdbData, PdbError>
  {
    if lines == [] then Ok(PdbData([], [], []))
    else
      match Fold(lines[..|lines| - 1], step)
      case Err(e) => Err(e)
      case Ok(d) => step(d, lines[|lines| - 1])
  }

  /** The line step of `parse_pdb` for given record readers. */
  function Step(atom: AtomReader, conect: ConectReader): LineStep
  {
    (d, line) => ReadLine(d, line, atom, conect)
  }

  /** What `parse_pdb` reads from the lines of a file. */
  function ParseLines(lines: seq<string>, atom: AtomReader, conect: ConectReader): Result<PdbData, PdbError>
  {
    Fold(lines, Step(atom, conect))
  }

  /** Whether a line can be read without a panic. */
  predicate LineReads(line: string, atom: AtomReader, conect: ConectReader)
  {
    (IsAtomRecord(line) ==> atom(line).Ok?) && (IsConectRecord(line) ==> conect(line).Ok?)
  }

  /** The bonds of a sequence of CONECT records, record after record. */
  function ConectBonds(records: seq<string>, conect: ConectReader): seq<Pair>
  {
    if records == [] then []
    else
      var last := conect(records[|records| - 1]);
      ConectBonds(records[..|records| - 1], conect) + if last.Ok? then last.value else []
  }

  /** One line is read exactly when it can be read, and only a CONECT record adds bonds. */
  lemma ReadLineEffect(d: PdbData, line: string, atom: AtomReader, conect: ConectReader)
    ensures ReadLine(d, line, atom, conect).Ok? <==> LineReads(line, atom, conect)
    ensures ReadLine(d, line, atom, conect).Ok? ==>
      ReadLine(d, line, atom, conect).value.bonds == d.bonds + if IsConectRecord(line) then conect(line).value else []
  {
    RecordKindsDisjoint(line);
  }

  /** Once a line panics, so does reading any longer file. */
  lemma {:induction false} FoldErrSticky(lines: seq<string>, more: seq<string>, step: LineStep)
    requires Fold(lines, step).Err?
    ensures Fold(lines + more, step) == Fold(lines, step)
  {
    if more == [] {
      assert lines + more == lines;
    } else {
      var front := more[..|more| - 1];
      FoldErrSticky(lines, front, step);
      var all := lines + more;
      assert all[..|all| - 1] == lines + front;
    }
  }

  /** Reading the file up to line i, then line i. */
  lemma FoldStep(lines: seq<string>, i: nat, step: LineStep)
    requires i < |lines|
    ensures Fold(lines[..i + 1], step) ==
      match Fold(lines[..i], step)
      case Err(e) => Err(e)
      case Ok(d) => step(d, lines[i])
  {
    assert lines[..i + 1][..i] == lines[..i];
  }

  /** A line that panics ends the parse of the whole file with its error. */
  lemma FoldStops(lines: seq<string>, i: nat, step: LineStep, d: PdbData)
    requires i < |lines| && Fold(lines[..i], step) == Ok(d)
    requires step(d, lines[i]).Err?
    ensures Fold(lines, step) == step(d, lines[i])
  {
    var upto, rest := lines[..i + 1], lines[i + 1..];
    FoldStep(lines, i, step);
    FoldErrSticky(upto, rest, step);
    assert upto + rest == lines;
  }

  /**
   * The body of the line loop of `parse_pdb`: an ATOM/HETATM record adds one coordinate triple and
   * one element, a CONECT record adds its bond pairs, and any other line is skipped.
   */
  method ReadRecord(d: PdbData, line: string, parse: F64Parse) returns (r: Result<PdbData, PdbError>)
    ensures r == ReadLine(d, line, Atoms(parse), ConectPairs)
  {
    RecordKindsDisjoint(line);
    if IsAtomRecord(line) {
      var a := AtomOf(line, parse);
      if a.Err? {
        return Err(a.error);
      }
      return Ok(d.(coords := d.coords + [a.value.0], atomTypes := d.atomTypes + [a.value.1]));
    }
    if IsConectRecord(line) {
      var c := ReadConect(line, OneBased);
      if c.Err? {
        return Err(c.error);
      }
      return Ok(d.(bonds := d.bonds + c.value));
    }
    return Ok(d);
  }

  /**
   * `parse_pdb`: reads the lines in order, and the first panic ends the parse.
   */
  method ParsePdb(lines: seq<string>, parse: F64Parse) returns (r: Result<PdbData, PdbError>)
    ensures r == ParseLines(lines, Atoms(parse), ConectPairs)
  {
    var d := PdbData([], [], []);
    var i := 0;
    while i < |lines|
      invariant 0 <= i <= |lines|
      invariant Fold(lines[..i], Step(Atoms(parse), ConectPairs)) == Ok(d)
    {
      FoldStep(lines, i, Step(Atoms(parse), ConectPairs));
      var next := ReadRecord(d, lines[i], parse);
      if next.Err? {
        FoldStops(lines, i, Step(Atoms(parse), ConectPairs), d);
        return next;
      }
      d := next.value;
      i := i + 1;
    }
    assert lines[..i] == lines;
    return Ok(d);
  }

  /** The parse succeeds exactly when every line can be read. */
  lemma {:induction false} ParseLinesOk(lines: seq<string>, atom: AtomReader, conect: ConectReader)
    ensures ParseLines(lines, atom, conect).Ok? <==> forall k :: 0 <= k < |lines| ==> LineReads(lines[k], atom, conect)
  {
    if lines != [] {
      var front := lines[..|lines| - 1];
      ParseLinesOk(front, atom, conect);
      assert forall k :: 0 <= k < |front| ==> lines[k] == front[k];
      if ParseLines(front, atom, conect).Ok? {
        ReadLineEffect(ParseLines(front, atom, conect).value, lines[|lines| - 1], atom, conect);
      }
    }
  }

  /**
   * A successful parse holds one coordinate triple and one element per ATOM/HETATM record, in
   * file order, each read from that record.
   */
  lemma {:induction false} ParseLinesAtoms(lines: seq<string>, atom: AtomReader, conect: ConectReader)
    requires ParseLines(lines, atom, conect).Ok?
    ensures var d := ParseLines(lines, atom, conect).value;
      |d.coords| == |AtomRecords(lines)| && |d.atomTypes| == |d.coords| &&
      forall k :: 0 <= k < |d.coords| ==> atom(AtomRecords(lines)[k]) == Ok((d.coords[k], d.atomTypes[k]))
  {
    if lines != [] {
      var front := lines[..|lines| - 1];
      ParseLinesAtoms(front, atom, conect);
    }
  }

  /**
   * A successful parse holds the bonds of the CONECT records, record after record, each record's
   * pairs in token order; duplicates and reversed pairs are kept.
   */
  lemma {:induction false} ParseLinesBonds(lines: seq<string>, atom: AtomReader, conect: ConectReader)
    requires ParseLines(lines, atom, conect).Ok?
    ensures ParseLines(lines, atom, conect).value.bonds == ConectBonds(ConectRecords(lines), conect)
  {
    if lines != [] {
      var front := lines[..|lines| - 1];
      ParseLinesBonds(front, atom, conect);
      ReadLineEffect(ParseLines(front, atom, conect).value, lines[|lines| - 1], atom, conect);
      var last := lines[|lines| - 1];
      var records := ConectRecords(lines);
      if IsConectRecord(last) {
        assert records == ConectRecords(front) + [last];
        assert records[..|records| - 1] == ConectRecords(front);
      } else {
        assert records == ConectRecords(front);
      }
    }
  }
}
