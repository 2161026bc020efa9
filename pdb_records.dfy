/**
 * The PDB record kinds both readers recognise and the fixed column slices they cut from an
 * atom record, following the coordinate section of the wwPDB PDB file format version 3.3
 * (x in columns 31-38, y in 39-46, z in 47-54, element symbol in 77-78, 1-based).
 */
module PdbRecords {
  import opened Text

  /** 0-based, end-exclusive slice bounds of the coordinate and element columns. */
  const X_COLUMNS: (nat, nat) := (30, 38)
  const Y_COLUMNS: (nat, nat) := (38, 46)
  const Z_COLUMNS: (nat, nat) := (46, 54)
  const ELEMENT_COLUMNS: (nat, nat) := (76, 78)

  /** A coordinate record: the line starts with "ATOM" or "HETATM". */
  predicate IsAtomRecord(line: string)
  {
    StartsWith(line, "ATOM") || StartsWith(line, "HETATM")
  }

  /** A connectivity record: the line starts with "CONECT". */
  predicate IsConectRecord(line: string)
  {
    StartsWith(line, "CONECT")
  }

  /** No line is both kinds of record. */
  lemma RecordKindsDisjoint(line: string)
    ensures !(IsAtomRecord(line) && IsConectRecord(line))
  {
    if IsConectRecord(line) {
      assert line[0] == 'C';
    }
  }

  /** The coordinate records among lines, in file order. */
  function AtomRecords(lines: seq<string>): (records: seq<string>)
    ensures |records| <= |lines|
    ensures forall k :: 0 <= k < |records| ==> IsAtomRecord(records[k])
  {
    if lines == [] then []
    else AtomRecords(lines[..|lines| - 1]) + if IsAtomRecord(lines[|lines| - 1]) then [lines[|lines| - 1]] else []
  }

  /** Reading one more line adds it to the records exactly when it is a coordinate record. */
  lemma AtomRecordsStep(lines: seq<string>, i: nat)
    requires i < |lines|
    ensures AtomRecords(lines[..i + 1]) ==
      AtomRecords(lines[..i]) + if IsAtomRecord(lines[i]) then [lines[i]] else []
  {
    assert lines[..i + 1][..i] == lines[..i];
  }

  /** Every coordinate record of lines is selected. */
  lemma {:induction false} AtomRecordsComplete(lines: seq<string>, line: string)
    requires line in lines && IsAtomRecord(line)
    ensures line in AtomRecords(lines)
  {
    var front := lines[..|lines| - 1];
    if line != lines[|lines| - 1] {
      assert lines == front + [lines[|lines| - 1]];
      AtomRecordsComplete(front, line);
    }
  }

  /** The records of a prefix of the file are a prefix of the file's records. */
  lemma {:induction false} AtomRecordsPrefix(lines: seq<string>, i: nat)
    requires i <= |lines|
    ensures AtomRecords(lines[..i]) <= AtomRecords(lines)
  {
    if i < |lines| {
      var front := lines[..|lines| - 1];
      assert front[..i] == lines[..i];
      AtomRecordsPrefix(front, i);
    } else {
      assert lines[..i] == lines;
    }
  }

  /** The connectivity records among lines, in file order. */
  function ConectRecords(lines: seq<string>): (records: seq<string>)
    ensures |records| <= |lines|
    ensures forall k :: 0 <= k < |records| ==> IsConectRecord(records[k])
  {
    if lines == [] then []
    else ConectRecords(lines[..|lines| - 1]) + if IsConectRecord(lines[|lines| - 1]) then [lines[|lines| - 1]] else []
  }

  /** The connectivity records of two blocks of lines are those of the first, then those of the second. */
  lemma {:induction false} ConectRecordsAppend(a: seq<string>, b: seq<string>)
    ensures ConectRecords(a + b) == ConectRecords(a) + ConectRecords(b)
  {
    if b == [] {
      assert a + b == a;
    } else {
      var front := b[..|b| - 1];
      ConectRecordsAppend(a, front);
      assert (a + b)[..|a + b| - 1] == a + front;
    }
  }
}
