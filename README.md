# amphiquantic core, modelled in Dafny

amphiquantic is a molecular-structure toolkit. It reads and writes PDB files, finds bonds by
comparing interatomic distances against a table of reference bond lengths, and hands positions
to GPU compute shaders for relaxation, energy minimisation and simulation. This project models
the non-GPU logic of that core and proves what it promises.

- **Bond determination.** `determine_bonds` in the Rust library (`Bonds`), its copy in the
  viewer crate (`PdbvizBonds`) and the older Python version (`PyPdb`). Every unordered atom pair
  `i < j` is classified against the range table (key `"A-B"`, then `"B-A"`). The average table is
  used only when the range table has no entry. The result is the confirmed pairs, the near pairs
  and the set of type pairs that have no reference entry.
- **Reference tables** (`ReferenceTables`). The average table is `(min + max) / 2` over the range
  table's keys. The bond-file path is built from the data directory. Because both tables share the
  same keys, the near category can never fire, and the near list is always empty.
- **PDB records.**
  - `PdbRecords` holds the record kinds and their column positions.
  - `Pdb` is the Rust `parse_pdb`. It reads ATOM/HETATM columns and expands CONECT records into
    0-based bond pairs.
  - `PdbWrite` is `write_pdb`. It writes ATOM lines and, optionally, one CONECT line per bond.
    The CONECT write-then-parse round trip is proved.
  - `PdbFiles` is the `PdbFilePy` record, modelled as a class.
  - `PdbLayout` shows that the written ATOM columns do not line up with the parser's (see
    Findings).
- **Compute-pass encoding.**
  - `Gpu` holds the work-group count, little-endian words, and a mappable buffer class whose
    methods follow wgpu's mapping rules and log each step.
  - `ComputePipeline` is `run_atom_pipeline`: shader selection, the parameter, bond and
    atom-type bytes, and the copy, map, view, drop and unmap order.
  - `Minimization` is `minimize_energy`: the f32 flattening, the `chunks(3)` regrouping, and
    `coords` replaced only when the readback succeeds.

The GPU kernels, float parsing and formatting, and the `f64 -> f32` cast are function-typed
parameters. Whether the mapping succeeded is a `bool` parameter. Coordinates are reals.
Distances are compared exactly, on the squared distance (`Geometry`).

Every Rust panic inside the modelled code becomes an `Err` result that ends the operation. This
covers `unwrap` on a bad field, an out-of-range slice, `0 - 1`, `panic!` and the `u32` overflow
of the work-group count (as in a debug build). The Rust code panics on these paths; it returns
no error values.

## Model

| member | source | states |
|---|---|---|
| Geometry.SquaredDistance | rust/src/bonds.rs:20-22 | the squared distance is never negative |
| Geometry.SquaredDistanceSymmetric | rust/src/bonds.rs:20-22 | the distance of (i, j) is the distance of (j, i) |
| Geometry.RootWithinMeaning | rust/src/bonds.rs:25 | testing `min <= sqrt(s) <= max` on the square `s = d*d` gives exactly `min <= d <= max` |
| Geometry.SquareOrder | rust/src/bonds.rs:25 | on non-negative reals, `a <= b` exactly when `a*a <= b*b` |
| ReferenceTables.Midpoint | rust/src/utilities/bonds.rs:31 | the average is equidistant from min and max, and lies between them when min <= max |
| ReferenceTables.Averages | rust/src/utilities/bonds.rs:28-34 | the derived table has exactly the range table's keys, each mapped to the midpoint of its range |
| ReferenceTables.DeriveAverages | rust/src/utilities/bonds.rs:28-34 | the insertion loop builds a table with exactly the range keys and midpoint values |
| ReferenceTables.AveragesUnique | rust/src/utilities/bonds.rs:30-31 | any two tables derived from the same ranges are equal, so iteration order does not matter |
| ReferenceTables.AverageInsideRange | rust/src/utilities/bonds.rs:31 | a derived average of a well-ordered range lies inside that range |
| ReferenceTables.LookupAgrees | rust/src/bonds.rs:24-30 | with derived averages, the forward-then-reverse lookup finds an average exactly when it finds a range, and the average is that range's midpoint |
| ReferenceTables.BondDistancesPath | rust/src/utilities/bonds.rs:37-40 | the path is the data directory followed by "/bond_distances.yml", and nothing else |
| ReferenceTables.DataPathOf | rust/src/utilities/bonds.rs:39 | a directory recovered from a path rebuilds that path |
| ReferenceTables.BondDistancesPathRoundTrip | rust/src/utilities/bonds.rs:37-40 | the path determines the data directory it was built from |
| Bonds.ClassifyByDistance | rust/src/bonds.rs:24-37 | confirmed iff a range is found and min <= d <= max; out of range iff a range is found and d is outside; near iff no range is found, an average is, and abs(d - avg) <= 0.2; missing iff neither is found |
| Bonds.NearNeverWithDerivedAverages | rust/src/bonds.rs:29-33 | with averages derived from the ranges, no pair is near or dropped as not near |
| Bonds.ClassifySymmetric | rust/src/bonds.rs:19-24 | when the table does not store two orientations with different values, swapping the types keeps the outcome |
| Bonds.ForwardKeyWins | rust/src/bonds.rs:24 | when both "C-O" and "O-C" are stored, the "C-O" entry decides: types (C, O) and (O, C) at the same distance get different outcomes |
| Bonds.ScanAdvance | rust/src/bonds.rs:18-37 | visiting one more pair appends it to the output of its class only |
| Bonds.VisitPair | rust/src/bonds.rs:19-37 | the body of the inner loop records the pair in the output its class selects and nowhere else |
| Bonds.RowVisitMeaning | rust/src/bonds.rs:18 | visiting a row in order gives what the scan yields over the pairs visited so far, followed by that row |
| Bonds.RowDone | rust/src/bonds.rs:17-18 | after row i, the outputs are the scan over all pairs with first index at most i |
| Bonds.ScanRow | rust/src/bonds.rs:18-38 | the inner loop over j extends the outputs with row i in order |
| Bonds.DetermineBonds | rust/src/bonds.rs:7-42 | confirmed and near hold exactly the pairs i < j < N of that class, strictly increasing in (i, j) with no duplicates; missing holds exactly the ordered type tuples of unlisted pairs; near is empty when averages are derived |
| Bonds.OutcomeListShape | rust/src/bonds.rs:17-18 | the pairs of any one class, in loop order, are strictly increasing and are exactly the pairs i < j < N of that class |
| Bonds.MissingShape | rust/src/bonds.rs:35 | a type tuple is missing iff some pair i < j < N with exactly those types, in that order, has neither entry |
| Bonds.NoNearWithDerivedAverages | rust/src/bonds.rs:29 | with the averages derived from the ranges, the near list is empty |
| PdbvizBonds.AsArrays | pdbviz/src/bonds.rs:54 | each pair becomes a two-element array holding the same indices, in the same order |
| PdbvizBonds.ArraysRoundTrip | pdbviz/src/bonds.rs:54 | no information is lost by returning `[i, j]` instead of `(i, j)`: reading each array back as a pair (the helper `AsPairs`, which no source code performs) gives the original pairs |
| PdbvizBonds.MissingMeansNoRange | pdbviz/src/bonds.rs:52-64 | with derived averages, a pair is missing exactly when neither key has a range entry |
| PdbvizBonds.ConfirmedArrays | pdbviz/src/bonds.rs:45-54 | each array `[i, j]` has i < j < N and is confirmed; every confirmed pair is present; the arrays are in strictly increasing lexicographic order |
| PdbvizBonds.DetermineBonds | pdbviz/src/bonds.rs:24-70 | the viewer's arrays hold exactly the confirmed pairs, in order; near is empty; missing is exactly the type tuples with no range entry |
| PyPdb.PySlice | amphiquantic/file/pdb/__main__.py:17 | Python slicing clamps both bounds to the line, and is an ordinary slice when the line is long enough |
| PyPdb.ShortLineElement | amphiquantic/file/pdb/__main__.py:17 | a line of at most 76 characters has the empty element, with no error |
| PyPdb.PyAtomMeaning | amphiquantic/file/pdb/__main__.py:16-22 | an atom line is read exactly when its three coordinate columns are floats, and then gives those floats and the stripped element |
| PyPdb.ReadAtom | amphiquantic/file/pdb/__main__.py:17-22 | one atom line yields its coordinate triple and its stripped element, or nothing when a column is not a float |
| PyPdb.ParseRecords | amphiquantic/file/pdb/__main__.py:15-22 | a successful parse yields as many coordinates as atom types, one of each per record |
| PyPdb.ParseRecordsErrSticky | amphiquantic/file/pdb/__main__.py:18-20 | once a float conversion raises, no further records make the parse succeed |
| PyPdb.ParseRecordsMeaning | amphiquantic/file/pdb/__main__.py:15-22 | the parse succeeds exactly when every record converts, and then holds each record's triple and element at that record's position |
| PyPdb.ParseStep | amphiquantic/file/pdb/__main__.py:15-22 | one more line appends exactly one triple and one element when it is an ATOM/HETATM record, and nothing otherwise |
| PyPdb.ParseRejectsLast | amphiquantic/file/pdb/__main__.py:18-20 | a final record that does not convert makes the parse fail |
| PyPdb.ParsePrefixErr | amphiquantic/file/pdb/__main__.py:18-20 | a failing prefix makes the whole parse fail |
| PyPdb.ParseAborts | amphiquantic/file/pdb/__main__.py:16-20 | a single atom record whose columns are not floats makes the whole file fail |
| PyPdb.ParsePdb | amphiquantic/file/pdb/__main__.py:11-23 | the line loop keeps exactly the ATOM/HETATM records and reads each in file order |
| PyPdb.ParsePdbMeaning | amphiquantic/file/pdb/__main__.py:11-23 | the file parses iff every atom record has float columns; the outputs then have equal length, and each position holds its record's coordinates and element |
| PyPdb.PyScanAdvance | amphiquantic/file/pdb/__main__.py:35-47 | visiting one more pair appends it to bonds when in range, adds its tuple to missing when it is unlisted, and otherwise changes nothing |
| PyPdb.VisitPair | amphiquantic/file/pdb/__main__.py:36-47 | the body for one pair: the tuple key first, then the reversed key; append on a hit in range, add the ordered tuple on a miss |
| PyPdb.RowVisitMeaning | amphiquantic/file/pdb/__main__.py:35 | visiting a row in order gives the scan over the pairs so far, followed by that row |
| PyPdb.RowDone | amphiquantic/file/pdb/__main__.py:34-35 | after row i, the outputs are the scan over all pairs with first index at most i |
| PyPdb.ScanRow | amphiquantic/file/pdb/__main__.py:35-47 | the inner loop extends the outputs with row i in order |
| PyPdb.DetermineBonds | amphiquantic/file/pdb/__main__.py:26-49 | bonds holds exactly the in-range pairs i < j, in loop order; missing holds exactly the ordered tuples of the unlisted pairs |
| PyPdb.BondsShape | amphiquantic/file/pdb/__main__.py:34-44 | bonds is strictly increasing, and a pair is in it iff i < j < N, a range is found under (ti, tj) or else (tj, ti), and the distance lies inside it |
| PyPdb.MissingShape | amphiquantic/file/pdb/__main__.py:45-47 | a tuple is missing iff some pair with those types, in that order, has neither key; the line-46 guard never blocks the add |
| PyPdb.AgreesWithStringKeys | amphiquantic/file/pdb/__main__.py:37-42 | on a tuple table and a string table holding the same entries, the tuple lookup finds what the Rust "A-B"/"B-A" lookup finds |
| Text.StartsWithAppend | rust/src/pdb.rs:31 | a line that starts with a prefix still does after text is appended |
| Text.Trim | rust/src/pdb.rs:32 | the trimmed string is a slice of the input that starts after the leading whitespace and neither starts nor ends with whitespace |
| Text.TrimmedSuffix | rust/src/pdb.rs:32 | only whitespace follows the trimmed string in the input |
| Text.TrimFrame | rust/src/pdb.rs:32-35 | trimming a word framed by whitespace gives the word |
| Text.TrimNoFrame | rust/src/pdb.rs:32 | a word that neither starts nor ends with whitespace is its own trim |
| Text.PadLeft | rust/src/pdb.rs:109 | `{:>w}` is the text preceded by just enough spaces to fill the width |
| Text.PadRight | rust/src/pdb.rs:109 | `{:<w}` is the text followed by just enough spaces to fill the width |
| Text.SplitWhitespace | rust/src/pdb.rs:41 | every token is non-empty and contains no whitespace |
| Text.SplitSkipsWhitespace | rust/src/pdb.rs:41 | leading whitespace produces no token |
| Text.SplitTakesWord | rust/src/pdb.rs:41 | a word followed by whitespace or the end of the line is the next token |
| Text.SplitTakesField | rust/src/pdb.rs:41 | a padded field of a written line splits back into the field itself |
| Text.Decimal | rust/src/pdb.rs:113 | the decimal form of a number is a non-empty run of digits with no leading zero |
| Text.DecimalValue | rust/src/pdb.rs:113 | the digits of a number's decimal form have that number's value |
| Text.DecimalLength | rust/src/pdb.rs:109 | a number below 10^k has at most k digits |
| Text.ParseUsize | rust/src/pdb.rs:43 | `parse::<usize>` succeeds only on text with a digit, and yields at most usize::MAX |
| Text.ParseDecimal | rust/src/pdb.rs:43 | `parse::<usize>` reads the decimal form of every usize back as that number |
| Text.ParseOverflow | rust/src/pdb.rs:43 | the decimal form of a number above usize::MAX does not parse |
| Text.ParseUsizeSigns | rust/src/pdb.rs:43 | the empty text, a lone "+" and "-1" are rejected; "+7" reads as 7 |
| PdbRecords.RecordKindsDisjoint | rust/src/pdb.rs:31-40 | no line is both an atom record and a CONECT record, so a line is handled by at most one branch |
| PdbRecords.AtomRecords | rust/src/pdb.rs:31 | the selected records are ATOM/HETATM lines, and there are no more of them than lines |
| PdbRecords.AtomRecordsStep | rust/src/pdb.rs:28-31 | one more line adds itself to the records exactly when it is an atom record |
| PdbRecords.AtomRecordsComplete | rust/src/pdb.rs:31 | every atom record of the file is selected |
| PdbRecords.AtomRecordsPrefix | rust/src/pdb.rs:28-31 | the records of a prefix of the file are a prefix of the file's records (file order is kept) |
| PdbRecords.ConectRecords | rust/src/pdb.rs:40 | the selected records are CONECT lines |
| PdbRecords.ConectRecordsAppend | rust/src/pdb.rs:28-40 | the CONECT records of two blocks are the first block's, followed by the second block's |
| Pdb.AtomOfMeaning | rust/src/pdb.rs:31-37 | an atom record is read iff it has at least 78 characters and its columns 30..38, 38..46 and 46..54 parse as floats; it then yields those floats and the trimmed columns 76..78; a shorter line is an error |
| Pdb.OneBasedMeaning | rust/src/pdb.rs:43-46 | a token converts iff it is a usize of at least 1, and then to that number less one; "0" underflows |
| Pdb.ReadAll | rust/src/pdb.rs:45-47 | a successful read yields one value per token |
| Pdb.ReadAllMeaning | rust/src/pdb.rs:45-47 | the `while let` loop succeeds iff every token converts, and then keeps each converted token in order |
| Pdb.ReadAllErrSticky | rust/src/pdb.rs:46 | a failing token ends the reading; later tokens change nothing |
| Pdb.Fan | rust/src/pdb.rs:48-50 | the pushed pairs are `(from, t)` for each t in order, one per t |
| Pdb.ConectOfMeaning | rust/src/pdb.rs:40-50 | `CONECT f t1 .. tk` is read iff f is present and every number converts, and then yields exactly the k pairs `(f-1, ti-1)`, in order |
| Pdb.ReadConect | rust/src/pdb.rs:40-50 | the CONECT branch, with its `while let` loop and push loop, computes the record's pairs or its panic |
| Pdb.ReadLineEffect | rust/src/pdb.rs:28-51 | one line is read iff its branch does not panic, and only a CONECT record adds bonds, appending its pairs |
| Pdb.FoldErrSticky | rust/src/pdb.rs:28-29 | a panic on a line ends the parse of any longer file with that panic |
| Pdb.FoldStep | rust/src/pdb.rs:28 | the lines are read in file order, each applied to what the earlier lines built |
| Pdb.FoldStops | rust/src/pdb.rs:28-51 | a line that panics decides the result of the whole file |
| Pdb.ReadRecord | rust/src/pdb.rs:29-51 | the loop body: an atom record appends one triple and one element; a CONECT record appends its pairs; other lines change nothing |
| Pdb.ParsePdb | rust/src/pdb.rs:21-59 | the line loop computes what the line-by-line reading of the file gives |
| Pdb.ParseLinesOk | rust/src/pdb.rs:28-51 | the parse succeeds exactly when every line can be read |
| Pdb.ParseLinesAtoms | rust/src/pdb.rs:31-37 | a successful parse holds one triple and one element per ATOM/HETATM record, equal in number and in file order, each read from its record |
| Pdb.ParseLinesBonds | rust/src/pdb.rs:40-51 | the bonds are the CONECT records' pairs, record after record in file order, with duplicates and reversed pairs kept |
| PdbWrite.WritableBonds | rust/src/pdb.rs:112-113 | counts the leading bonds whose `from + 1` and `to + 1` do not overflow; the next bond, if any, overflows |
| PdbWrite.Lines | rust/src/pdb.rs:107-113 | the writer emits one line per item |
| PdbWrite.AtomLines | rust/src/pdb.rs:107-110 | one ATOM line per atom written |
| PdbWrite.ConectLines | rust/src/pdb.rs:112-113 | one CONECT line per bond written |
| PdbWrite.WritePdb | rust/src/pdb.rs:104-116 | the writer's loops emit the ATOM lines, numbered i + 1, then, when bonds are given, one CONECT line per bond in order; they stop at an out-of-range type index or an overflowing bond |
| PdbWrite.WriteConects | rust/src/pdb.rs:111-115 | the CONECT loop writes exactly the bonds before the first overflowing one, and reports whether it wrote them all |
| PdbWrite.LinesAt | rust/src/pdb.rs:107-113 | line k is the line written for item k |
| PdbWrite.AtomLineKind | rust/src/pdb.rs:109 | a written ATOM line is an atom record and not a CONECT record |
| PdbWrite.ConectLineKind | rust/src/pdb.rs:113 | a written CONECT line is a CONECT record and not an atom record |
| PdbWrite.WrittenFileShape | rust/src/pdb.rs:104-116 | the file is the ATOM lines followed by the CONECT lines, with none when bonds are omitted |
| PdbWrite.PairTextTokens | rust/src/pdb.rs:113 | a written CONECT line splits into exactly the record name and the two numbers (split by rust/src/pdb.rs:41) |
| PdbWrite.ConectOfOne | rust/src/pdb.rs:40-50 | a CONECT record with exactly two numbers yields exactly one pair |
| PdbWrite.OneBasedDecimal | rust/src/pdb.rs:113 | the text of `n` for 1 <= n <= usize::MAX converts back to n - 1 (converted by rust/src/pdb.rs:43) |
| PdbWrite.ConectTextRoundTrip | rust/src/pdb.rs:113 | a CONECT line of two index tokens reads back as the one pair they denote (read back by rust/src/pdb.rs:40-50) |
| PdbWrite.ConectLineRoundTrip | rust/src/pdb.rs:113 | the CONECT line written for a bond reads back as exactly that bond (read back by rust/src/pdb.rs:40-50) |
| PdbWrite.AtomKindLines | rust/src/pdb.rs:107-110 | lines that are all atom records are all selected as atom records, and none as CONECT records (selected by rust/src/pdb.rs:31) |
| PdbWrite.ConectKindLines | rust/src/pdb.rs:111-115 | lines that are all CONECT records are all selected as CONECT records, and none as atom records (selected by rust/src/pdb.rs:40) |
| PdbWrite.LinesReadBack | rust/src/pdb.rs:113 | one line per bond, each reading back as its bond, reads back as the bond list (read back by rust/src/pdb.rs:48-50) |
| PdbWrite.ConectLinesRoundTrip | rust/src/pdb.rs:113 | parsing the CONECT lines written for a bond list yields exactly that list, in order (read back by rust/src/pdb.rs:40-50) |
| PdbWrite.AtomRecordsAppend | rust/src/pdb.rs:28-31 | the atom records of two blocks are the first block's, followed by the second block's |
| PdbWrite.ConectBondsAppend | rust/src/pdb.rs:40-50 | the bonds of two blocks of CONECT records are the first block's, followed by the second block's |
| PdbWrite.WrittenRecords | rust/src/pdb.rs:104-116 | a written file's atom records are its ATOM lines, and its CONECT records are its CONECT lines |
| PdbWrite.ConectFileParses | rust/src/pdb.rs:111-115 | CONECT lines written for bonds whose numbers fit always parse, to exactly those bonds, in order, and no atoms (read back by rust/src/pdb.rs:21-59) |
| PdbWrite.AtomLinesParse | rust/src/pdb.rs:107-110 | the ATOM lines written parse exactly when each of them reads as an atom; they add no bonds (read back by rust/src/pdb.rs:31-37) |
| PdbWrite.ConectLinesParse | rust/src/pdb.rs:111-115 | the CONECT lines a write leaves always parse, including those of a write cut short by an overflowing atom number (read back by rust/src/pdb.rs:40-50) |
| PdbWrite.WrittenLines | rust/src/pdb.rs:104-116 | a written file is its ATOM lines followed by the CONECT lines of the bonds written before any panic |
| PdbWrite.WrittenFileParses | rust/src/pdb.rs:104-116 | a written file parses exactly when its ATOM lines read as atoms; the CONECT lines never make the parse panic (read back by rust/src/pdb.rs:21-59) |
| PdbWrite.WriteThenParse | rust/src/pdb.rs:104-116 | when the ATOM lines written read as atoms, the file parses, with one atom per ATOM line written, each read from its own line, and exactly the bonds written, in order; none when bonds are omitted or an atom lacks a type (read back by rust/src/pdb.rs:21-59) |
| PdbWrite.CompleteWriteKeepsBonds | rust/src/pdb.rs:111-115 | a complete write with bonds whose ATOM lines read as atoms parses, with exactly those bonds (read back by rust/src/pdb.rs:40-51) |
| PdbFiles.PdbFile.constructor | rust/src/pdb.rs:120-127 | `new` stores its three arguments verbatim |
| PdbFiles.PdbFile.Parse | rust/src/pdb.rs:130-133 | a fresh record holding what `parse_pdb` reads, or that parse's panic |
| PdbFiles.PdbFile.SetBonds | rust/src/pdb.rs:144-146 | the bonds are replaced; coordinates and atom types are unchanged |
| PdbFiles.PdbFile.Write | rust/src/pdb.rs:148-150 | writes the record's atoms, with its bonds exactly when asked to |
| PdbFiles.PdbFile.DetermineBonds | rust/src/pdb.rs:140-142 | confirmed and near hold exactly the pairs of that class among the record's atoms, in order; missing holds the unlisted type tuples |
| PdbLayout.WrittenColumns | rust/src/pdb.rs:109 | a written line is 79 characters long; the parser's x window sees the x field from its second character, its y window sees y exactly, its z window sees z without its last character, and its element window sees only the element's first character |
| PdbLayout.AlignedColumns | rust/src/pdb.rs:32-35 | in the corrected line, x, y and z sit at 30..38, 38..46 and 46..54, and the element at 76..78 |
| PdbLayout.SerialWidth | rust/src/pdb.rs:109 | a serial below 100000 fills exactly five columns |
| PdbLayout.TrimPadded | rust/src/pdb.rs:32-35 | trimming a right-aligned field gives the field |
| PdbLayout.AlignedRoundTrip | rust/src/pdb.rs:31-37 | a corrected ATOM line reads back with its exact coordinates and element |
| PdbLayout.TrimEarly | rust/src/pdb.rs:32-35 | a window that is one column early loses the field's last character |
| PdbLayout.TrimLate | rust/src/pdb.rs:32-35 | a window one column late keeps a short field whole, but loses the first character of a full-width one |
| PdbLayout.WrittenElementLost | rust/src/pdb.rs:109 | the element read back from a written line loses its last character (a one-letter element reads as "") (read back by rust/src/pdb.rs:32) |
| PdbLayout.WrittenZTruncated | rust/src/pdb.rs:109 | the z column read back loses the last character of the written value (read back by rust/src/pdb.rs:35) |
| PdbLayout.WrittenXShifted | rust/src/pdb.rs:109 | x reads back whole only when its text is shorter than 8 characters; a full-width x loses its first character (read back by rust/src/pdb.rs:33) |
| PdbLayout.CarbonReadBack | rust/src/pdb.rs:109 | a carbon atom at z = 1.234 is written and reads back with element "" (read back by rust/src/pdb.rs:31-37) |
| Gpu.AsU32 | rust/src/compute_pipeline.rs:189 | `as u32` keeps every count below 2^32 unchanged |
| Gpu.WorkGroupsCover | rust/src/compute_pipeline.rs:189 | `(n + 63) / 64` is the least g with 64g >= n, and it is 0 iff n = 0 |
| Gpu.WorkGroupsOverflow | rust/src/compute_pipeline.rs:189 | the u32 addition overflows exactly for the top 63 truncated counts |
| Gpu.WorkGroupsTruncated | rust/src/compute_pipeline.rs:189 | only the low 32 bits of the count matter, so 2^32 atoms dispatch no groups |
| Gpu.Le32 | rust/src/compute_pipeline.rs:93 | a u32 occupies four bytes |
| Gpu.Le32RoundTrip | rust/src/compute_pipeline.rs:93 | the four bytes of a word read back as that word |
| Gpu.Le32Decode | rust/src/compute_pipeline.rs:93 | every four bytes are the encoding of the word they hold |
| Gpu.MappableBuffer.constructor | rust/src/compute_pipeline.rs:64-75 | a created buffer holds its contents, is unmapped, has no live views and no steps |
| Gpu.MappableBuffer.Dispatch | rust/src/compute_pipeline.rs:189 | the pass replaces the contents with the shader's results, keeping their size; only allowed while not mapped |
| Gpu.MappableBuffer.CopyFrom | rust/src/compute_pipeline.rs:192 | the copy replaces the contents; its byte count must equal both buffers' sizes |
| Gpu.MappableBuffer.MapAsync | rust/src/compute_pipeline.rs:199-205 | mapping an unmapped buffer makes it mapped exactly when the callback reports success |
| Gpu.MappableBuffer.GetMappedRange | rust/src/compute_pipeline.rs:206 | a view of a mapped buffer shows its contents, and the view stays alive |
| Gpu.MappableBuffer.DropView | rust/src/compute_pipeline.rs:208 | dropping a view ends it |
| Gpu.MappableBuffer.Unmap | rust/src/compute_pipeline.rs:209 | unmap is only allowed once every view is dropped, and leaves the buffer unmapped |
| ComputePipeline.SelectShaderTags | rust/src/compute_pipeline.rs:48-61 | tags 0, 1 and 2 select a shader, and the shader gives its tag back; every other tag panics with "Invalid process type" |
| ComputePipeline.ShaderTagSelects | rust/src/compute_pipeline.rs:48-60 | each shader is selected by its own tag (0 relax, 1 minimize, 2 simulate) |
| ComputePipeline.ParamsBytes | rust/src/compute_pipeline.rs:11-18 | the parameter record is 12 bytes |
| ComputePipeline.ParamsRoundTrip | rust/src/compute_pipeline.rs:14-18 | decoding the 12 bytes gives back step_size, max_steps and process_type, in that order |
| ComputePipeline.ParamsBytesDecode | rust/src/compute_pipeline.rs:14-18 | every 12 bytes are the layout of the record they decode to |
| ComputePipeline.AsU8 | rust/src/compute_pipeline.rs:77 | `as u8` keeps every value below 256 unchanged |
| ComputePipeline.BondBytes | rust/src/compute_pipeline.rs:77 | the bond buffer has two bytes per bond |
| ComputePipeline.BondBytesAt | rust/src/compute_pipeline.rs:77 | byte 2k is a_k mod 256, and byte 2k+1 is b_k mod 256 |
| ComputePipeline.BondsOfBytes | rust/src/compute_pipeline.rs:77 | two bytes decode to one pair |
| ComputePipeline.BondBytesRoundTrip | rust/src/compute_pipeline.rs:77 | bonds whose indices are below 256 survive the encoding exactly |
| ComputePipeline.BondBytesWrap | rust/src/compute_pipeline.rs:77 | index 256 wraps to 0: bonds (256, 1) and (0, 1) are encoded alike |
| ComputePipeline.Utf8Char | rust/src/compute_pipeline.rs:84 | a character takes one to four bytes, and exactly one when it is ASCII |
| ComputePipeline.Utf8CharRoundTrip | rust/src/compute_pipeline.rs:84 | the bytes of a character decode back to it; the lead byte is never a continuation byte, and every other byte is one |
| ComputePipeline.Utf8 | rust/src/compute_pipeline.rs:84 | a string has at least as many bytes as characters |
| ComputePipeline.Utf8Ascii | rust/src/compute_pipeline.rs:84 | an ASCII string's bytes are its character codes, one per character |
| ComputePipeline.Utf8Append | rust/src/compute_pipeline.rs:84 | the bytes of a concatenation are the concatenation of the bytes |
| ComputePipeline.Joined | rust/src/compute_pipeline.rs:84 | the joined types are as long as the sum of their lengths |
| ComputePipeline.TypeBytesJoined | rust/src/compute_pipeline.rs:84 | the type buffer is the bytes of all types concatenated, with no separator |
| ComputePipeline.TypeBytesAscii | rust/src/compute_pipeline.rs:84 | for ASCII types the buffer length is the sum of the type lengths |
| ComputePipeline.JoinedAscii | rust/src/compute_pipeline.rs:84 | joining ASCII types gives ASCII text |
| ComputePipeline.TypeBytesUnseparated | rust/src/compute_pipeline.rs:84 | with no separator, types ["C", "O"] and ["CO"] produce the same buffer |
| ComputePipeline.KernelOutput | rust/src/compute_pipeline.rs:189 | the pass leaves one position per atom |
| ComputePipeline.AtomPipelineResult | rust/src/compute_pipeline.rs:22-214 | the run returns iff the tag is 0, 1 or 2, the group count does not overflow and the mapping succeeds; it then returns N positions, each the shader's output for that atom from the encoded inputs; an unknown tag panics |
| ComputePipeline.ReadBack | rust/src/compute_pipeline.rs:197-213 | on success, returns the buffer's contents after map, view, drop and unmap, in that order; on failure, panics after the failed map |
| ComputePipeline.RunAtomPipeline | rust/src/compute_pipeline.rs:22-214 | the run computes exactly the result above, copying `N * 24` bytes into a result buffer of `N * 24` bytes |
| Minimization.ParamsBytes | rust/src/minimization.rs:9-12 | the parameter record is 8 bytes |
| Minimization.ParamsRoundTrip | rust/src/minimization.rs:9-12 | step_size and max_steps are laid out in that order, and decode back; every 8 bytes decode to the record they encode |
| Minimization.Flatten | rust/src/minimization.rs:50 | flattening gives three values per atom |
| Minimization.FlattenAt | rust/src/minimization.rs:50 | values 3i, 3i+1 and 3i+2 are the cast x, y and z of atom i |
| Minimization.BufferSize | rust/src/minimization.rs:51 | the buffer is 12 bytes per atom |
| Minimization.Regroup | rust/src/minimization.rs:132-134 | regrouping gives one triple per three values |
| Minimization.RegroupAt | rust/src/minimization.rs:132-134 | triple i is values 3i, 3i+1 and 3i+2 |
| Minimization.RegroupSnoc | rust/src/minimization.rs:132-133 | one more chunk appends one triple |
| Minimization.Rounded | rust/src/minimization.rs:50 | rounding keeps the number of positions |
| Minimization.RegroupFlatten | rust/src/minimization.rs:50 | regrouping the flattened positions gives each position rounded through f32, in order (regrouped at rust/src/minimization.rs:132-134) |
| Minimization.RoundedExact | rust/src/minimization.rs:50 | where the cast is exact, flatten then regroup is the identity |
| Minimization.KernelValues | rust/src/minimization.rs:117 | the pass keeps the buffer's length |
| Minimization.MinimizedShape | rust/src/minimization.rs:117-136 | the run returns iff the group count does not overflow; it then leaves N positions, each made of the shader's three values for that atom when the mapping succeeds, and untouched positions otherwise |
| Minimization.CoordinateList.constructor | rust/src/minimization.rs:20 | the list holds the given positions |
| Minimization.CoordinateList.Refill | rust/src/minimization.rs:131-134 | `clear` followed by one push per chunk leaves exactly the regrouped values; a short last chunk panics after the full chunks are pushed |
| Minimization.ReadBackInto | rust/src/minimization.rs:122-136 | the list is replaced by the regrouped buffer exactly when the mapping succeeds, and is otherwise untouched; unmap happens on both paths, after map, view and drop on success |
| Minimization.MinimizeEnergy | rust/src/minimization.rs:19-137 | the caller's positions become the minimised ones, or stay untouched when the run panics |

## Left out

- GPU plumbing is not modelled. This covers the instance, adapter and device, shader modules,
  bind groups, layouts, pipelines, `queue.submit` and `device.poll`. These are calls into wgpu.
  The WGSL kernels become function parameters, and their maths is not modelled.
- rust/src/simulation.rs is not part of this model. Its only logic of its own, the work-group
  count and replace-on-success, is the same as in the two passes that are modelled.
- IEEE floating point is not modelled. Coordinates and bounds are reals. Square roots are
  avoided by comparing squared distances exactly. The `f64 -> f32` cast, `str::parse::<f64>`,
  Python's `float` and the `{:8.3}` formatting are function parameters.
- Float parameters are carried as their 32-bit patterns. This is why `step_size` appears as
  `stepSizeBits: U32`.
- `adjust_coordinates_tuple` and the Python `adjust_coordinates` are not modelled. They
  rescale floats.
- Configuration and file loading are not modelled: `load_bond_data`, YAML parsing, environment
  paths and `get_data_path`. The range table and the data path are inputs.
- rust/src/utilities/shader.rs is not part of this model. It defines no `RELAX_SHADER`, although
  rust/src/compute_pipeline.rs:9 imports it.
- The Python bindings, the random ion and solvent builders, plotting, UI, network I/O and
  packaging are not modelled.
- I/O is not modelled. File open, `lines()` and `writeln!` errors are unwraps on I/O. A file is
  a sequence of lines, and a written file is the sequence of its lines.
- Slices are taken on character offsets rather than byte offsets. The two agree on ASCII lines.
  A slice that cuts a multi-byte character would panic in Rust; that case is not modelled.
- `0 - 1` on atom number 0 and `from + 1` on usize::MAX are modelled as the panics of a debug
  build. A release build would wrap instead.
- Gpu.WorkGroups: `coords.len() as u32 + 63` (rust/src/compute_pipeline.rs:189 and
  rust/src/minimization.rs:117) is modelled as the panic of a debug build. A release build wraps
  instead, and dispatches 0 work groups when the low 32 bits of the atom count exceed 2^32 - 64.
- `bytemuck` copies in native byte order. The model uses little-endian.
- The `N * 24` byte size is not modelled as a usize. Its overflow, for more than
  usize::MAX / 24 atoms, is not modelled.
- minimization.rs creates its buffer without MAP_READ and with an empty pipeline layout. wgpu
  validation would reject both. This is foreign-library behaviour and is not modelled: the
  mapping outcome is a parameter.
- The mpsc `recv().unwrap()` and the oneshot `receive()` returning `None` are not modelled.
  These are channel failures.
- Pdb.ParsePdb: a line of the file that `lines()` itself fails to decode is not modelled. This
  is an I/O error.
- PyPdb.DetermineBonds requires the types list to be at least as long as the coordinates when
  there are two or more atoms. Python would raise IndexError otherwise, and that error path is
  not modelled. The missing set is ghost because the Python function does not return it.
- Bonds.DetermineBonds, PdbvizBonds.DetermineBonds and PdbFiles.PdbFile.DetermineBonds require
  `atom_types` to cover every atom index. Rust would panic on `atom_types[j]` otherwise, and
  that panic is not modelled.
- PdbWrite.WritePdb models the ATOM layout as written, not the layout the parser expects. See
  Findings.
- Concurrency is not modelled: the `map_async` callback runs on another thread.

## Findings

| source | as written | input that shows it | evidently intended | confidence | as-written member | corrected member |
|---|---|---|---|---|---|---|
| rust/src/pdb.rs:109 | the ATOM format writes x one column before the parser's `line[30..38]` (rust/src/pdb.rs:33). It writes z one column after `line[46..54]` (rust/src/pdb.rs:35) and the element one column after `line[76..78]` (rust/src/pdb.rs:32) | a carbon atom at z = 1.234: its line reads back with element "" and z "1.23"; an x of -100.000 reads back as "100.000" | ATOM lines in the wwPDB PDB format v3.3 columns (x 31-38, y 39-46, z 47-54, element 77-78), which the parser reads back exactly | not executed | PdbLayout.CarbonReadBack | PdbLayout.AlignedRoundTrip |
