# expectra FEFF glue, modelled in Dafny

`expectra/feff.py` connects expectra to the FEFF multiple-scattering code. It writes a
`feff.inp` input file for a structure, runs `feff` and decides from FEFF's standard output
whether any scattering paths were found. It then reads the computed EXAFS signal from
`chi.dat` and, on request, one scattering path from `feff0001.dat`. It also maps an
absorption-edge name to FEFF's HOLE number.

This project models those five pieces:

- `EdgeNumbers`: `feff_edge_number`, a case-insensitive lookup that raises KeyError on
  unknown names.
- `ChiDat`: `load_chi_dat`, a loop with one flag that collects `(k, chi)` pairs after the
  `k chi mag` header.
- `FeffDat`: `load_feff_dat`, a loop with three non-exclusive flags: path header, atoms
  table and data table. It collects `reff`, the atoms and seven data columns.
- `FeffInput`: `write_feff`. This builds the POTENTIALS rows with a counter and a
  species-to-index map, then one ATOMS row per atom.
- `PathsFound`: the `Paths found N` scan of FEFF's standard output inside `run_feff`.

Supporting modules:

- `Results` holds `Option`, `Result` and the Python exceptions the code can raise
  (IndexError, ValueError, KeyError, UnboundLocalError).
- `PyStr` holds the string operations the code relies on: `strip`, `split`,
  `split('\n')`, `lower` and Python 2 `int()`.
- `LineFields` holds the token accessors: `fields[i] == t`, `float(fields[i])` and
  `int(fields[i])`.
- `AtomicStructure` holds the atom record.

Model choices:

- A file is modelled as its lines, each already stripped and split into tokens
  (`seq<string>`). The two substring tests (`"genfmt" in line`, `"---------------" in line`)
  look for a pattern without whitespace. A stripped line contains such a pattern exactly when
  one of its tokens does, so each test becomes "some token contains the pattern".
- Python's `float()` is a parameter `toFloat: string -> Option<real>`, where `None` stands
  for ValueError. `int()` is modelled concretely: an optional sign followed by ASCII digits.
- Exceptions are results. An `Err` carries the exception the source would raise, and
  `:-` propagates it exactly where the Python statement would raise.
- The loops of `load_chi_dat` and `load_feff_dat` are `method`s with the source's variables.
  Each is proved equal to a scanner function (`Step`/`ScanFrom`), and the properties are
  then proved about the scanner.
- The two loops of `write_feff` are the methods `NumberPotentials` and `AtomRows`. Their
  `ensures` state the rows and map they build.
- The `Paths found` scan returns from the middle of its loop. It is the recursive function
  `Decide` over per-line reports, with its properties proved as lemmas.

## Model

| member | source | states |
|---|---|---|
| `EdgeNumbers.EdgeNumber` | expectra/feff.py:10-16 | succeeds exactly for the names k, l1, li, l2, lii, l3, liii in any letter case; raises KeyError on any other name; K names give 1, L1 names 1, L2 names 3 and L3 names 4 |
| `EdgeNumbers.EdgeNumberIgnoresCase` | expectra/feff.py:16 | looking up the lower-cased name gives the same result and shell as looking up the name itself |
| `EdgeNumbers.EdgeNumberAsWritten` | expectra/feff.py:11-15 | the table agrees with FEFF's hole numbering (K=1, L1=2, L2=3, L3=4) on every name except those of the L1 shell |
| `EdgeNumbers.L1TakenForK` | expectra/feff.py:12-13 | `L1` names a different shell from `K`, yet both map to 1 |
| `EdgeNumbers.CorrectedEdgeNumber` | expectra/feff.py:10-16 | the intended lookup: same accepted names and KeyError, value is the named shell's hole number |
| `EdgeNumbers.CorrectedSeparatesShells` | expectra/feff.py:11-15 | under the corrected lookup, two accepted names that give the same number name the same shell |
| `ChiDat.HeaderTest` | expectra/feff.py:29 | true exactly for lines starting `k chi mag`; raises IndexError exactly when `and` short-circuiting reaches a missing token |
| `ChiDat.Step` | expectra/feff.py:24-35 | one line only ever appends, to both lists at once and at most one value each; a line after which the loop is outside the data section changes nothing |
| `ChiDat.ScanFrom` | expectra/feff.py:23-35 | the loop only extends the two lists, by the same number of values, at most one per line |
| `ChiDat.LoadChiDat` | expectra/feff.py:18-36 | the loop with `chi_section`, `k` and `chi` returns (or raises) exactly what the scanner `LoadChi` does |
| `ChiDat.DataLines` | expectra/feff.py:25-35 | keeps only non-blank, non-header lines, in order |
| `ChiDat.Column` | expectra/feff.py:34-35 | one value per contributing row, in order: the row's first (k) or second (chi) token converted by `float` |
| `ChiDat.ScanFromRows` | expectra/feff.py:23-35 | from any state, the loop succeeds exactly when no header test raises and every contributing row has two convertible leading tokens; the lists then grow by exactly those rows' values |
| `ChiDat.LoadChiRows` | expectra/feff.py:18-36 | `load_chi_dat` returns k and chi taken from the data lines after the first `k chi mag` header, one pair per line in file order, extra columns ignored; it fails exactly when a header test raises or such a row is unreadable |
| `ChiDat.LoadChi` | expectra/feff.py:18-36 | the two returned arrays have the same length, at most the number of lines |
| `ChiDat.ChiWithoutHeader` | expectra/feff.py:29-36 | with no `k chi mag` header both arrays are empty, unless a short line starting with `k` raises IndexError |
| `ChiDat.ScanFailsWithIndexError` | expectra/feff.py:29 | before the header, the only exception possible is the header test's IndexError |
| `ChiDat.ChiExample` | expectra/feff.py:18-36 | a comment line, a blank line, the header and two three-column rows give k = [float("1.0"), float("2.0")] and chi = [float("0.5"), float("0.3")]; the third column is ignored |
| `FeffDat.XyzTest` | expectra/feff.py:60 | true exactly for lines starting `x y z`; IndexError exactly when short-circuiting reaches a missing token |
| `FeffDat.KTest` | expectra/feff.py:64 | true exactly for lines starting `k real[2*phc]`; IndexError exactly when short-circuiting reaches a missing token |
| `FeffDat.AtomOf` | expectra/feff.py:75-82 | an atoms-table row gives an atom exactly when tokens 0-2 convert by `float` and tokens 3-4 by `int`: position from tokens 0-2, tag from token 3, atomic number from token 4 |
| `FeffDat.RowOf` | expectra/feff.py:84-92 | a data row succeeds exactly when every token converts and there are at least seven; it gives the first seven values in column order |
| `FeffDat.AddRow` | expectra/feff.py:86-92 | appending a row keeps the seven columns the same length and grows them by one |
| `FeffDat.ReadReff` | expectra/feff.py:69-73 | only in path-header mode can the line raise; there it succeeds exactly when token 2 converts, sets `reff` to it and leaves the mode; nothing else changes |
| `FeffDat.ReadAtom` | expectra/feff.py:75-82 | only in atoms mode can the line raise; there it succeeds exactly when the atom converts and appends that one atom; nothing else changes |
| `FeffDat.ReadRow` | expectra/feff.py:84-92 | only in data mode can the line raise; there it succeeds exactly when the row converts and appends its values, one per column; nothing else changes |
| `FeffDat.Step` | expectra/feff.py:55-92 | one line adds at most one atom and at most one value per column, keeps the columns the same length and, outside path-header mode, leaves `reff` alone unless it is a `genfmt` line |
| `FeffDat.ScanFrom` | expectra/feff.py:54-92 | the loop only appends atoms and column values, at most one of each per line, and keeps the seven columns the same length |
| `FeffDat.LoadFeff` | expectra/feff.py:38-112 | the seven returned arrays have the same length, and neither they nor the atoms table are longer than the file |
| `FeffDat.LoadFeffDat` | expectra/feff.py:38-112 | the loop with three flags, `reff`, the atom list and seven lists returns (or raises) exactly what the scanner `LoadFeff` does |
| `FeffDat.ScanAppend` | expectra/feff.py:54-92 | reading a file in two parts is reading it whole |
| `FeffDat.ReffSettled` | expectra/feff.py:57-73 | outside path-header mode, with no further `genfmt` line, `reff` never changes |
| `FeffDat.NoGenfmtRaises` | expectra/feff.py:57-104 | a file without a `genfmt` line always raises, because `reff` is never assigned |
| `FeffDat.BlankLineRaises` | expectra/feff.py:56-60 | from any state, a blank line makes the scan fail; when every earlier line is read, it is that line's `fields[0]` that raises IndexError |
| `FeffDat.BlankFileLineRaises` | expectra/feff.py:54-60 | a file containing a blank line is never read; the load raises IndexError when the lines before the blank one are read |
| `FeffDat.MarkerLineAddsNothing` | expectra/feff.py:57-67 | a `genfmt`, `x y z` or `k real[2*phc]` line adds no atom and no data row |
| `FeffDat.AtomLineAppendsAtom` | expectra/feff.py:69-82 | in atoms mode, whatever other flags are set, a plain line that is read appends exactly the atom its tokens describe; in atoms mode alone that is all it does, and it raises exactly when the atom does not convert |
| `FeffDat.DataLineAppendsRow` | expectra/feff.py:69-92 | in data mode, whatever other flags are set, a plain line that is read appends its first seven values, one per column; in data mode alone that is all it does, and it raises exactly when the row does not convert |
| `FeffDat.AtomsSettled` | expectra/feff.py:60-82 | outside atoms mode, lines that are not `x y z` headers add no atoms |
| `FeffDat.DataSettled` | expectra/feff.py:64-92 | outside data mode, lines that are not `k real[2*phc]` headers add no data rows |
| `FeffDat.NoDataHeaderNoColumns` | expectra/feff.py:64-112 | a file without a `k real[2*phc]` header returns seven empty arrays |
| `FeffDat.AtomsEndAtDataHeader` | expectra/feff.py:64-67 | the `k real[2*phc]` header ends atoms mode: with no later `x y z` header, every returned atom was read before it |
| `FeffDat.ReffFromPathHeader` | expectra/feff.py:57-73 | when only dividers come between the last `genfmt` line and the next plain (non-marker, non-divider) line, `reff` is that line's third token |
| `FeffDat.XyzHeaderEndsPathMode` | expectra/feff.py:57-63 | an `x y z` line right after a `genfmt` line ends path-header mode without setting `reff` |
| `FeffDat.DataRowTakenAsReff` | expectra/feff.py:57-92 | a `k real[2*phc]` line right after a `genfmt` line leaves path-header mode on, so the next data row also sets `reff` from its third value, besides being appended to the columns |
| `FeffDat.DividersSkipped` | expectra/feff.py:69-71 | in path-header mode, divider lines change nothing |
| `FeffDat.PathHeaderStep` | expectra/feff.py:69-73 | in path-header mode, a plain non-divider line sets `reff` from its third token and leaves the mode |
| `FeffDat.FeffLayout` | expectra/feff.py:38-112 | a path header block, an atoms table of two rows and a data table of one row give those two atoms, `reff` from the header line and one value in each column |
| `FeffInput.WriteFeff` | expectra/feff.py:114-140 | options written as given. POTENTIALS: `0 absorber_z`, then rows indexed 1, 2, … with no gaps, one per species in set order except a skipped species, no species twice, each held by some non-absorber atom. ATOMS: one row per atom in order, same position; absorber potential 0, every other atom a potential ≥ 1 whose row carries its own atomic number |
| `FeffInput.NumberPotentials` | expectra/feff.py:120-132 | the POTENTIALS loop numbers the listed species consecutively from 1 and maps each to the index of its row |
| `FeffInput.AtomRows` | expectra/feff.py:134-140 | the ATOMS loop writes one row per atom with its position and the potential from `pot_map`, 0 for the absorber |
| `FeffInput.AppendPotential` | expectra/feff.py:130-132 | writing the next row at index `i` and recording `pot_map[z] = i` keeps the rows numbered and the map in step |
| `FeffInput.Numbers` | expectra/feff.py:123 | `set(atoms.get_atomic_numbers())`: holds every atom's atomic number, and only numbers at least one atom has |
| `FeffInput.Enumerates` | expectra/feff.py:123 | `list(set(...))` in an unspecified order: a duplicate-free listing as long as the set, holding every atom's atomic number |
| `FeffInput.Count` | expectra/feff.py:127 | the count of a species is at most the number of atoms, and all of them when every atom has it |
| `FeffInput.Skipped` | expectra/feff.py:128 | a skipped species is the absorber's, and no other atom has it |
| `FeffInput.Listed` | expectra/feff.py:123-132 | from a duplicate-free species list, every species gets a row except the absorber's when the absorber is its only atom |
| `FeffInput.ListedMembers` | expectra/feff.py:126-129 | the listed species are exactly those of the set that the skip test lets through |
| `FeffInput.ListedDistinct` | expectra/feff.py:123-132 | no species is listed twice |
| `FeffInput.SkippedMeansNoOtherAtom` | expectra/feff.py:127-128 | a species present in the structure is skipped exactly when no atom other than the absorber has it |
| `FeffInput.OwnSpeciesListed` | expectra/feff.py:139 | every non-absorber atom's species is in `pot_map`, so the lookup never raises KeyError |
| `FeffInput.OwnPotentialRows` | expectra/feff.py:123-132 | a species gets a row of its own exactly when some non-absorber atom has it |
| `FeffInput.AbsorberSpeciesListed` | expectra/feff.py:127-129 | the absorber's species gets a row of its own exactly when it has at least two atoms |
| `FeffInput.PotentialsIndependentOfOrder` | expectra/feff.py:123-132 | whatever order the set yields, the same species are listed and the same number of rows is written |
| `FeffInput.WrittenAtomsReadBack` | expectra/feff.py:119-140 | resolving each ATOMS row's potential index through the POTENTIALS rows gives back every atom's atomic number and position |
| `FeffInput.IndexedLookup` | expectra/feff.py:121-131 | in consecutively indexed rows, potential index p resolves to the number on row p |
| `FeffInput.CountWithout` | expectra/feff.py:127 | removing one atom of a species lowers its count by one |
| `PathsFound.Matches` | expectra/feff.py:170-171 | a line matches exactly when the marker follows its leading whitespace; trailing whitespace never matters |
| `PathsFound.PathCount` | expectra/feff.py:172 | `int(line.split()[2])`: IndexError exactly when the line has fewer than three words; succeeds exactly when the third word is an integer literal |
| `PathsFound.Report` | expectra/feff.py:170-172 | a line yields a count exactly when, stripped, it starts with `Paths found` |
| `PathsFound.Decide` | expectra/feff.py:169-177 | the scan decides "zero paths" only at a count of 0, and raises only an error some count raised |
| `PathsFound.ZeroPaths` | expectra/feff.py:169-177 | zero paths only when some `Paths found` line reads 0; an error only from a `Paths found` line whose count fails, and only IndexError or ValueError |
| `PathsFound.ZeroPathsReported` | expectra/feff.py:169-177 | on FEFF's stdout: zero paths only when one of its newline-free lines matches and reads 0; only IndexError or ValueError can be raised |
| `PathsFound.ZeroPathsTrue` | expectra/feff.py:169-177 | zero paths are reported exactly when some line reports a count of 0 and every earlier matching line has a readable non-zero count |
| `PathsFound.ZeroPathsError` | expectra/feff.py:169-172 | the scan raises `e` exactly when some matching line's count fails with `e` and every earlier matching line has a readable non-zero count |
| `PathsFound.ZeroPathsFalse` | expectra/feff.py:169-177 | the scan finishes without a decision exactly when every matching line has a readable non-zero count |
| `PathsFound.NonMatchingIgnored` | expectra/feff.py:171-172 | inserting a line that does not start with `Paths found` never changes the outcome |
| `PathsFound.DecideAppend` | expectra/feff.py:170-177 | scanning two runs of lines is scanning the first, then the second if the first did not decide |
| `PathsFound.ZeroCount` | expectra/feff.py:172-173 | a count equals 0 exactly when the third word is an integer literal whose digits are all `0` (`0`, `00`, `-0`, `+0`) |
| `PyStr.ParseInt` | expectra/feff.py:79-80 | Python 2 `int()` on a token: defined exactly on an optional sign followed by decimal digits, non-negative without a `-` |
| `PyStr.ParseIntZero` | expectra/feff.py:173 | `int(t) == 0` exactly when every digit of `t` is `0` |
| `PyStr.Strip` | expectra/feff.py:24 | `str.strip()`: no longer than the input, no whitespace at either end, and a string without whitespace is unchanged |
| `PyStr.Lower` | expectra/feff.py:16 | `str.lower()`: same length, each character lowered on its own |
| `PyStr.StripSlice` | expectra/feff.py:24 | `s.strip()` is the slice of `s` starting after its leading whitespace, with only whitespace before and after it |
| `PyStr.Contains` | expectra/feff.py:57 | `pat in s`: never for a pattern longer than `s`, always for a prefix |
| `PyStr.ContainsAt` | expectra/feff.py:70 | an occurrence of the pattern at any offset makes `pat in s` true |
| `PyStr.ContainsWitness` | expectra/feff.py:70 | `pat in s` holds only when the pattern occurs at some offset |
| `PyStr.SplitOn` | expectra/feff.py:169 | `s.split('\n')`: at least one piece, none holding a newline |
| `PyStr.Split` | expectra/feff.py:56 | `str.split()`: only non-empty words without whitespace |
| `PyStr.SplitJoinSpace` | expectra/feff.py:56 | splitting the words joined by single spaces gives back the words |
| `PyStr.SplitOnJoin` | expectra/feff.py:169 | joining the pieces of `s.split('\n')` with newlines gives back `s` |
| `PyStr.JoinSplitOn` | expectra/feff.py:169 | splitting pieces joined by newlines gives back the pieces when none holds a newline |
| `LineFields.TokenIs` | expectra/feff.py:29 | `fields[i] == t`: IndexError exactly past the end of the line; true exactly when token i is `t` |
| `LineFields.IntAt` | expectra/feff.py:79-80 | `int(fields[i])`: IndexError exactly past the end, the value of the integer literal otherwise, ValueError for any other token |
| `LineFields.LineContains` | expectra/feff.py:57 | a blank line contains no pattern; a line having the pattern as a token contains it |
| `LineFields.FloatAt` | expectra/feff.py:72 | `float(fields[i])`: IndexError past the end, ValueError when the token does not convert, the value otherwise |
| `LineFields.FloatsAll` | expectra/feff.py:85 | `[float(f) for f in fields]`: succeeds exactly when every token converts, with the values in order |

## Left out

- Opening, reading and writing files; the `feff` subprocess, its exit status and
  `communicate`; temporary directories, `shutil.rmtree`, the saved copy of `feff.inp` and
  console output (expectra/feff.py:142-161, 179-186). These are operating-system effects.
  The model works on the lines of a file and on the stdout text.
- The `hash error` retry in `run_feff` (expectra/feff.py:162-166). As written it moves the
  absorber by 0.001 (line 164), then raises NameError at line 165, because `sys` is never
  imported, so the recursive call is never reached. That call would also drop `get_path`.
- The shapes `run_feff` returns (a bare `return`, pairs and triples). Only the zero-path
  decision is modelled.
- Floating-point text: `float()` is the abstract `toFloat` parameter, and `%f`/`%i`
  formatting is not modelled. `write_feff` is modelled by the rows it writes, with their
  values, not by their text.
- The TITLE line `str(atoms)` (expectra/feff.py:116): `Atoms.__str__` lives in
  `expectra.aselite`, which is not part of this model.
- The `Atoms`/`Atom` classes and `numpy.array`: atoms are plain records
  (number, position, tag) and arrays are sequences.
- The iteration order of `feff_options.iteritems()` and of `set(...)` is unspecified in
  Python 2. Options are an arbitrary sequence of pairs, and the species order is the
  parameter `uniqueZ`, any duplicate-free listing of the species present.
- Reading lines from a file: both loaders take the lines already stripped and split.
  The substring tests on the whole line are stated on tokens, which is equivalent for
  the whitespace-free patterns used.
- Where FEFF's feff.dat layout and `load_feff_dat` disagree, the model follows the code:
  - the three flags are not exclusive, so a line can feed several sections;
  - when a `genfmt` line is followed, after any dividers, by a plain (non-marker) line,
    `reff` is that line's third token, so a header line whose third token is not a number
    raises ValueError;
  - a marker line right after a `genfmt` line changes that. An `x y z` line ends path-header
    mode without setting `reff`. A `k real[2*phc]` line leaves path-header mode on, so the
    first data row after it also sets `reff`;
  - every `genfmt` line switches path-header mode on again.
- `FeffInput.WriteFeff` requires `absorber: nat` and `absorber < |atoms|`. Python also
  accepts a negative index (`atoms[-1]`). Then `i == absorber` never holds in the ATOMS
  loop, and `pot_map` raises KeyError when the absorber's species was skipped. That path
  is not modelled.
- `PyStr.Lower` folds ASCII letters only, as Python 2 `str.lower()` does in the default
  locale. A `unicode` argument such as u'\u212a' (KELVIN SIGN) lowers to `k` in Python.
- `EdgeNumbers.EdgeNumber` inherits that: a `unicode` KELVIN SIGN gives 1 in Python, but
  KeyError in the model.

## Findings

| source | as written | input that shows it | evidently intended | confidence | as-written member | corrected member |
|---|---|---|---|---|---|---|
| expectra/feff.py:13 | `edge_map['l1'] = edge_map['li'] = 1`, the number the table gives K | `feff_edge_number("L1")` returns 1, the same as `feff_edge_number("K")` | L1 = 2, as in FEFF's hole numbering, which the table follows for L2 = 3 and L3 = 4 | likely; not executed | `EdgeNumbers.L1TakenForK` | `EdgeNumbers.CorrectedSeparatesShells` |
