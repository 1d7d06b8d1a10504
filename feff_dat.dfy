/** `load_feff_dat`: reading one scattering path from FEFF's `feffNNNN.dat`. */
module FeffDat {
  import opened Results
  import opened PyStr
  import opened LineFields
  import opened AtomicStructure

  /** The divider that follows the path header block. */
  const Divider := "---------------"

  /** The seven tabulated columns, in file order. */
  datatype Columns = Columns(
    xk: seq<real>, cdelta: seq<real>, afeff: seq<real>, phfeff: seq<real>,
    redfac: seq<real>, xlam: seq<real>, rep: seq<real>)

  const NoColumns := Columns([], [], [], [], [], [], [])

  predicate Aligned(c: Columns) {
    |c.cdelta| == |c.xk| && |c.afeff| == |c.xk| && |c.phfeff| == |c.xk| &&
    |c.redfac| == |c.xk| && |c.xlam| == |c.xk| && |c.rep| == |c.xk|
  }

  /** Append one data row: its first seven values, one to each column. */
  function AddRow(c: Columns, v: seq<real>): (r: Columns)
    requires |v| >= 7
    ensures Aligned(c) ==> Aligned(r) && |r.xk| == |c.xk| + 1
  {
    Columns(c.xk + [v[0]], c.cdelta + [v[1]], c.afeff + [v[2]], c.phfeff + [v[3]],
            c.redfac + [v[4]], c.xlam + [v[5]], c.rep + [v[6]])
  }

  /** The returned dictionary: the atoms table, `reff` and the seven columns. */
  datatype PathData = PathData(atoms: seq<Atom>, reff: real, data: Columns)

  /** The loop's variables: the three section flags, `reff` (unbound until assigned),
      the atoms read so far and the seven lists. */
  datatype Scan = Scan(
    pathSection: bool, atomsSection: bool, dataSection: bool,
    reff: Option<real>, atoms: seq<Atom>, data: Columns)

  const Start := Scan(false, false, false, None, [], NoColumns)

  /** `fields[0] == "x" and fields[1] == "y" and fields[2] == "z"`, left to right. */
  function XyzTest(f: Fields): (r: Result<bool>)
    ensures r == Ok(true) <==> |f| >= 3 && f[0] == "x" && f[1] == "y" && f[2] == "z"
    ensures r.Err? <==> f == [] || (f[0] == "x" && (|f| == 1 || (f[1] == "y" && |f| == 2)))
  {
    var isX :- TokenIs(f, 0, "x");
    if !isX then Ok(false) else
    var isY :- TokenIs(f, 1, "y");
    if !isY then Ok(false) else
    TokenIs(f, 2, "z")
  }

  /** `fields[0] == "k" and fields[1] == "real[2*phc]"`, left to right. */
  function KTest(f: Fields): (r: Result<bool>)
    ensures r == Ok(true) <==> |f| >= 2 && f[0] == "k" && f[1] == "real[2*phc]"
    ensures r.Err? <==> f == [] || (f[0] == "k" && |f| == 1)
  {
    var isK :- TokenIs(f, 0, "k");
    if !isK then Ok(false) else
    TokenIs(f, 1, "real[2*phc]")
  }

  /** A `genfmt` line: enters path-header mode. */
  predicate IsGenfmt(f: Fields) {
    LineContains(f, "genfmt")
  }

  /** An `x y z` line (that is not also a `genfmt` line): enters atoms mode. */
  predicate IsAtomsHeader(f: Fields) {
    !IsGenfmt(f) && XyzTest(f) == Ok(true)
  }

  /** A `k real[2*phc]` line (that is neither of the above): enters data mode. */
  predicate IsDataHeader(f: Fields) {
    !IsGenfmt(f) && XyzTest(f) == Ok(false) && KTest(f) == Ok(true)
  }

  /** A line that is no marker and on which neither marker test raises. */
  predicate IsPlain(f: Fields) {
    !IsGenfmt(f) && XyzTest(f) == Ok(false) && KTest(f) == Ok(false)
  }

  /** The atom record of an atoms-table row: `x y z pot atomic_number`. */
  function AtomOf(f: Fields, toFloat: string -> Option<real>): (r: Result<Atom>)
    ensures r.Ok? <==> |f| >= 5 && toFloat(f[0]).Some? && toFloat(f[1]).Some? && toFloat(f[2]).Some? &&
                       IsIntLiteral(f[3]) && IsIntLiteral(f[4])
    ensures r.Ok? ==> r.value == Atom(ParseInt(f[4]).value,
                                      Position(toFloat(f[0]).value, toFloat(f[1]).value, toFloat(f[2]).value),
                                      ParseInt(f[3]).value)
  {
    var x :- FloatAt(f, 0, toFloat);
    var y :- FloatAt(f, 1, toFloat);
    var z :- FloatAt(f, 2, toFloat);
    var pot :- IntAt(f, 3);
    var number :- IntAt(f, 4);
    Ok(Atom(number, Position(x, y, z), pot))
  }

  /** The first seven values of a data row; every token must convert first. */
  function RowOf(f: Fields, toFloat: string -> Option<real>): (r: Result<seq<real>>)
    ensures r.Ok? <==> |f| >= 7 && forall i :: 0 <= i < |f| ==> toFloat(f[i]).Some?
    ensures r.Ok? ==> |r.value| == 7 && forall i :: 0 <= i < 7 ==> r.value[i] == toFloat(f[i]).value
  {
    var values :- FloatsAll(f, toFloat);
    if |values| < 7 then Err(IndexError) else Ok(values[..7])
  }

  /** In path-header mode: `reff = float(fields[2])` and leave the mode. Only `reff` and the
      path flag can change, and only in that mode can the line raise. */
  function ReadReff(s: Scan, f: Fields, toFloat: string -> Option<real>): (r: Result<Scan>)
    ensures r.Err? ==> s.pathSection
    ensures s.pathSection ==> (r.Ok? <==> |f| >= 3 && toFloat(f[2]).Some?)
    ensures r.Ok? ==> !r.value.pathSection && r.value.(reff := s.reff, pathSection := s.pathSection) == s
    ensures r.Ok? && s.pathSection ==> r.value.reff == Some(toFloat(f[2]).value)
    ensures r.Ok? && !s.pathSection ==> r.value == s
  {
    if !s.pathSection then Ok(s)
    else
      var v :- FloatAt(f, 2, toFloat);
      Ok(s.(reff := Some(v), pathSection := false))
  }

  /** In atoms mode: append the row's atom. Only the atom list can change, by the one atom
      the line describes, and only in that mode can the line raise. */
  function ReadAtom(s: Scan, f: Fields, toFloat: string -> Option<real>): (r: Result<Scan>)
    ensures r.Err? ==> s.atomsSection
    ensures s.atomsSection ==> (r.Ok? <==> AtomOf(f, toFloat).Ok?)
    ensures r.Ok? ==> r.value.(atoms := s.atoms) == s && s.atoms <= r.value.atoms
    ensures r.Ok? && s.atomsSection ==> r.value.atoms == s.atoms + [AtomOf(f, toFloat).value]
    ensures r.Ok? && !s.atomsSection ==> r.value == s
  {
    if !s.atomsSection then Ok(s)
    else
      var a :- AtomOf(f, toFloat);
      Ok(s.(atoms := s.atoms + [a]))
  }

  /** In data mode: append the row's first seven values. Only the columns can change, each
      by one value, and only in that mode can the line raise. */
  function ReadRow(s: Scan, f: Fields, toFloat: string -> Option<real>): (r: Result<Scan>)
    ensures r.Err? ==> s.dataSection
    ensures s.dataSection ==> (r.Ok? <==> RowOf(f, toFloat).Ok?)
    ensures r.Ok? ==> r.value.(data := s.data) == s
    ensures r.Ok? && s.dataSection ==> r.value.data == AddRow(s.data, RowOf(f, toFloat).value)
    ensures r.Ok? && !s.dataSection ==> r.value == s
  {
    if !s.dataSection then Ok(s)
    else
      var v :- RowOf(f, toFloat);
      Ok(s.(data := AddRow(s.data, v)))
  }

  /** One iteration of the loop body. The marker tests come first and end the iteration;
      otherwise the path, atoms and data parts run in turn, each when its flag is set.
      A step adds at most one atom and at most one value to each column, keeps the columns
      the same length, and outside path-header mode only a `genfmt` line touches `reff`. */
  function Step(s: Scan, f: Fields, toFloat: string -> Option<real>): (r: Result<Scan>)
    ensures r.Ok? ==> s.atoms <= r.value.atoms && |r.value.atoms| <= |s.atoms| + 1
    ensures r.Ok? && Aligned(s.data) ==>
      Aligned(r.value.data) && s.data.xk <= r.value.data.xk && |r.value.data.xk| <= |s.data.xk| + 1
    ensures r.Ok? && !s.pathSection && !IsGenfmt(f) ==> !r.value.pathSection && r.value.reff == s.reff
  {
    if IsGenfmt(f) then Ok(s.(pathSection := true))
    else
      var xyz :- XyzTest(f);
      if xyz then Ok(s.(atomsSection := true, pathSection := false))
      else
        var kHeader :- KTest(f);
        if kHeader then Ok(s.(dataSection := true, atomsSection := false))
        else if s.pathSection && LineContains(f, Divider) then Ok(s)
        else
          var s1 :- ReadReff(s, f, toFloat);
          var s2 :- ReadAtom(s1, f, toFloat);
          ReadRow(s2, f, toFloat)
  }

  /** The loop over the remaining lines, from scanner state `s`: atoms and column values are
      only ever appended, at most one per line, and the columns stay the same length. */
  function ScanFrom(s: Scan, lines: seq<Fields>, toFloat: string -> Option<real>): (r: Result<Scan>)
    ensures r.Ok? ==> s.atoms <= r.value.atoms && |r.value.atoms| <= |s.atoms| + |lines|
    ensures r.Ok? && Aligned(s.data) ==>
      Aligned(r.value.data) && s.data.xk <= r.value.data.xk && |r.value.data.xk| <= |s.data.xk| + |lines|
    decreases |lines|
  {
    if lines == [] then Ok(s)
    else
      var next :- Step(s, lines[0], toFloat);
      ScanFrom(next, lines[1..], toFloat)
  }

  /** What `load_feff_dat` returns (or raises) for a file with these lines; returning an
      unassigned `reff` raises UnboundLocalError. The seven returned arrays have the same
      length, and neither they nor the atoms table are longer than the file. */
  function LoadFeff(lines: seq<Fields>, toFloat: string -> Option<real>): (r: Result<PathData>)
    ensures r.Ok? ==> Aligned(r.value.data) && |r.value.data.xk| <= |lines| && |r.value.atoms| <= |lines|
  {
    var s :- ScanFrom(Start, lines, toFloat);
    if s.reff.None? then Err(UnboundLocalError)
    else Ok(PathData(s.atoms, s.reff.value, s.data))
  }

  /** `load_feff_dat` as the source runs it: three flags, `reff`, an atom list and seven lists. */
  method LoadFeffDat(lines: seq<Fields>, toFloat: string -> Option<real>) returns (r: Result<PathData>)
    ensures r == LoadFeff(lines, toFloat)
  {
    var xk, cdelta, afeff, phfeff, redfac, xlam, rep: seq<real> := [], [], [], [], [], [], [];
    var atoms: seq<Atom> := [];
    var reff: Option<real> := None;
    var pathSection, atomsSection, dataSection := false, false, false;
    for i := 0 to |lines|
      invariant ScanFrom(Start, lines, toFloat) ==
        ScanFrom(Scan(pathSection, atomsSection, dataSection, reff, atoms,
                      Columns(xk, cdelta, afeff, phfeff, redfac, xlam, rep)), lines[i..], toFloat)
    {
      var fields := lines[i];
      assert lines[i..] == [fields] + lines[i + 1..];
      if IsGenfmt(fields) {
        pathSection := true;
        continue;
      }
      var isXyz :- XyzTest(fields);
      if isXyz {
        atomsSection := true;
        pathSection := false;
        continue;
      }
      var isK :- KTest(fields);
      if isK {
        dataSection := true;
        atomsSection := false;
        continue;
      }
      if pathSection {
        if LineContains(fields, Divider) {
          continue;
        }
        var v :- FloatAt(fields, 2, toFloat);
        reff := Some(v);
        pathSection := false;
      }
      if atomsSection {
        var x :- FloatAt(fields, 0, toFloat);
        var y :- FloatAt(fields, 1, toFloat);
        var z :- FloatAt(fields, 2, toFloat);
        var pot :- IntAt(fields, 3);
        var number :- IntAt(fields, 4);
        atoms := atoms + [Atom(number, Position(x, y, z), pot)];
      }
      if dataSection {
        var values :- FloatsAll(fields, toFloat);
        if |values| < 7 {
          return Err(IndexError);
        }
        xk, cdelta, afeff, phfeff := xk + [values[0]], cdelta + [values[1]], afeff + [values[2]], phfeff + [values[3]];
        redfac, xlam, rep := redfac + [values[4]], xlam + [values[5]], rep + [values[6]];
      }
    }
    if reff.None? {
      return Err(UnboundLocalError);
    }
    return Ok(PathData(atoms, reff.value, Columns(xk, cdelta, afeff, phfeff, redfac, xlam, rep)));
  }

  // ---------------------------------------------------------------------------------------
  // Properties of the scan.

  /** Reading a file in two parts is reading it whole. */
  lemma {:induction false} ScanAppend(s: Scan, a: seq<Fields>, b: seq<Fields>, toFloat: string -> Option<real>)
    ensures ScanFrom(s, a + b, toFloat) ==
      match ScanFrom(s, a, toFloat)
      case Err(e) => Err(e)
      case Ok(t) => ScanFrom(t, b, toFloat)
    decreases |a|
  {
    if a == [] {
      assert a + b == b;
    } else {
      assert (a + b)[0] == a[0] && (a + b)[1..] == a[1..] + b;
      if Step(s, a[0], toFloat).Ok? {
        ScanAppend(Step(s, a[0], toFloat).value, a[1..], b, toFloat);
      }
    }
  }

  /** Reading one more line is one more step. */
  lemma ScanSnoc(s: Scan, a: seq<Fields>, f: Fields, toFloat: string -> Option<real>)
    ensures ScanFrom(s, a + [f], toFloat) ==
      match ScanFrom(s, a, toFloat)
      case Err(e) => Err(e)
      case Ok(t) => Step(t, f, toFloat)
  {
    ScanAppend(s, a, [f], toFloat);
    if ScanFrom(s, a, toFloat).Ok? {
      var t := ScanFrom(s, a, toFloat).value;
      if Step(t, f, toFloat).Ok? {
        assert ScanFrom(Step(t, f, toFloat).value, [], toFloat) == Ok(Step(t, f, toFloat).value);
      }
    }
  }

  /** Out of path-header mode, only a `genfmt` line can change `reff` or re-enter that mode. */
  lemma {:induction false} ReffSettled(s: Scan, lines: seq<Fields>, toFloat: string -> Option<real>)
    requires !s.pathSection
    requires forall i :: 0 <= i < |lines| ==> !IsGenfmt(lines[i])
    ensures ScanFrom(s, lines, toFloat).Ok? ==> ScanFrom(s, lines, toFloat).value.reff == s.reff
    decreases |lines|
  {
    if lines != [] && Step(s, lines[0], toFloat).Ok? {
      ReffSettled(Step(s, lines[0], toFloat).value, lines[1..], toFloat);
    }
  }

  /** Without a `genfmt` line `reff` is never assigned, so `load_feff_dat` always raises. */
  lemma NoGenfmtRaises(lines: seq<Fields>, toFloat: string -> Option<real>)
    requires forall i :: 0 <= i < |lines| ==> !IsGenfmt(lines[i])
    ensures LoadFeff(lines, toFloat).Err?
  {
    ReffSettled(Start, lines, toFloat);
  }

  /** A blank line makes the scan fail, whatever the mode; when every line before it is
      read, it is that line's `fields[0]` that raises IndexError. */
  lemma {:induction false} BlankLineRaises(s: Scan, lines: seq<Fields>, i: nat, toFloat: string -> Option<real>)
    requires i < |lines| && lines[i] == []
    ensures ScanFrom(s, lines, toFloat).Err?
    ensures ScanFrom(s, lines[..i], toFloat).Ok? ==> ScanFrom(s, lines, toFloat) == Err(IndexError)
    decreases i
  {
    if i > 0 && Step(s, lines[0], toFloat).Ok? {
      assert lines[1..][..i - 1] == lines[..i][1..];
      BlankLineRaises(Step(s, lines[0], toFloat).value, lines[1..], i - 1, toFloat);
    }
  }

  /** So a file with a blank line is never read; when the lines before it are read, the
      load raises IndexError. */
  lemma BlankFileLineRaises(lines: seq<Fields>, i: nat, toFloat: string -> Option<real>)
    requires i < |lines| && lines[i] == []
    ensures LoadFeff(lines, toFloat).Err?
    ensures ScanFrom(Start, lines[..i], toFloat).Ok? ==> LoadFeff(lines, toFloat) == Err(IndexError)
  {
    BlankLineRaises(Start, lines, i, toFloat);
  }

  /** A marker line (`genfmt`, `x y z`, `k real[2*phc]`) adds no atom and no data row. */
  lemma MarkerLineAddsNothing(pre: seq<Fields>, f: Fields, toFloat: string -> Option<real>)
    requires IsGenfmt(f) || IsAtomsHeader(f) || IsDataHeader(f)
    requires ScanFrom(Start, pre, toFloat).Ok?
    ensures ScanFrom(Start, pre + [f], toFloat).Ok?
    ensures ScanFrom(Start, pre + [f], toFloat).value.atoms == ScanFrom(Start, pre, toFloat).value.atoms
    ensures ScanFrom(Start, pre + [f], toFloat).value.data == ScanFrom(Start, pre, toFloat).value.data
  {
    ScanSnoc(Start, pre, f, toFloat);
  }

  /** In atoms mode a plain line (that is not a divider skipped in path-header mode) appends
      exactly the atom it describes: position from tokens 0-2, tag from token 3, atomic number
      from token 4; when atoms mode is the only mode, that is all the line does, and it raises
      exactly when the atom does not convert. */
  lemma AtomLineAppendsAtom(pre: seq<Fields>, f: Fields, toFloat: string -> Option<real>)
    requires IsPlain(f)
    requires ScanFrom(Start, pre, toFloat).Ok?
    requires var s := ScanFrom(Start, pre, toFloat).value; s.atomsSection && !(s.pathSection && LineContains(f, Divider))
    ensures ScanFrom(Start, pre + [f], toFloat).Ok? ==>
      AtomOf(f, toFloat).Ok? &&
      ScanFrom(Start, pre + [f], toFloat).value.atoms == ScanFrom(Start, pre, toFloat).value.atoms + [AtomOf(f, toFloat).value]
    ensures var s := ScanFrom(Start, pre, toFloat).value; !s.pathSection && !s.dataSection ==>
      (ScanFrom(Start, pre + [f], toFloat).Ok? <==> AtomOf(f, toFloat).Ok?) &&
      (AtomOf(f, toFloat).Ok? ==> ScanFrom(Start, pre + [f], toFloat) == Ok(s.(atoms := s.atoms + [AtomOf(f, toFloat).value])))
  {
    ScanSnoc(Start, pre, f, toFloat);
  }

  /** In data mode a plain line (that is not a divider skipped in path-header mode) appends its
      first seven values, one to each column in order; when data mode is the only mode, that
      is all the line does, and it raises exactly when the row does not convert. */
  lemma DataLineAppendsRow(pre: seq<Fields>, f: Fields, toFloat: string -> Option<real>)
    requires IsPlain(f)
    requires ScanFrom(Start, pre, toFloat).Ok?
    requires var s := ScanFrom(Start, pre, toFloat).value; s.dataSection && !(s.pathSection && LineContains(f, Divider))
    ensures ScanFrom(Start, pre + [f], toFloat).Ok? ==>
      RowOf(f, toFloat).Ok? &&
      ScanFrom(Start, pre + [f], toFloat).value.data == AddRow(ScanFrom(Start, pre, toFloat).value.data, RowOf(f, toFloat).value)
    ensures RowOf(f, toFloat).Ok? ==>
      RowOf(f, toFloat).value ==
        [toFloat(f[0]).value, toFloat(f[1]).value, toFloat(f[2]).value, toFloat(f[3]).value,
         toFloat(f[4]).value, toFloat(f[5]).value, toFloat(f[6]).value]
    ensures var s := ScanFrom(Start, pre, toFloat).value; !s.pathSection && !s.atomsSection ==>
      (ScanFrom(Start, pre + [f], toFloat).Ok? <==> RowOf(f, toFloat).Ok?) &&
      (RowOf(f, toFloat).Ok? ==> ScanFrom(Start, pre + [f], toFloat) == Ok(s.(data := AddRow(s.data, RowOf(f, toFloat).value))))
  {
    ScanSnoc(Start, pre, f, toFloat);
  }

  /** Out of atoms mode, lines that are not `x y z` headers add no atoms. */
  lemma {:induction false} AtomsSettled(s: Scan, lines: seq<Fields>, toFloat: string -> Option<real>)
    requires !s.atomsSection
    requires forall i :: 0 <= i < |lines| ==> !IsAtomsHeader(lines[i])
    ensures ScanFrom(s, lines, toFloat).Ok? ==> ScanFrom(s, lines, toFloat).value.atoms == s.atoms
    decreases |lines|
  {
    if lines != [] && Step(s, lines[0], toFloat).Ok? {
      AtomsOffStep(s, lines[0], toFloat);
      AtomsSettled(Step(s, lines[0], toFloat).value, lines[1..], toFloat);
    }
  }

  lemma AtomsOffStep(s: Scan, f: Fields, toFloat: string -> Option<real>)
    requires !s.atomsSection && !IsAtomsHeader(f) && Step(s, f, toFloat).Ok?
    ensures !Step(s, f, toFloat).value.atomsSection && Step(s, f, toFloat).value.atoms == s.atoms
  {
  }

  /** Out of data mode, lines that are not `k real[2*phc]` headers add no data rows. */
  lemma {:induction false} DataSettled(s: Scan, lines: seq<Fields>, toFloat: string -> Option<real>)
    requires !s.dataSection
    requires forall i :: 0 <= i < |lines| ==> !IsDataHeader(lines[i])
    ensures ScanFrom(s, lines, toFloat).Ok? ==> ScanFrom(s, lines, toFloat).value.data == s.data
    decreases |lines|
  {
    if lines != [] && Step(s, lines[0], toFloat).Ok? {
      DataOffStep(s, lines[0], toFloat);
      DataSettled(Step(s, lines[0], toFloat).value, lines[1..], toFloat);
    }
  }

  lemma DataOffStep(s: Scan, f: Fields, toFloat: string -> Option<real>)
    requires !s.dataSection && !IsDataHeader(f) && Step(s, f, toFloat).Ok?
    ensures !Step(s, f, toFloat).value.dataSection && Step(s, f, toFloat).value.data == s.data
  {
  }

  /** Without a `k real[2*phc]` header the seven returned arrays are empty. */
  lemma NoDataHeaderNoColumns(lines: seq<Fields>, toFloat: string -> Option<real>)
    requires forall i :: 0 <= i < |lines| ==> !IsDataHeader(lines[i])
    ensures LoadFeff(lines, toFloat).Ok? ==> LoadFeff(lines, toFloat).value.data == NoColumns
  {
    DataSettled(Start, lines, toFloat);
  }

  /** The `k real[2*phc]` header ends atoms mode: unless another `x y z` header follows,
      every atom of the result was read before it. */
  lemma AtomsEndAtDataHeader(pre: seq<Fields>, f: Fields, post: seq<Fields>, toFloat: string -> Option<real>)
    requires IsDataHeader(f)
    requires forall i :: 0 <= i < |post| ==> !IsAtomsHeader(post[i])
    ensures LoadFeff(pre + [f] + post, toFloat).Ok? ==>
      ScanFrom(Start, pre, toFloat).Ok? &&
      LoadFeff(pre + [f] + post, toFloat).value.atoms == ScanFrom(Start, pre, toFloat).value.atoms
  {
    LoadFeffIsScan(pre + [f] + post, toFloat);
    ScanAppend(Start, pre + [f], post, toFloat);
    ScanSnoc(Start, pre, f, toFloat);
    if ScanFrom(Start, pre, toFloat).Ok? {
      var t := ScanFrom(Start, pre, toFloat).value;
      DataHeaderStep(t, f, toFloat);
      AtomsSettled(t.(dataSection := true, atomsSection := false), post, toFloat);
    }
  }

  /** `LoadFeff` returns the scanner's final atoms, `reff` and columns. */
  lemma LoadFeffIsScan(lines: seq<Fields>, toFloat: string -> Option<real>)
    ensures LoadFeff(lines, toFloat).Ok? <==> ScanFrom(Start, lines, toFloat).Ok? && ScanFrom(Start, lines, toFloat).value.reff.Some?
    ensures LoadFeff(lines, toFloat).Ok? ==>
      var s := ScanFrom(Start, lines, toFloat).value;
      LoadFeff(lines, toFloat).value == PathData(s.atoms, s.reff.value, s.data)
  {
  }

  /** A `genfmt` line followed directly by an `x y z` header: path-header mode ends there
      and `reff` keeps whatever value it had. */
  lemma XyzHeaderEndsPathMode(pre: seq<Fields>, g: Fields, ah: Fields, toFloat: string -> Option<real>)
    requires IsGenfmt(g) && IsAtomsHeader(ah)
    requires ScanFrom(Start, pre, toFloat).Ok?
    ensures var s := ScanFrom(Start, pre, toFloat).value;
      ScanFrom(Start, pre + [g, ah], toFloat) == Ok(s.(atomsSection := true, pathSection := false))
  {
    var s := ScanFrom(Start, pre, toFloat).value;
    ScanAppend(Start, pre, [g, ah], toFloat);
    GenfmtStep(s, g, toFloat);
    AtomsHeaderStep(s.(pathSection := true), ah, toFloat);
    ScanStep(s, [g, ah], s.(pathSection := true), toFloat);
    ScanStep(s.(pathSection := true), [ah], s.(atomsSection := true, pathSection := false), toFloat);
  }

  /** A `genfmt` line followed directly by a `k real[2*phc]` header leaves path-header mode
      on, so the first data row after it is also read as the path header line: it sets
      `reff` to its third value and is appended to the columns. */
  lemma DataRowTakenAsReff(pre: seq<Fields>, g: Fields, dh: Fields, row: Fields, toFloat: string -> Option<real>)
    requires IsGenfmt(g) && IsDataHeader(dh) && IsPlain(row) && !LineContains(row, Divider)
    requires ScanFrom(Start, pre, toFloat).Ok?
    ensures ScanFrom(Start, pre + [g, dh, row], toFloat).Ok? ==>
      var s := ScanFrom(Start, pre, toFloat).value;
      var r := ScanFrom(Start, pre + [g, dh, row], toFloat).value;
      |row| >= 3 && toFloat(row[2]).Some? && r.reff == Some(toFloat(row[2]).value) &&
      RowOf(row, toFloat).Ok? && r.data == AddRow(s.data, RowOf(row, toFloat).value)
  {
    var s := ScanFrom(Start, pre, toFloat).value;
    var s1 := s.(pathSection := true);
    var s2 := s1.(dataSection := true, atomsSection := false);
    ScanAppend(Start, pre, [g, dh, row], toFloat);
    GenfmtStep(s, g, toFloat);
    DataHeaderStep(s1, dh, toFloat);
    ScanStep(s, [g, dh, row], s1, toFloat);
    assert [g, dh, row][1..] == [dh, row];
    ScanStep(s1, [dh, row], s2, toFloat);
    assert [dh, row][1..] == [row];
  }

  /** A `k real[2*phc]` header enters data mode and ends atoms mode; it leaves path-header
      mode and `reff` as they were. */
  lemma DataHeaderStep(s: Scan, f: Fields, toFloat: string -> Option<real>)
    requires IsDataHeader(f)
    ensures Step(s, f, toFloat) == Ok(s.(dataSection := true, atomsSection := false))
  {
  }

  /** When only dividers come between the last `genfmt` line and the next plain line, `reff`
      is that line's third token (`DataRowTakenAsReff` and `XyzHeaderEndsPathMode` show what
      happens when a marker line comes first). */
  lemma ReffFromPathHeader(pre: seq<Fields>, g: Fields, dividers: seq<Fields>, f: Fields, post: seq<Fields>,
                           toFloat: string -> Option<real>)
    requires IsGenfmt(g)
    requires forall i :: 0 <= i < |dividers| ==> IsPlain(dividers[i]) && LineContains(dividers[i], Divider)
    requires IsPlain(f) && !LineContains(f, Divider)
    requires forall i :: 0 <= i < |post| ==> !IsGenfmt(post[i])
    ensures LoadFeff(pre + [g] + dividers + [f] + post, toFloat).Ok? ==>
      |f| >= 3 && toFloat(f[2]).Some? &&
      LoadFeff(pre + [g] + dividers + [f] + post, toFloat).value.reff == toFloat(f[2]).value
  {
    var lines := pre + [g] + dividers + [f] + post;
    LoadFeffIsScan(lines, toFloat);
    ScanAppend(Start, pre + [g] + dividers + [f], post, toFloat);
    ScanSnoc(Start, pre + [g] + dividers, f, toFloat);
    ScanAppend(Start, pre + [g], dividers, toFloat);
    ScanSnoc(Start, pre, g, toFloat);
    if ScanFrom(Start, pre, toFloat).Ok? {
      var p := ScanFrom(Start, pre, toFloat).value.(pathSection := true);
      DividersSkipped(p, dividers, toFloat);
      PathHeaderStep(p, f, toFloat);
      if Step(p, f, toFloat).Ok? {
        ReffSettled(Step(p, f, toFloat).value, post, toFloat);
      }
    }
  }

  /** In path-header mode divider lines change nothing. */
  lemma {:induction false} DividersSkipped(s: Scan, dividers: seq<Fields>, toFloat: string -> Option<real>)
    requires s.pathSection
    requires forall i :: 0 <= i < |dividers| ==> IsPlain(dividers[i]) && LineContains(dividers[i], Divider)
    ensures ScanFrom(s, dividers, toFloat) == Ok(s)
    decreases |dividers|
  {
    if dividers != [] {
      DividersSkipped(s, dividers[1..], toFloat);
    }
  }

  /** In path-header mode a plain non-divider line sets `reff` from its third token and
      leaves the mode. */
  lemma PathHeaderStep(s: Scan, f: Fields, toFloat: string -> Option<real>)
    requires s.pathSection && IsPlain(f) && !LineContains(f, Divider)
    ensures Step(s, f, toFloat).Ok? ==>
      |f| >= 3 && toFloat(f[2]).Some? &&
      Step(s, f, toFloat).value.reff == Some(toFloat(f[2]).value) && !Step(s, f, toFloat).value.pathSection
  {
  }

  lemma GenfmtStep(s: Scan, f: Fields, toFloat: string -> Option<real>)
    requires IsGenfmt(f)
    ensures Step(s, f, toFloat) == Ok(s.(pathSection := true))
  {
  }

  /** An `x y z` header enters atoms mode and ends path-header mode, leaving `reff` and data
      mode as they were. */
  lemma AtomsHeaderStep(s: Scan, f: Fields, toFloat: string -> Option<real>)
    requires IsAtomsHeader(f)
    ensures Step(s, f, toFloat) == Ok(s.(atomsSection := true, pathSection := false))
  {
  }

  lemma DividerStep(s: Scan, f: Fields, toFloat: string -> Option<real>)
    requires s.pathSection && IsPlain(f) && LineContains(f, Divider)
    ensures Step(s, f, toFloat) == Ok(s)
  {
  }

  /** In path-header mode alone, the header line sets `reff` and leaves the mode. */
  lemma ReffStep(s: Scan, f: Fields, v: real, toFloat: string -> Option<real>)
    requires s.pathSection && !s.atomsSection && !s.dataSection
    requires IsPlain(f) && !LineContains(f, Divider) && FloatAt(f, 2, toFloat) == Ok(v)
    ensures Step(s, f, toFloat) == Ok(s.(reff := Some(v), pathSection := false))
  {
  }

  /** In atoms mode alone, a plain line appends its atom. */
  lemma AtomRowStep(s: Scan, f: Fields, a: Atom, toFloat: string -> Option<real>)
    requires s.atomsSection && !s.pathSection && !s.dataSection && IsPlain(f) && AtomOf(f, toFloat) == Ok(a)
    ensures Step(s, f, toFloat) == Ok(s.(atoms := s.atoms + [a]))
  {
  }

  /** In data mode alone, a plain line appends its row. */
  lemma DataRowStep(s: Scan, f: Fields, v: seq<real>, toFloat: string -> Option<real>)
    requires s.dataSection && !s.pathSection && !s.atomsSection && IsPlain(f) && RowOf(f, toFloat) == Ok(v)
    ensures Step(s, f, toFloat) == Ok(s.(data := AddRow(s.data, v)))
  {
  }

  /** Unfolding the scan by one line. */
  lemma ScanStep(s: Scan, lines: seq<Fields>, next: Scan, toFloat: string -> Option<real>)
    requires lines != [] && Step(s, lines[0], toFloat) == Ok(next)
    ensures ScanFrom(s, lines, toFloat) == ScanFrom(next, lines[1..], toFloat)
  {
  }

  /** A file in the layout FEFF writes: a `genfmt` line, a divider, the path header line,
      the `x y z` header with two atom rows, and the `k real[2*phc]` header with one data row,
      gives those two atoms, `reff` from the header line and one value in each column. */
  lemma FeffLayout(g: Fields, d: Fields, h: Fields, ah: Fields, r1: Fields, r2: Fields, dh: Fields, row: Fields,
                   toFloat: string -> Option<real>)
    requires IsGenfmt(g) && IsPlain(d) && LineContains(d, Divider)
    requires IsPlain(h) && !LineContains(h, Divider) && FloatAt(h, 2, toFloat).Ok?
    requires IsAtomsHeader(ah) && IsPlain(r1) && IsPlain(r2) && AtomOf(r1, toFloat).Ok? && AtomOf(r2, toFloat).Ok?
    requires IsDataHeader(dh) && IsPlain(row) && RowOf(row, toFloat).Ok?
    ensures LoadFeff([g, d, h] + [ah, r1, r2] + [dh, row], toFloat) ==
      Ok(PathData([AtomOf(r1, toFloat).value, AtomOf(r2, toFloat).value], FloatAt(h, 2, toFloat).value,
                  AddRow(NoColumns, RowOf(row, toFloat).value)))
  {
    var s8 := LayoutScan(g, d, h, ah, r1, r2, dh, row, toFloat);
    Regroup([g, d, h], [ah, r1, r2], [dh, row]);
  }

  lemma Regroup<T>(a: seq<T>, b: seq<T>, c: seq<T>)
    ensures a + b + c == a + (b + c)
  {
  }

  /** The scan of that layout, block by block. */
  lemma LayoutScan(g: Fields, d: Fields, h: Fields, ah: Fields, r1: Fields, r2: Fields, dh: Fields, row: Fields,
                   toFloat: string -> Option<real>) returns (s8: Scan)
    requires IsGenfmt(g) && IsPlain(d) && LineContains(d, Divider)
    requires IsPlain(h) && !LineContains(h, Divider) && FloatAt(h, 2, toFloat).Ok?
    requires IsAtomsHeader(ah) && IsPlain(r1) && IsPlain(r2) && AtomOf(r1, toFloat).Ok? && AtomOf(r2, toFloat).Ok?
    requires IsDataHeader(dh) && IsPlain(row) && RowOf(row, toFloat).Ok?
    ensures s8 == Scan(false, false, true, Some(FloatAt(h, 2, toFloat).value),
                       [AtomOf(r1, toFloat).value, AtomOf(r2, toFloat).value], AddRow(NoColumns, RowOf(row, toFloat).value))
    ensures ScanFrom(Start, [g, d, h] + ([ah, r1, r2] + [dh, row]), toFloat) == Ok(s8)
  {
    var a1, a2 := AtomOf(r1, toFloat).value, AtomOf(r2, toFloat).value;
    var s3 := Start.(reff := Some(FloatAt(h, 2, toFloat).value));
    var s6 := s3.(atomsSection := true, atoms := [a1, a2]);
    s8 := s6.(dataSection := true, atomsSection := false, data := AddRow(NoColumns, RowOf(row, toFloat).value));
    var body := [ah, r1, r2] + [dh, row];
    HeaderBlock(g, d, h, body, toFloat);
    AtomsBlock(s3, ah, r1, r2, [dh, row], toFloat);
    DataBlock(s6, dh, row, toFloat);
  }

  lemma HeaderBlock(g: Fields, d: Fields, h: Fields, rest: seq<Fields>, toFloat: string -> Option<real>)
    requires IsGenfmt(g) && IsPlain(d) && LineContains(d, Divider)
    requires IsPlain(h) && !LineContains(h, Divider) && FloatAt(h, 2, toFloat).Ok?
    ensures ScanFrom(Start, [g, d, h] + rest, toFloat) ==
      ScanFrom(Start.(reff := Some(FloatAt(h, 2, toFloat).value)), rest, toFloat)
  {
    var lines := [g, d, h] + rest;
    var s1 := Start.(pathSection := true);
    GenfmtStep(Start, g, toFloat);
    DividerStep(s1, d, toFloat);
    ReffStep(s1, h, FloatAt(h, 2, toFloat).value, toFloat);
    ScanStep(Start, lines, s1, toFloat);
    ScanStep(s1, lines[1..], s1, toFloat);
    ScanStep(s1, lines[2..], Start.(reff := Some(FloatAt(h, 2, toFloat).value)), toFloat);
    assert lines[2..][1..] == rest;
  }

  lemma AtomsBlock(s: Scan, ah: Fields, r1: Fields, r2: Fields, rest: seq<Fields>, toFloat: string -> Option<real>)
    requires !s.pathSection && !s.dataSection && s.atoms == []
    requires IsAtomsHeader(ah) && IsPlain(r1) && IsPlain(r2) && AtomOf(r1, toFloat).Ok? && AtomOf(r2, toFloat).Ok?
    ensures ScanFrom(s, [ah, r1, r2] + rest, toFloat) ==
      ScanFrom(s.(atomsSection := true, atoms := [AtomOf(r1, toFloat).value, AtomOf(r2, toFloat).value]), rest, toFloat)
  {
    var lines := [ah, r1, r2] + rest;
    var a1, a2 := AtomOf(r1, toFloat).value, AtomOf(r2, toFloat).value;
    var s4 := s.(atomsSection := true);
    var s5 := s4.(atoms := s4.atoms + [a1]);
    var s6 := s5.(atoms := s5.atoms + [a2]);
    AtomsHeaderStep(s, ah, toFloat);
    AtomRowStep(s4, r1, a1, toFloat);
    AtomRowStep(s5, r2, a2, toFloat);
    ScanStep(s, lines, s4, toFloat);
    ScanStep(s4, lines[1..], s5, toFloat);
    ScanStep(s5, lines[2..], s6, toFloat);
    assert lines[2..][1..] == rest;
    assert s6.atoms == [a1, a2];
  }

  lemma DataBlock(s: Scan, dh: Fields, row: Fields, toFloat: string -> Option<real>)
    requires !s.pathSection && s.data == NoColumns
    requires IsDataHeader(dh) && IsPlain(row) && RowOf(row, toFloat).Ok?
    ensures ScanFrom(s, [dh, row], toFloat) ==
      Ok(s.(dataSection := true, atomsSection := false, data := AddRow(NoColumns, RowOf(row, toFloat).value)))
  {
    var s7 := s.(dataSection := true, atomsSection := false);
    var s8 := s7.(data := AddRow(s7.data, RowOf(row, toFloat).value));
    DataHeaderStep(s, dh, toFloat);
    DataRowStep(s7, row, RowOf(row, toFloat).value, toFloat);
    ScanStep(s, [dh, row], s7, toFloat);
    ScanStep(s7, [row], s8, toFloat);
  }
}
