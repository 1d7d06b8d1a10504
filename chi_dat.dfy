/** `load_chi_dat`: reading the (k, chi(k)) curve from FEFF's `chi.dat`. */
module ChiDat {
  import opened Results
  import opened LineFields

  /** The two returned arrays. */
  datatype Chi = Chi(k: seq<real>, chi: seq<real>)

  /** `fields[0] == "k" and fields[1] == "chi" and fields[2] == "mag"`, evaluated left to right
      with `and` short-circuiting, so a short line starting with `k` raises IndexError. */
  function HeaderTest(f: Fields): (r: Result<bool>)
    ensures r == Ok(true) <==> |f| >= 3 && f[0] == "k" && f[1] == "chi" && f[2] == "mag"
    ensures r.Err? <==> f == [] || (f[0] == "k" && (|f| == 1 || (f[1] == "chi" && |f| == 2)))
  {
    var isK :- TokenIs(f, 0, "k");
    if !isK then Ok(false) else
    var isChi :- TokenIs(f, 1, "chi");
    if !isChi then Ok(false) else
    TokenIs(f, 2, "mag")
  }

  predicate IsHeader(f: Fields) {
    HeaderTest(f) == Ok(true)
  }

  /** A line that is neither blank nor a header (and whose header test does not raise). */
  predicate IsDataLine(f: Fields) {
    f != [] && HeaderTest(f) == Ok(false)
  }

  /** The scanner's variables: `chi_section`, `k` and `chi`. */
  datatype Scan = Scan(inSection: bool, k: seq<real>, chi: seq<real>)

  const Start := Scan(false, [], [])

  /** One iteration of the loop body. It only ever appends, and to both lists at once. */
  function Step(s: Scan, f: Fields, toFloat: string -> Option<real>): (r: Result<Scan>)
    ensures r.Ok? ==> s.k <= r.value.k && s.chi <= r.value.chi
    ensures r.Ok? ==> |r.value.k| - |s.k| == |r.value.chi| - |s.chi| <= 1
    ensures r.Ok? && !r.value.inSection ==> r.value == s
  {
    if f == [] then Ok(s)
    else
      var header :- HeaderTest(f);
      if header then Ok(s.(inSection := true))
      else if !s.inSection then Ok(s)
      else
        var kv :- FloatAt(f, 0, toFloat);
        var chiv :- FloatAt(f, 1, toFloat);
        Ok(s.(k := s.k + [kv], chi := s.chi + [chiv]))
  }

  /** The loop over the remaining lines, from scanner state `s`. */
  function ScanFrom(s: Scan, lines: seq<Fields>, toFloat: string -> Option<real>): (r: Result<Scan>)
    ensures r.Ok? ==> s.k <= r.value.k && s.chi <= r.value.chi
    ensures r.Ok? ==> |r.value.k| - |s.k| == |r.value.chi| - |s.chi| <= |lines|
    decreases |lines|
  {
    if lines == [] then Ok(s)
    else
      var next :- Step(s, lines[0], toFloat);
      ScanFrom(next, lines[1..], toFloat)
  }

  /** What `load_chi_dat` returns (or raises) for a file with these lines: two arrays of
      the same length, at most one entry per line. */
  function LoadChi(lines: seq<Fields>, toFloat: string -> Option<real>): (r: Result<Chi>)
    ensures r.Ok? ==> |r.value.k| == |r.value.chi| <= |lines|
  {
    var s :- ScanFrom(Start, lines, toFloat);
    Ok(Chi(s.k, s.chi))
  }

  /** `load_chi_dat` as the source runs it: one pass, a flag and two growing lists. */
  method LoadChiDat(lines: seq<Fields>, toFloat: string -> Option<real>) returns (r: Result<Chi>)
    ensures r == LoadChi(lines, toFloat)
  {
    var chiSection := false;
    var k: seq<real> := [];
    var chi: seq<real> := [];
    for i := 0 to |lines|
      invariant ScanFrom(Start, lines, toFloat) == ScanFrom(Scan(chiSection, k, chi), lines[i..], toFloat)
    {
      var fields := lines[i];
      assert lines[i..] == [fields] + lines[i + 1..];
      if |fields| == 0 {
        continue;
      }
      var isHeader :- HeaderTest(fields);
      if isHeader {
        chiSection := true;
        continue;
      }
      if chiSection {
        var kv :- FloatAt(fields, 0, toFloat);
        k := k + [kv];
        var chiv :- FloatAt(fields, 1, toFloat);
        chi := chi + [chiv];
      }
    }
    return Ok(Chi(k, chi));
  }

  // ---------------------------------------------------------------------------------------
  // An independent description of the result: which lines contribute, and what they give.

  /** The data lines among `lines`, in file order. */
  function DataLines(lines: seq<Fields>): (rows: seq<Fields>)
    ensures |rows| <= |lines|
    ensures forall j :: 0 <= j < |rows| ==> IsDataLine(rows[j])
  {
    if lines == [] then []
    else if IsDataLine(lines[0]) then [lines[0]] + DataLines(lines[1..])
    else DataLines(lines[1..])
  }

  /** The data lines that follow the first `k chi mag` header; none when there is no header. */
  function RowsAfterHeader(lines: seq<Fields>): seq<Fields> {
    if lines == [] then []
    else if IsHeader(lines[0]) then DataLines(lines[1..])
    else RowsAfterHeader(lines[1..])
  }

  /** No non-blank line makes the header test itself raise. */
  predicate HeadersReadable(lines: seq<Fields>) {
    forall i :: 0 <= i < |lines| && lines[i] != [] ==> HeaderTest(lines[i]).Ok?
  }

  /** A data row has two leading tokens that `float` accepts. */
  predicate RowReadable(f: Fields, toFloat: string -> Option<real>) {
    |f| >= 2 && toFloat(f[0]).Some? && toFloat(f[1]).Some?
  }

  predicate RowsReadable(rows: seq<Fields>, toFloat: string -> Option<real>) {
    forall j :: 0 <= j < |rows| ==> RowReadable(rows[j], toFloat)
  }

  lemma RowsReadableCons(f: Fields, rows: seq<Fields>, toFloat: string -> Option<real>)
    ensures RowsReadable([f] + rows, toFloat) <==> RowReadable(f, toFloat) && RowsReadable(rows, toFloat)
  {
    var all := [f] + rows;
    if RowsReadable(all, toFloat) {
      assert RowReadable(all[0], toFloat);
      forall j | 0 <= j < |rows| ensures RowReadable(rows[j], toFloat) {
        assert rows[j] == all[j + 1];
      }
    }
    if RowReadable(f, toFloat) && RowsReadable(rows, toFloat) {
      forall j | 0 <= j < |all| ensures RowReadable(all[j], toFloat) {
        if j > 0 { assert all[j] == rows[j - 1]; }
      }
    }
  }

  /** Column `c` (0 or 1) of readable rows, converted by `float`. */
  function Column(rows: seq<Fields>, c: nat, toFloat: string -> Option<real>): (col: seq<real>)
    requires c < 2 && RowsReadable(rows, toFloat)
    ensures |col| == |rows|
    ensures forall j :: 0 <= j < |rows| ==> col[j] == toFloat(rows[j][c]).value
  {
    if rows == [] then [] else [toFloat(rows[0][c]).value] + Column(rows[1..], c, toFloat)
  }

  /** The lines still to come contribute `DataLines` when the header was already seen,
      `RowsAfterHeader` otherwise. */
  function Pending(inSection: bool, lines: seq<Fields>): seq<Fields> {
    if inSection then DataLines(lines) else RowsAfterHeader(lines)
  }

  /** The loop, from any state, succeeds exactly when no header test raises and every
      contributing row is readable, and then appends exactly the contributing rows' values. */
  lemma {:induction false} ScanFromRows(s: Scan, lines: seq<Fields>, toFloat: string -> Option<real>)
    ensures ScanFrom(s, lines, toFloat).Ok? <==>
      HeadersReadable(lines) && RowsReadable(Pending(s.inSection, lines), toFloat)
    ensures ScanFrom(s, lines, toFloat).Ok? ==>
      ScanFrom(s, lines, toFloat).value.k == s.k + Column(Pending(s.inSection, lines), 0, toFloat) &&
      ScanFrom(s, lines, toFloat).value.chi == s.chi + Column(Pending(s.inSection, lines), 1, toFloat)
    decreases |lines|
  {
    if lines != [] {
      var f, rest := lines[0], lines[1..];
      HeadersReadableCons(lines);
      if f == [] || !IsDataLine(f) || !s.inSection {
        if Step(s, f, toFloat).Ok? {
          ScanFromRows(Step(s, f, toFloat).value, rest, toFloat);
        }
      } else {
        DataRowScan(s, lines, toFloat);
      }
    }
  }

  lemma HeadersReadableCons(lines: seq<Fields>)
    requires lines != []
    ensures HeadersReadable(lines) <==> (lines[0] != [] ==> HeaderTest(lines[0]).Ok?) && HeadersReadable(lines[1..])
  {
    assert forall i :: 0 < i < |lines| ==> lines[i] == lines[1..][i - 1];
  }

  /** The inductive step of `ScanFromRows` for a data line read inside the section. */
  lemma {:induction false} DataRowScan(s: Scan, lines: seq<Fields>, toFloat: string -> Option<real>)
    requires lines != [] && IsDataLine(lines[0]) && s.inSection
    requires HeadersReadable(lines) <==> HeadersReadable(lines[1..])
    ensures ScanFrom(s, lines, toFloat).Ok? <==>
      HeadersReadable(lines) && RowsReadable(Pending(s.inSection, lines), toFloat)
    ensures ScanFrom(s, lines, toFloat).Ok? ==>
      ScanFrom(s, lines, toFloat).value.k == s.k + Column(Pending(s.inSection, lines), 0, toFloat) &&
      ScanFrom(s, lines, toFloat).value.chi == s.chi + Column(Pending(s.inSection, lines), 1, toFloat)
    decreases |lines|, 0
  {
    var f, rest := lines[0], lines[1..];
    var rows := DataLines(rest);
    assert Pending(s.inSection, lines) == [f] + rows;
    RowsReadableCons(f, rows, toFloat);
    DataRowStep(s, f, toFloat);
    if RowReadable(f, toFloat) {
      var next := Step(s, f, toFloat).value;
      ScanFromRows(next, rest, toFloat);
      if ScanFrom(next, rest, toFloat).Ok? {
        var done := ScanFrom(next, rest, toFloat).value;
        AppendRow(s.k, toFloat(f[0]).value, Column(rows, 0, toFloat), Column([f] + rows, 0, toFloat), done.k) by {
          ColumnCons(f, rows, 0, toFloat);
        }
        AppendRow(s.chi, toFloat(f[1]).value, Column(rows, 1, toFloat), Column([f] + rows, 1, toFloat), done.chi) by {
          ColumnCons(f, rows, 1, toFloat);
        }
      }
    }
  }

  lemma AppendRow(before: seq<real>, v: real, col: seq<real>, whole: seq<real>, after: seq<real>)
    requires whole == [v] + col && after == (before + [v]) + col
    ensures after == before + whole
  {
  }

  /** A data line inside the section appends its two leading values, or raises. */
  lemma DataRowStep(s: Scan, f: Fields, toFloat: string -> Option<real>)
    requires IsDataLine(f) && s.inSection
    ensures Step(s, f, toFloat).Ok? <==> RowReadable(f, toFloat)
    ensures RowReadable(f, toFloat) ==>
      Step(s, f, toFloat).value == Scan(true, s.k + [toFloat(f[0]).value], s.chi + [toFloat(f[1]).value])
  {
  }

  lemma ColumnCons(f: Fields, rows: seq<Fields>, c: nat, toFloat: string -> Option<real>)
    requires c < 2 && RowReadable(f, toFloat) && RowsReadable(rows, toFloat) && RowsReadable([f] + rows, toFloat)
    ensures Column([f] + rows, c, toFloat) == [toFloat(f[c]).value] + Column(rows, c, toFloat)
  {
    assert ([f] + rows)[1..] == rows;
  }

  /** `load_chi_dat` succeeds exactly when no header test raises and every data line after
      the first header has two numeric leading tokens; `k` and `chi` are then those tokens,
      in file order, one pair per data line. */
  lemma LoadChiRows(lines: seq<Fields>, toFloat: string -> Option<real>)
    ensures LoadChi(lines, toFloat).Ok? <==>
      HeadersReadable(lines) && RowsReadable(RowsAfterHeader(lines), toFloat)
    ensures LoadChi(lines, toFloat).Ok? ==>
      LoadChi(lines, toFloat).value ==
        Chi(Column(RowsAfterHeader(lines), 0, toFloat), Column(RowsAfterHeader(lines), 1, toFloat))
  {
    ScanFromRows(Start, lines, toFloat);
  }

  /** Without a `k chi mag` header nothing is read: the result is two empty arrays, unless a
      short line starting with `k` makes the header test raise. */
  lemma {:induction false} ChiWithoutHeader(lines: seq<Fields>, toFloat: string -> Option<real>)
    requires forall i :: 0 <= i < |lines| ==> !IsHeader(lines[i])
    ensures LoadChi(lines, toFloat) == if HeadersReadable(lines) then Ok(Chi([], [])) else Err(IndexError)
  {
    NoHeaderNoRows(lines);
    LoadChiRows(lines, toFloat);
    if !HeadersReadable(lines) {
      ScanFailsWithIndexError(Start, lines, toFloat);
    }
  }

  lemma {:induction false} NoHeaderNoRows(lines: seq<Fields>)
    requires forall i :: 0 <= i < |lines| ==> !IsHeader(lines[i])
    ensures RowsAfterHeader(lines) == []
  {
    if lines != [] {
      NoHeaderNoRows(lines[1..]);
    }
  }

  /** Before the header, the only way to fail is the header test's IndexError. */
  lemma {:induction false} ScanFailsWithIndexError(s: Scan, lines: seq<Fields>, toFloat: string -> Option<real>)
    requires !s.inSection
    requires forall i :: 0 <= i < |lines| ==> !IsHeader(lines[i])
    ensures ScanFrom(s, lines, toFloat).Err? ==> ScanFrom(s, lines, toFloat).error == IndexError
    decreases |lines|
  {
    if lines != [] {
      ScanFailsWithIndexError(s, lines[1..], toFloat);
    }
  }

  /** A small chi.dat: a preamble, a blank line, the header and two rows give
      k = [1.0, 2.0] and chi = [0.5, 0.3]; the third column is ignored. */
  lemma ChiExample(toFloat: string -> Option<real>)
    requires toFloat("1.0").Some? && toFloat("0.5").Some? && toFloat("2.0").Some? && toFloat("0.3").Some?
    ensures LoadChi([["#", "chi.dat"], [], ["k", "chi", "mag"], ["1.0", "0.5", "0.1"], ["2.0", "0.3", "0.1"]], toFloat)
      == Ok(Chi([toFloat("1.0").value, toFloat("2.0").value], [toFloat("0.5").value, toFloat("0.3").value]))
  {
    var row1, row2 := ["1.0", "0.5", "0.1"], ["2.0", "0.3", "0.1"];
    var lines := [["#", "chi.dat"], [], ["k", "chi", "mag"], row1, row2];
    assert IsDataLine(row1) && IsDataLine(row2);
    assert DataLines([row2]) == [row2];
    assert DataLines(lines[3..]) == [row1, row2] by { assert lines[3..][1..] == [row2]; }
    assert !IsHeader(lines[0]) && !IsHeader(lines[1]) && IsHeader(lines[2]);
    assert RowsAfterHeader(lines[2..]) == [row1, row2] by { assert lines[2..][1..] == lines[3..]; }
    assert RowsAfterHeader(lines[1..]) == [row1, row2] by { assert lines[1..][1..] == lines[2..]; }
    LoadChiRows(lines, toFloat);
    assert HeadersReadable(lines);
    assert RowsReadable([row1, row2], toFloat);
    assert Column([row1, row2], 0, toFloat) == [toFloat("1.0").value, toFloat("2.0").value];
    assert Column([row1, row2], 1, toFloat) == [toFloat("0.5").value, toFloat("0.3").value];
  }
}
