/** `feff_edge_number`: the number FEFF's HOLE card uses for an absorption edge named in
    any letter case. */
module EdgeNumbers {
  import opened Results
  import opened PyStr

  /** The core-hole shells the table knows. */
  datatype Shell = K | L1 | L2 | L3

  /** The shell an edge name denotes, after lower-casing: `k`; `l1` or `li`; `l2` or `lii`;
      `l3` or `liii`. */
  function ShellOf(edge: string): Option<Shell> {
    var e := Lower(edge);
    if e == "k" then Some(K)
    else if e == "l1" || e == "li" then Some(L1)
    else if e == "l2" || e == "lii" then Some(L2)
    else if e == "l3" || e == "liii" then Some(L3)
    else None
  }

  /** The lookup as written: `edge_map[edge.lower()]`, a KeyError for any other name. */
  function EdgeNumber(edge: string): (r: Result<int>)
    ensures r.Ok? <==> ShellOf(edge).Some?
    ensures r.Err? ==> r.error == KeyError
    ensures ShellOf(edge) == Some(K) ==> r == Ok(1)
    ensures ShellOf(edge) == Some(L1) ==> r == Ok(1)
    ensures ShellOf(edge) == Some(L2) ==> r == Ok(3)
    ensures ShellOf(edge) == Some(L3) ==> r == Ok(4)
  {
    var e := Lower(edge);
    if e == "k" then Ok(1)
    else if e == "l1" || e == "li" then Ok(1)
    else if e == "l2" || e == "lii" then Ok(3)
    else if e == "l3" || e == "liii" then Ok(4)
    else Err(KeyError)
  }

  /** Looking up an already lower-cased name gives the same answer: the table ignores case. */
  lemma EdgeNumberIgnoresCase(edge: string)
    ensures EdgeNumber(Lower(edge)) == EdgeNumber(edge)
    ensures ShellOf(Lower(edge)) == ShellOf(edge)
  {
    LowerIdempotent(edge);
  }

  /** FEFF's HOLE numbering: 1 for K, 2 for L1, 3 for L2, 4 for L3. */
  function HoleNumber(shell: Shell): (n: int)
    ensures 1 <= n <= 4
  {
    match shell
    case K => 1
    case L1 => 2
    case L2 => 3
    case L3 => 4
  }

  /** Different shells get different hole numbers. */
  lemma HoleNumberInjective(a: Shell, b: Shell)
    requires HoleNumber(a) == HoleNumber(b)
    ensures a == b
  {
  }

  /** The evidently intended lookup: the hole number of the named shell. */
  function CorrectedEdgeNumber(edge: string): (r: Result<int>)
    ensures r.Ok? <==> ShellOf(edge).Some?
    ensures r.Err? ==> r.error == KeyError
    ensures r.Ok? ==> r.value == HoleNumber(ShellOf(edge).value)
  {
    match ShellOf(edge)
    case Some(s) => Ok(HoleNumber(s))
    case None => Err(KeyError)
  }

  /** With the corrected lookup, names of different shells never share a number. */
  lemma CorrectedSeparatesShells(a: string, b: string)
    requires CorrectedEdgeNumber(a).Ok? && CorrectedEdgeNumber(b).Ok?
    requires CorrectedEdgeNumber(a) == CorrectedEdgeNumber(b)
    ensures ShellOf(a) == ShellOf(b)
  {
    HoleNumberInjective(ShellOf(a).value, ShellOf(b).value);
  }

  /** The table as written agrees with the hole numbering on every name except those of
      the L1 shell. */
  lemma EdgeNumberAsWritten(edge: string)
    ensures EdgeNumber(edge) == CorrectedEdgeNumber(edge) <==> ShellOf(edge) != Some(L1)
  {
  }

  /** The discrepancy on a concrete name: `L1` is given K's number although it names a
      different shell. */
  lemma L1TakenForK()
    ensures ShellOf("L1") != ShellOf("K")
    ensures EdgeNumber("L1") == EdgeNumber("K") == Ok(1)
  {
    assert Lower("L1") == "l1";
    assert Lower("K") == "k";
  }
}
