/** One line of an output file as the parsers see it: `line.strip().split()`, and the
    token-level tests they apply to it, with Python's IndexError and ValueError. */
module LineFields {
  import opened Results
  import opened PyStr

  /** The whitespace-separated tokens of one stripped line; `[]` is a blank line. */
  type Fields = seq<string>

  /** `fields[i] == t`, raising IndexError when the line is too short. */
  function TokenIs(f: Fields, i: nat, t: string): (r: Result<bool>)
    ensures r.Err? <==> i >= |f|
    ensures r == Ok(true) <==> i < |f| && f[i] == t
  {
    if i < |f| then Ok(f[i] == t) else Err(IndexError)
  }

  /** `float(fields[i])`, with `float` given as `toFloat` (`None` where it raises ValueError). */
  function FloatAt(f: Fields, i: nat, toFloat: string -> Option<real>): (r: Result<real>)
    ensures r.Ok? <==> i < |f| && toFloat(f[i]).Some?
    ensures r.Ok? ==> r.value == toFloat(f[i]).value
    ensures r == Err(IndexError) <==> i >= |f|
  {
    if i >= |f| then Err(IndexError)
    else match toFloat(f[i])
      case None => Err(ValueError)
      case Some(v) => Ok(v)
  }

  /** `int(fields[i])`. */
  function IntAt(f: Fields, i: nat): (r: Result<int>)
    ensures r.Ok? <==> i < |f| && IsIntLiteral(f[i])
    ensures r.Ok? ==> Some(r.value) == ParseInt(f[i])
    ensures r == Err(IndexError) <==> i >= |f|
  {
    if i >= |f| then Err(IndexError)
    else match ParseInt(f[i])
      case None => Err(ValueError)
      case Some(n) => Ok(n)
  }

  /** `[float(t) for t in fields]`: every token converted, or ValueError. */
  function FloatsAll(f: Fields, toFloat: string -> Option<real>): (r: Result<seq<real>>)
    ensures r.Ok? <==> forall i :: 0 <= i < |f| ==> toFloat(f[i]).Some?
    ensures r.Ok? ==> |r.value| == |f| && forall i :: 0 <= i < |f| ==> r.value[i] == toFloat(f[i]).value
  {
    if f == [] then Ok([])
    else match toFloat(f[0])
      case None => Err(ValueError)
      case Some(v) =>
        match FloatsAll(f[1..], toFloat)
        case Err(e) => Err(e)
        case Ok(vs) => Ok([v] + vs)
  }

  /** `pat in line` for a pattern without whitespace: on the stripped line such a pattern
      can only occur inside a single token. A blank line contains nothing; a line with the
      pattern as one of its tokens contains it. */
  predicate LineContains(f: Fields, pat: string)
    ensures LineContains(f, pat) ==> f != []
    ensures pat in f ==> LineContains(f, pat)
  {
    exists i :: 0 <= i < |f| && Contains(f[i], pat)
  }
}
