/** The check `run_feff` makes on FEFF's standard output before reading chi.dat: a line
    `Paths found N` with N = 0 means FEFF found no scattering paths and there is no result
    to read. */
module PathsFound {
  import opened Results
  import opened PyStr

  const Marker := "Paths found"

  /** `line.strip().startswith('Paths found')`: the marker follows the line's leading
      whitespace directly; trailing whitespace never matters, as the marker ends in a letter. */
  predicate Matches(line: string)
    ensures Matches(line) <==> Marker <= StripLeft(line)
  {
    assert Marker <= StripLeft(line) ==> !IsSpace(StripLeft(line)[|Marker| - 1]);
    Marker <= Strip(line)
  }

  /** `int(line.split()[2])` on the stripped line: IndexError when it has fewer than three
      words, ValueError when the third is not an integer literal. */
  function PathCount(line: string): (r: Result<int>)
    ensures r.Ok? <==> |Split(Strip(line))| >= 3 && IsIntLiteral(Split(Strip(line))[2])
    ensures r == Err(IndexError) <==> |Split(Strip(line))| < 3
  {
    var words := Split(Strip(line));
    if |words| < 3 then Err(IndexError)
    else match ParseInt(words[2])
      case None => Err(ValueError)
      case Some(n) => Ok(n)
  }

  /** What the scan reads off one line: nothing, or the outcome of reading its count. */
  datatype LineReport = Other | Counted(count: Result<int>)

  function Report(line: string): (r: LineReport)
    ensures r.Counted? <==> Matches(line)
  {
    if Matches(line) then Counted(PathCount(line)) else Other
  }

  function Reports(lines: seq<string>): (r: seq<LineReport>)
    ensures |r| == |lines| && forall i :: 0 <= i < |lines| ==> r[i] == Report(lines[i])
  {
    seq(|lines|, i requires 0 <= i < |lines| => Report(lines[i]))
  }

  /** The loop over the lines: Ok(true) at the first count of 0, the error of the first count
      that cannot be read, Ok(false) when the lines run out. A decision is always read off
      some report: a count of 0, or a count that could not be read. */
  function Decide(reports: seq<LineReport>): (r: Result<bool>)
    ensures r == Ok(true) ==> Counted(Ok(0)) in reports
    ensures r.Err? ==> Counted(Err(r.error)) in reports
  {
    if reports == [] then Ok(false)
    else match reports[0]
      case Other => Decide(reports[1..])
      case Counted(c) =>
        var n :- c;
        if n == 0 then Ok(true) else Decide(reports[1..])
  }

  /** The scan of stdout split into lines: zero paths only when some `Paths found` line
      reads 0, and an error only from a `Paths found` line whose count cannot be read. */
  function ZeroPaths(lines: seq<string>): (r: Result<bool>)
    ensures r == Ok(true) ==> exists i :: 0 <= i < |lines| && Matches(lines[i]) && PathCount(lines[i]) == Ok(0)
    ensures r.Err? ==> exists i :: 0 <= i < |lines| && Matches(lines[i]) && PathCount(lines[i]) == Err(r.error)
    ensures r.Err? ==> r.error == IndexError || r.error == ValueError
  {
    Decide(Reports(lines))
  }

  /** `stdout.split('\n')` scanned line by line: zero paths only when one of its lines
      starts (after stripping) with `Paths found` and reads 0. */
  function ZeroPathsReported(stdout: string): (r: Result<bool>)
    ensures r == Ok(true) ==> exists line :: line in SplitOn(stdout, '\n') && '\n' !in line && Matches(line) && PathCount(line) == Ok(0)
    ensures r.Err? ==> r.error == IndexError || r.error == ValueError
  {
    ZeroPaths(SplitOn(stdout, '\n'))
  }

  /** A report the loop passes over: a non-matching line or a readable, non-zero count. */
  predicate Passes(r: LineReport) {
    r.Other? || (r.count.Ok? && r.count.value != 0)
  }

  predicate PassesBefore(reports: seq<LineReport>, n: nat) {
    forall j :: 0 <= j < n && j < |reports| ==> Passes(reports[j])
  }

  /** The decision on a concatenation is that of the first part unless that part ran out
      without deciding. */
  lemma {:induction false} DecideAppend(a: seq<LineReport>, b: seq<LineReport>)
    ensures Decide(a + b) == if Decide(a) == Ok(false) then Decide(b) else Decide(a)
  {
    if a == [] {
      assert a + b == b;
    } else {
      assert (a + b)[0] == a[0];
      assert (a + b)[1..] == a[1..] + b;
      DecideAppend(a[1..], b);
    }
  }

  /** The loop runs out without deciding exactly when it passes over every report. */
  lemma {:induction false} DecideFalse(reports: seq<LineReport>)
    ensures Decide(reports) == Ok(false) <==> PassesBefore(reports, |reports|)
  {
    if reports != [] {
      DecideFalse(reports[1..]);
      assert forall j :: 1 <= j < |reports| ==> reports[j] == reports[1..][j - 1];
    }
  }

  /** When the loop decides, it decides at a report it does not pass over, after passing
      over all earlier ones. */
  lemma {:induction false} FirstDecision(reports: seq<LineReport>) returns (i: nat)
    requires Decide(reports) != Ok(false)
    ensures i < |reports| && !Passes(reports[i]) && PassesBefore(reports, i)
    ensures Decide(reports) == (match reports[i].count case Ok(n) => Ok(true) case Err(e) => Err(e))
  {
    if !Passes(reports[0]) {
      i := 0;
    } else {
      var j := FirstDecision(reports[1..]);
      i := j + 1;
      assert forall k :: 1 <= k <= i ==> reports[k] == reports[1..][k - 1];
    }
  }

  /** A report the loop does not pass over, after reports it passes over, decides it. */
  lemma DecidedAt(reports: seq<LineReport>, i: nat)
    requires i < |reports| && !Passes(reports[i]) && PassesBefore(reports, i)
    ensures Decide(reports) == (match reports[i].count case Ok(n) => Ok(true) case Err(e) => Err(e))
  {
    var pre, post := reports[..i], reports[i..];
    assert reports == pre + post;
    assert PassesBefore(pre, |pre|);
    DecideFalse(pre);
    DecideAppend(pre, post);
    assert post[0] == reports[i];
  }

  /** Zero paths are reported exactly when some line reports a count of 0 and every line
      before it is passed over. */
  lemma ZeroPathsTrue(lines: seq<string>)
    ensures ZeroPaths(lines) == Ok(true) <==>
      exists i :: 0 <= i < |lines| && Report(lines[i]) == Counted(Ok(0)) && PassesBefore(Reports(lines), i)
  {
    var reports := Reports(lines);
    if ZeroPaths(lines) == Ok(true) {
      var i := FirstDecision(reports);
      assert Report(lines[i]) == Counted(Ok(0));
    }
    if exists i :: 0 <= i < |lines| && Report(lines[i]) == Counted(Ok(0)) && PassesBefore(reports, i) {
      var i :| 0 <= i < |lines| && Report(lines[i]) == Counted(Ok(0)) && PassesBefore(reports, i);
      DecidedAt(reports, i);
    }
  }

  /** The scan fails with error `e` exactly when some line's count fails to read with `e`
      and every line before it is passed over. */
  lemma ZeroPathsError(lines: seq<string>, e: Error)
    ensures ZeroPaths(lines) == Err(e) <==>
      exists i :: 0 <= i < |lines| && Report(lines[i]) == Counted(Err(e)) && PassesBefore(Reports(lines), i)
  {
    var reports := Reports(lines);
    if ZeroPaths(lines) == Err(e) {
      var i := FirstDecision(reports);
      assert Report(lines[i]) == Counted(Err(e));
    }
    if exists i :: 0 <= i < |lines| && Report(lines[i]) == Counted(Err(e)) && PassesBefore(reports, i) {
      var i :| 0 <= i < |lines| && Report(lines[i]) == Counted(Err(e)) && PassesBefore(reports, i);
      DecidedAt(reports, i);
    }
  }

  /** No zero-path report and no failure: every matching line has a readable, non-zero
      count. */
  lemma ZeroPathsFalse(lines: seq<string>)
    ensures ZeroPaths(lines) == Ok(false) <==>
      forall i :: 0 <= i < |lines| && Matches(lines[i]) ==> PathCount(lines[i]).Ok? && PathCount(lines[i]).value != 0
  {
    DecideFalse(Reports(lines));
  }

  lemma ReportsAppend(a: seq<string>, b: seq<string>)
    ensures Reports(a + b) == Reports(a) + Reports(b)
  {
    var l, r := Reports(a + b), Reports(a) + Reports(b);
    forall i | 0 <= i < |a| + |b|
      ensures l[i] == r[i]
    {
      if i >= |a| { assert (a + b)[i] == b[i - |a|]; }
    }
  }

  /** A report of a non-matching line changes nothing. */
  lemma DecideSkipsOther(ra: seq<LineReport>, rb: seq<LineReport>)
    ensures Decide(ra + [Other] + rb) == Decide(ra + rb)
  {
    assert ra + [Other] + rb == ra + ([Other] + rb);
    DecideAppend(ra, [Other] + rb);
    DecideAppend(ra, rb);
    assert ([Other] + rb)[1..] == rb;
  }

  /** Lines that do not start with the marker have no effect on the outcome. */
  lemma NonMatchingIgnored(a: seq<string>, line: string, b: seq<string>)
    requires !Matches(line)
    ensures ZeroPaths(a + [line] + b) == ZeroPaths(a + b)
  {
    assert Reports(a + [line] + b) == Reports(a) + [Other] + Reports(b) by {
      ReportsAppend(a + [line], b);
      ReportsAppend(a, [line]);
      assert Reports([line]) == [Other];
    }
    ReportsAppend(a, b);
    DecideSkipsOther(Reports(a), Reports(b));
  }

  /** A count reads as 0 exactly when the third word is an integer literal all of whose
      digits are '0' (`0`, `00`, `-0`, `+0`, ...). */
  lemma ZeroCount(line: string)
    ensures PathCount(line) == Ok(0) <==>
      var words := Split(Strip(line));
      |words| >= 3 && IsIntLiteral(words[2]) &&
      forall k :: 0 <= k < |Unsigned(words[2])| ==> Unsigned(words[2])[k] == '0'
  {
    var words := Split(Strip(line));
    if |words| >= 3 {
      ParseIntZero(words[2]);
    }
  }
}
