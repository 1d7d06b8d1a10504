/** The few Python 2 `str` operations the modelled code relies on: `strip`, `split()`,
    `split(sep)`, `startswith`, `in`, `lower` and `int`. */
module PyStr {
  import opened Results

  /** The characters `str.split()` and `str.strip()` treat as whitespace. */
  predicate IsSpace(c: char) {
    c == ' ' || c == '\t' || c == '\n' || c == '\r' || c == '\U{000B}' || c == '\U{000C}'
  }

  predicate NoSpace(s: string) {
    forall i :: 0 <= i < |s| ==> !IsSpace(s[i])
  }

  /** `s.lstrip()`: the suffix left after dropping leading whitespace. */
  function StripLeft(s: string): (r: string)
    ensures |r| <= |s| && r == s[|s| - |r|..]
    ensures r == [] || !IsSpace(r[0])
    ensures forall i :: 0 <= i < |s| - |r| ==> IsSpace(s[i])
  {
    if s != [] && IsSpace(s[0]) then StripLeft(s[1..]) else s
  }

  /** `s.rstrip()`: the prefix left after dropping trailing whitespace. */
  function StripRight(s: string): (r: string)
    ensures r <= s
    ensures r == [] || !IsSpace(r[|r| - 1])
    ensures forall i :: |r| <= i < |s| ==> IsSpace(s[i])
  {
    if s != [] && IsSpace(s[|s| - 1]) then StripRight(s[..|s| - 1]) else s
  }

  /** `s.strip()`: no longer than `s`, with whitespace at neither end, and `s` itself when
      `s` holds no whitespace. */
  function Strip(s: string): (r: string)
    ensures |r| <= |s|
    ensures r == [] || (!IsSpace(r[0]) && !IsSpace(r[|r| - 1]))
    ensures NoSpace(s) ==> r == s
  {
    StripRight(StripLeft(s))
  }

  /** The longest prefix of `s` free of whitespace. */
  function Word(s: string): (r: string)
    ensures r <= s && NoSpace(r)
    ensures |r| == |s| || IsSpace(s[|r|])
  {
    if s == [] || IsSpace(s[0]) then [] else [s[0]] + Word(s[1..])
  }

  /** `s.split()`: the maximal runs of non-whitespace characters, in order. */
  function Split(s: string): (r: seq<string>)
    ensures forall k :: 0 <= k < |r| ==> r[k] != [] && NoSpace(r[k])
    decreases |s|
  {
    if s == [] then []
    else if IsSpace(s[0]) then Split(s[1..])
    else
      var w := Word(s);
      [w] + Split(s[|w|..])
  }

  /** `" ".join(words)`. */
  function JoinSpace(words: seq<string>): string {
    if words == [] then []
    else if |words| == 1 then words[0]
    else words[0] + " " + JoinSpace(words[1..])
  }

  /** `s.split(sep)` for a one-character separator: always at least one piece. */
  function SplitOn(s: string, sep: char): (r: seq<string>)
    ensures |r| >= 1
    ensures forall k :: 0 <= k < |r| ==> sep !in r[k]
  {
    if sep !in s then [s]
    else
      var i := FirstIndex(s, sep);
      [s[..i]] + SplitOn(s[i + 1..], sep)
  }

  /** `sep.join(pieces)`. */
  function JoinOn(pieces: seq<string>, sep: char): string {
    if pieces == [] then []
    else if |pieces| == 1 then pieces[0]
    else pieces[0] + [sep] + JoinOn(pieces[1..], sep)
  }

  /** The index of the first occurrence of `c` in `s`. */
  function FirstIndex(s: string, c: char): (i: nat)
    requires c in s
    ensures i < |s| && s[i] == c && c !in s[..i]
  {
    if s[0] == c then 0 else 1 + FirstIndex(s[1..], c)
  }

  /** `pat in s`: `pat` occurs in `s` as a contiguous substring (`ContainsAt` and
      `ContainsWitness` state both directions). */
  predicate Contains(s: string, pat: string)
    ensures Contains(s, pat) ==> |pat| <= |s|
    ensures pat <= s ==> Contains(s, pat)
  {
    pat <= s || (s != [] && Contains(s[1..], pat))
  }

  /** An occurrence at any offset makes `pat in s` true. */
  lemma {:induction false} ContainsAt(s: string, pat: string, k: nat)
    requires k + |pat| <= |s| && s[k..k + |pat|] == pat
    ensures Contains(s, pat)
  {
    if k > 0 {
      assert s[1..][k - 1..k - 1 + |pat|] == s[k..k + |pat|];
      ContainsAt(s[1..], pat, k - 1);
    }
  }

  /** And `pat in s` only when there is such an occurrence. */
  lemma {:induction false} ContainsWitness(s: string, pat: string) returns (k: nat)
    requires Contains(s, pat)
    ensures k + |pat| <= |s| && s[k..k + |pat|] == pat
  {
    if pat <= s {
      k := 0;
    } else {
      var k1 := ContainsWitness(s[1..], pat);
      k := k1 + 1;
      assert s[1..][k1..k1 + |pat|] == s[k..k + |pat|];
    }
  }

  /** `s.strip()` is the slice of `s` that follows its leading whitespace, with only
      whitespace after it. */
  lemma StripSlice(s: string)
    ensures |s| - |StripLeft(s)| + |Strip(s)| <= |s|
    ensures Strip(s) == s[|s| - |StripLeft(s)|..|s| - |StripLeft(s)| + |Strip(s)|]
    ensures forall i :: 0 <= i < |s| - |StripLeft(s)| ==> IsSpace(s[i])
    ensures forall i :: |s| - |StripLeft(s)| + |Strip(s)| <= i < |s| ==> IsSpace(s[i])
  {
    var l := StripLeft(s);
    var r := StripRight(l);
    var a := |s| - |l|;
    PrefixOfSuffix(s, l, r);
    SpaceAfterSlice(s, l, r);
  }

  lemma SpaceAfterSlice(s: string, l: string, r: string)
    requires |r| <= |l| <= |s| && l == s[|s| - |l|..]
    requires forall i :: |r| <= i < |l| ==> IsSpace(l[i])
    ensures forall i :: |s| - |l| + |r| <= i < |s| ==> IsSpace(s[i])
  {
    var a := |s| - |l|;
    forall i | a + |r| <= i < |s|
      ensures IsSpace(s[i])
    {
      assert s[i] == l[i - a];
    }
  }

  /** A prefix of a suffix of `s` is a slice of `s`. */
  lemma PrefixOfSuffix<T>(s: seq<T>, l: seq<T>, r: seq<T>)
    requires |l| <= |s| && l == s[|s| - |l|..] && r <= l
    ensures var a := |s| - |l|;
      a + |r| <= |s| && r == s[a..a + |r|] && forall i :: a <= i < |s| ==> s[i] == l[i - a]
  {
  }

  /** `s.lower()` on ASCII letters. */
  function Lower(s: string): (r: string)
    ensures |r| == |s|
    ensures forall i :: 0 <= i < |s| ==> r[i] == LowerChar(s[i])
  {
    if s == [] then [] else [LowerChar(s[0])] + Lower(s[1..])
  }

  function LowerChar(c: char): char {
    if 'A' <= c <= 'Z' then (c as int + 32) as char else c
  }

  predicate IsDigit(c: char) {
    '0' <= c <= '9'
  }

  predicate AllDigits(s: string) {
    forall i :: 0 <= i < |s| ==> IsDigit(s[i])
  }

  /** The value of a run of decimal digits. */
  function DigitsValue(s: string): nat
    requires AllDigits(s)
  {
    if s == [] then 0 else DigitsValue(s[..|s| - 1]) * 10 + (s[|s| - 1] as int - '0' as int)
  }

  predicate HasSign(s: string) {
    |s| > 0 && (s[0] == '+' || s[0] == '-')
  }

  /** The digits of an integer literal, after an optional sign. */
  function Unsigned(s: string): string {
    if HasSign(s) then s[1..] else s
  }

  /** What Python 2's `int()` accepts in a whitespace-free token: an optional sign and at least one digit. */
  predicate IsIntLiteral(s: string) {
    var d := Unsigned(s);
    d != [] && AllDigits(d)
  }

  /** `int(s)` for a whitespace-free token; `None` where Python raises ValueError. */
  function ParseInt(s: string): (r: Option<int>)
    ensures r.Some? <==> IsIntLiteral(s)
    ensures r.Some? && !HasSign(s) ==> r.value >= 0
  {
    if !IsIntLiteral(s) then None
    else if HasSign(s) && s[0] == '-' then Some(0 - DigitsValue(s[1..]) as int)
    else Some(DigitsValue(Unsigned(s)))
  }

  /** A run of digits has value zero exactly when every digit is `0`. */
  lemma {:induction false} DigitsValueZero(s: string)
    requires AllDigits(s)
    ensures DigitsValue(s) == 0 <==> forall i :: 0 <= i < |s| ==> s[i] == '0'
  {
    if s != [] {
      var p := s[..|s| - 1];
      DigitsValueZero(p);
      assert s == p + [s[|s| - 1]];
    }
  }

  /** `int(s) == 0` exactly for `0`, `00`, `-0`, `+000` and the like. */
  lemma ParseIntZero(s: string)
    ensures ParseInt(s) == Some(0) <==> IsIntLiteral(s) && forall i :: 0 <= i < |Unsigned(s)| ==> Unsigned(s)[i] == '0'
  {
    if IsIntLiteral(s) {
      DigitsValueZero(Unsigned(s));
    }
  }

  /** `sep.join(s.split(sep)) == s`: splitting on a separator loses nothing. */
  lemma {:induction false} SplitOnJoin(s: string, sep: char)
    ensures JoinOn(SplitOn(s, sep), sep) == s
    decreases |s|
  {
    if sep in s {
      var i := FirstIndex(s, sep);
      var rest := SplitOn(s[i + 1..], sep);
      var pieces := [s[..i]] + rest;
      assert SplitOn(s, sep) == pieces;
      assert pieces[1..] == rest;
      assert JoinOn(pieces, sep) == s[..i] + [sep] + JoinOn(rest, sep);
      SplitOnJoin(s[i + 1..], sep);
      assert s == s[..i] + [sep] + s[i + 1..];
    }
  }

  /** `sep.join(pieces).split(sep) == pieces` when no piece holds the separator. */
  lemma {:induction false} JoinSplitOn(pieces: seq<string>, sep: char)
    requires |pieces| >= 1
    requires forall k :: 0 <= k < |pieces| ==> sep !in pieces[k]
    ensures SplitOn(JoinOn(pieces, sep), sep) == pieces
  {
    if |pieces| > 1 {
      var s := JoinOn(pieces, sep);
      var rest := JoinOn(pieces[1..], sep);
      assert s == pieces[0] + [sep] + rest;
      assert sep in s by { assert s[|pieces[0]|] == sep; }
      var i := FirstIndex(s, sep);
      assert s[..|pieces[0]|] == pieces[0];
      assert s[..i] == pieces[0];
      assert s[i + 1..] == rest;
      JoinSplitOn(pieces[1..], sep);
    }
  }

  /** Lower-casing is idempotent, so `e.lower()` and `e.lower().lower()` look up the same key. */
  lemma LowerIdempotent(s: string)
    ensures Lower(Lower(s)) == Lower(s)
  {
  }

  /** A whitespace-free word followed by whitespace (or nothing) is exactly what `Word` takes. */
  lemma {:induction false} WordOfPrefix(w: string, t: string)
    requires NoSpace(w) && (t == [] || IsSpace(t[0]))
    ensures Word(w + t) == w
  {
    if w != [] {
      assert (w + t)[1..] == w[1..] + t;
      WordOfPrefix(w[1..], t);
    } else {
      assert w + t == t;
    }
  }

  /** `" ".join(words).split() == words` for non-empty words without whitespace. */
  lemma {:induction false} SplitJoinSpace(words: seq<string>)
    requires forall k :: 0 <= k < |words| ==> words[k] != [] && NoSpace(words[k])
    ensures Split(JoinSpace(words)) == words
  {
    if words != [] {
      var w := words[0];
      if |words| == 1 {
        WordOfPrefix(w, []);
        assert w + [] == w;
        assert w[|w|..] == [];
      } else {
        var rest := JoinSpace(words[1..]);
        var s := w + " " + rest;
        WordOfPrefix(w, " " + rest);
        assert s == w + (" " + rest);
        assert s[|w|..] == " " + rest;
        assert (" " + rest)[1..] == rest;
        SplitJoinSpace(words[1..]);
      }
    }
  }
}
