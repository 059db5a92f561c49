/** The client's Python helpers (client/src/lib/python-utils.ts): cleaning an
    interpreter error message for display, and two style hints computed from
    the text of the code. */
module PythonUtils {
  import opened Wrappers
  import opened Text

  /** The location prefix the interpreter puts before errors in code run
      from a string. */
  const Marker: string := "File \"<string>\","

  const DocstringHint: string := "Add docstrings to document your code"
  const PrintHint: string := "Use print() function syntax instead of print statement"

  /** The leftmost position at or after `from` where `p` occurs in `s`. */
  function FirstOccurrence(s: string, p: string, from: nat): (r: Option<nat>)
    ensures r.Some? ==> from <= r.value && OccursAt(s, p, r.value)
    ensures forall i: nat :: from <= i && (r.None? || i < r.value) ==> !OccursAt(s, p, i)
    decreases |s| - from
  {
    if from + |p| > |s| then None
    else if OccursAt(s, p, from) then Some(from)
    else FirstOccurrence(s, p, from + 1)
  }

  /** `s.replace(p, q)` with a string (or non-global pattern) `p`: the first
      occurrence of `p`, if any, is replaced by `q`. */
  function ReplaceFirst(s: string, p: string, q: string): (r: string)
    ensures !Contains(s, p) ==> r == s
    ensures Contains(s, p) ==> |r| == |s| - |p| + |q|
  {
    match FirstOccurrence(s, p, 0)
    case None => s
    case Some(k) => s[..k] + q + s[k + |p|..]
  }

  /** `k` is the leftmost position where `p` occurs in `s`. */
  predicate LeftmostAt(s: string, p: string, k: nat) {
    OccursAt(s, p, k) && forall i: nat :: i < k ==> !OccursAt(s, p, i)
  }

  /** The replacement happens at the leftmost occurrence, and only there. */
  lemma ReplaceFirstAt(s: string, p: string, q: string, k: nat)
    requires LeftmostAt(s, p, k)
    ensures ReplaceFirst(s, p, q) == s[..k] + q + s[k + |p|..]
  {
    var f := FirstOccurrence(s, p, 0);
    assert f.Some? && f.value == k;
  }

  /** Removing the leftmost occurrence and putting it back where it was
      recovers the original. */
  lemma ReplaceFirstUndone(s: string, p: string, k: nat)
    requires LeftmostAt(s, p, k)
    ensures var r := ReplaceFirst(s, p, ""); k <= |r| && r[..k] + p + r[k..] == s
  {
    ReplaceFirstAt(s, p, "", k);
    var r := ReplaceFirst(s, p, "");
    assert r[..k] == s[..k] && r[k..] == s[k + |p|..];
    assert s == s[..k] + s[k..k + |p|] + s[k + |p|..];
  }

  /** `formatPythonError(error)`: the first location prefix removed, then the
      surrounding white space. */
  function FormatPythonError(error: string): (r: string)
    ensures r == [] || (!IsSpace(r[0]) && !IsSpace(r[|r| - 1]))
    ensures |r| <= |error|
    ensures !Contains(error, Marker) ==> r == Trim(error)
  {
    Trim(ReplaceFirst(error, Marker, ""))
  }

  /** Any `p` found in a slice of `s` is found in `s`. */
  lemma ContainsOfSlice(s: string, a: nat, b: nat, p: string)
    requires a <= b <= |s|
    ensures Contains(s[a..b], p) ==> Contains(s, p)
  {
    if Contains(s[a..b], p) {
      var i: nat :| i + |p| <= |s[a..b]| && OccursAt(s[a..b], p, i);
      assert s[a..b][i..i + |p|] == p;
      forall t | 0 <= t < |p|
        ensures s[a + i + t] == p[t]
      {
        assert s[a..b][i..i + |p|][t] == s[a + i + t];
      }
      assert s[a + i..a + i + |p|] == p;
      assert OccursAt(s, p, a + i);
    }
  }

  /** Formatting a message that holds no location prefix twice is the same
      as formatting it once. */
  lemma FormatIdempotent(error: string)
    requires !Contains(error, Marker)
    ensures FormatPythonError(FormatPythonError(error)) == FormatPythonError(error)
  {
    var a := SkipSpaces(error, 0);
    ContainsOfSlice(error, a, SkipSpacesBack(error, a, |error|), Marker);
    TrimKeeps(Trim(error));
  }

  /** `analyzePythonCode(code)`: the docstring hint when the code contains no
      triple-quoted string, then the print hint when it contains "print "
      (with the space, so `print(` alone does not trigger it). */
  method AnalyzePythonCode(code: string) returns (suggestions: seq<string>)
    ensures DocstringHint in suggestions <==> !Contains(code, "\"\"\"") && !Contains(code, "'''")
    ensures PrintHint in suggestions <==> Contains(code, "print ")
    ensures |suggestions| <= 2
    ensures forall i :: 0 <= i < |suggestions| ==> suggestions[i] == DocstringHint || suggestions[i] == PrintHint
    ensures forall i, j :: 0 <= i < j < |suggestions| ==> suggestions[i] == DocstringHint && suggestions[j] == PrintHint
    ensures code == [] ==> suggestions == [DocstringHint]
  {
    assert DocstringHint != PrintHint by {
      assert |DocstringHint| == 36;
      assert |PrintHint| == 54;
    }
    suggestions := [];
    if !Contains(code, "\"\"\"") && !Contains(code, "'''") {
      suggestions := suggestions + [DocstringHint];
    }
    if Contains(code, "print ") {
      suggestions := suggestions + [PrintHint];
    }
  }
}
