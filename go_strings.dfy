/**
 * The functions of Go's `strings` package that the modelled code calls:
 * `Index`, `Contains`, `Replace` with a count of one, `Split` and `Join`
 * on a one-character separator, and `Trim`.  A Go string is modelled as a
 * sequence of characters.
 */
module GoStrings {

  /** `pat` occurs in `s` starting at index `i`. */
  predicate OccursAt(s: string, pat: string, i: int) {
    0 <= i && i + |pat| <= |s| && s[i..i + |pat|] == pat
  }

  /** `i` is the leftmost index at which `pat` occurs in `s`. */
  predicate IsFirstOccurrence(s: string, pat: string, i: int) {
    OccursAt(s, pat, i) && forall j :: 0 <= j < i ==> !OccursAt(s, pat, j)
  }

  /** The leftmost occurrence of `pat` in `s` at or after `from`, or -1. */
  function IndexFrom(s: string, pat: string, from: nat): (r: int)
    ensures r == -1 || (from <= r && OccursAt(s, pat, r))
    ensures forall j :: from <= j && (r == -1 || j < r) ==> !OccursAt(s, pat, j)
    decreases |s| - from
  {
    if from + |pat| > |s| then -1
    else if s[from..from + |pat|] == pat then from
    else IndexFrom(s, pat, from + 1)
  }

  /** strings.Index: the index of the first occurrence of `pat` in `s`, or -1 if there is none. */
  function Index(s: string, pat: string): (r: int)
    ensures r == -1 <==> forall j :: !OccursAt(s, pat, j)
    ensures r != -1 ==> IsFirstOccurrence(s, pat, r)
  {
    IndexFrom(s, pat, 0)
  }

  /** strings.Contains. */
  predicate Contains(s: string, pat: string) {
    Index(s, pat) >= 0
  }

  /**
   * strings.Replace(s, pattern, replacement, 1): the first occurrence of `pattern` becomes `replacement`.
   * An empty `pattern` occurs at index 0, so then `replacement` is put in front of `s`.
   */
  function ReplaceFirst(s: string, pattern: string, replacement: string): string
  {
    var i := Index(s, pattern);
    if i < 0 then s else s[..i] + replacement + s[i + |pattern|..]
  }

  /**
   * Without an occurrence the string is returned as it is; otherwise exactly
   * the first occurrence is swapped for the replacement, and no character
   * appears that was in neither input.
   */
  lemma ReplaceFirstSpec(s: string, pattern: string, replacement: string)
    ensures !Contains(s, pattern) ==> ReplaceFirst(s, pattern, replacement) == s
    ensures forall i :: IsFirstOccurrence(s, pattern, i) ==>
      ReplaceFirst(s, pattern, replacement) == s[..i] + replacement + s[i + |pattern|..]
    ensures forall c :: c in ReplaceFirst(s, pattern, replacement) ==> c in s || c in replacement
  {
  }

  /** strings.Split(s, sep) for a one-character separator: the pieces between the separators. */
  function Split(s: string, sep: char): (r: seq<string>)
    ensures |r| >= 1
    ensures forall k :: 0 <= k < |r| ==> sep !in r[k]
  {
    if |s| == 0 then [""]
    else
      var rest := Split(s[1..], sep);
      if s[0] == sep then [""] + rest
      else [[s[0]] + rest[0]] + rest[1..]
  }

  /** strings.Join(parts, sep) for a one-character separator. */
  function Join(parts: seq<string>, sep: char): string {
    if |parts| == 0 then ""
    else if |parts| == 1 then parts[0]
    else parts[0] + [sep] + Join(parts[1..], sep)
  }

  /** Putting `a` in front of the first piece of a non-empty list puts it in front of the joined text. */
  lemma JoinExtendFirst(a: string, parts: seq<string>, sep: char)
    requires |parts| >= 1
    ensures Join([a + parts[0]] + parts[1..], sep) == a + Join(parts, sep)
  {
    var ext := [a + parts[0]] + parts[1..];
    assert ext[1..] == parts[1..];
  }

  /** Join undoes Split: no text is lost or added when lines are split and joined again. */
  lemma {:induction false} JoinSplit(s: string, sep: char)
    ensures Join(Split(s, sep), sep) == s
  {
    if |s| > 0 {
      var rest := Split(s[1..], sep);
      JoinSplit(s[1..], sep);
      if s[0] == sep {
        assert ([""] + rest)[1..] == rest;
        assert s == [s[0]] + s[1..];
      } else {
        JoinExtendFirst([s[0]], rest, sep);
        assert s == [s[0]] + s[1..];
      }
    }
  }

  /** Splitting text that starts with a separator-free `a` glues `a` to the first piece. */
  lemma {:induction false} SplitSeparatorFreePrefix(a: string, t: string, sep: char)
    requires sep !in a
    ensures Split(a + t, sep) == [a + Split(t, sep)[0]] + Split(t, sep)[1..]
  {
    if |a| > 0 {
      SplitSeparatorFreePrefix(a[1..], t, sep);
      assert (a + t)[0] == a[0];
      assert (a + t)[1..] == a[1..] + t;
      assert [a[0]] + (a[1..] + Split(t, sep)[0]) == a + Split(t, sep)[0];
    } else {
      assert a + t == t && a + Split(t, sep)[0] == Split(t, sep)[0];
      assert Split(t, sep) == [Split(t, sep)[0]] + Split(t, sep)[1..];
    }
  }

  /** Split undoes Join when no piece contains the separator. */
  lemma {:induction false} SplitJoin(parts: seq<string>, sep: char)
    requires |parts| >= 1
    requires forall k :: 0 <= k < |parts| ==> sep !in parts[k]
    ensures Split(Join(parts, sep), sep) == parts
  {
    if |parts| == 1 {
      SplitSeparatorFreePrefix(parts[0], "", sep);
      assert parts[0] + "" == parts[0];
    } else {
      var tail := Join(parts[1..], sep);
      SplitJoin(parts[1..], sep);
      calc {
        Split(Join(parts, sep), sep);
        { assert Join(parts, sep) == parts[0] + ([sep] + tail); }
        Split(parts[0] + ([sep] + tail), sep);
        { SplitSeparatorFreePrefix(parts[0], [sep] + tail, sep);
          assert ([sep] + tail)[1..] == tail; }
        [parts[0] + ""] + Split(tail, sep);
        { assert parts[0] + "" == parts[0]; }
        [parts[0]] + parts[1..];
      }
    }
  }

  /** The cutset both callers pass to `Trim` for the output of `git rev-parse HEAD`. */
  const ShaCutset: string := "\n "

  /** strings.TrimLeft: drop the leading characters that are in `cutset`. */
  function TrimLeft(s: string, cutset: string): (r: string)
    ensures |r| <= |s| && r == s[|s| - |r|..]
    ensures forall k :: 0 <= k < |s| - |r| ==> s[k] in cutset
    ensures |r| > 0 ==> r[0] !in cutset
  {
    if |s| > 0 && s[0] in cutset then
      var rest := TrimLeft(s[1..], cutset);
      assert s[1..][|s| - 1 - |rest|..] == s[|s| - |rest|..];
      assert forall k :: 1 <= k < |s| - |rest| ==> s[k] == s[1..][k - 1];
      rest
    else s
  }

  /** strings.TrimRight: drop the trailing characters that are in `cutset`. */
  function TrimRight(s: string, cutset: string): (r: string)
    ensures |r| <= |s| && r == s[..|r|]
    ensures forall k :: |r| <= k < |s| ==> s[k] in cutset
    ensures |r| > 0 ==> r[|r| - 1] !in cutset
  {
    if |s| > 0 && s[|s| - 1] in cutset then
      var rest := TrimRight(s[..|s| - 1], cutset);
      assert s[..|s| - 1][..|rest|] == s[..|rest|];
      assert forall k :: |rest| <= k < |s| - 1 ==> s[k] == s[..|s| - 1][k];
      rest
    else s
  }

  /**
   * `s[i..j]` is what is left of `s` once every leading and trailing character
   * in `cutset` is removed: everything outside it is in `cutset`, and it neither
   * starts nor ends with a character of `cutset`.
   */
  ghost predicate TrimmedSlice(s: string, cutset: string, i: int, j: int) {
    && 0 <= i <= j <= |s|
    && (forall k :: 0 <= k < i ==> s[k] in cutset)
    && (forall k :: j <= k < |s| ==> s[k] in cutset)
    && (i < j ==> s[i] !in cutset && s[j - 1] !in cutset)
  }

  /** strings.Trim(s, cutset): the contiguous middle of `s` without its leading and trailing cutset characters. */
  function Trim(s: string, cutset: string): (r: string)
    ensures exists i, j :: TrimmedSlice(s, cutset, i, j) && r == s[i..j]
  {
    var left := TrimLeft(s, cutset);
    var r := TrimRight(left, cutset);
    TrimLeftThenRight(s, cutset, left, r);
    r
  }

  /** What is left after cutting the leading run and then the trailing run of `cutset` characters is a trimmed slice. */
  lemma TrimLeftThenRight(s: string, cutset: string, left: string, r: string)
    requires |left| <= |s| && left == s[|s| - |left|..]
    requires forall k :: 0 <= k < |s| - |left| ==> s[k] in cutset
    requires |left| > 0 ==> left[0] !in cutset
    requires |r| <= |left| && r == left[..|r|]
    requires forall k :: |r| <= k < |left| ==> left[k] in cutset
    requires |r| > 0 ==> r[|r| - 1] !in cutset
    ensures TrimmedSlice(s, cutset, |s| - |left|, |s| - |left| + |r|)
    ensures r == s[|s| - |left|..|s| - |left| + |r|]
  {
    var i := |s| - |left|;
    var j := i + |r|;
    forall k | j <= k < |s| ensures s[k] in cutset {
      assert s[k] == left[k - i];
    }
    if i < j {
      assert s[i] == r[0] && s[j - 1] == r[|r| - 1];
      assert r[0] == left[0];
    }
  }

  /** The trimmed middle of a string is unique: any two slices that qualify hold the same text. */
  lemma TrimmedSliceUnique(s: string, cutset: string, i: int, j: int, i': int, j': int)
    requires TrimmedSlice(s, cutset, i, j) && TrimmedSlice(s, cutset, i', j')
    ensures s[i..j] == s[i'..j']
  {
    if i < j && i' < j' {
      assert i == i' && j == j';
    }
  }

  /** Trimming twice is trimming once. */
  lemma TrimIdempotent(s: string, cutset: string)
    ensures Trim(Trim(s, cutset), cutset) == Trim(s, cutset)
  {
    var r := Trim(s, cutset);
    var i, j :| TrimmedSlice(s, cutset, i, j) && r == s[i..j];
    assert TrimmedSlice(r, cutset, 0, |r|);
    var r2 := Trim(r, cutset);
    var i2, j2 :| TrimmedSlice(r, cutset, i2, j2) && r2 == r[i2..j2];
    TrimmedSliceUnique(r, cutset, 0, |r|, i2, j2);
  }
}
