/**
 * The rewrite both example patch callbacks apply to a CI configuration
 * file: split the text into lines, replace the first occurrence of a
 * pattern in each line in place, and join the lines again.  Reading and
 * writing the file are not part of the model.
 */
module LineRewrite {
  import opened GoStrings

  /** Each line with the first occurrence of `pattern` replaced. */
  function RewriteEach(lines: seq<string>, pattern: string, replacement: string): (r: seq<string>)
    ensures |r| == |lines|
    ensures forall k :: 0 <= k < |lines| ==> r[k] == ReplaceFirst(lines[k], pattern, replacement)
  {
    seq(|lines|, k requires 0 <= k < |lines| => ReplaceFirst(lines[k], pattern, replacement))
  }

  /**
   * A line without the pattern is kept as it is; in a line with the pattern
   * only its first occurrence is replaced, and the text before and after it
   * is kept.
   */
  lemma RewriteEachLine(lines: seq<string>, pattern: string, replacement: string)
    ensures forall k :: 0 <= k < |lines| && !Contains(lines[k], pattern) ==>
      RewriteEach(lines, pattern, replacement)[k] == lines[k]
    ensures forall k, i :: 0 <= k < |lines| && IsFirstOccurrence(lines[k], pattern, i) ==>
      RewriteEach(lines, pattern, replacement)[k] == lines[k][..i] + replacement + lines[k][i + |pattern|..]
  {
    forall k | 0 <= k < |lines| {
      ReplaceFirstSpec(lines[k], pattern, replacement);
    }
  }

  /** When the replacement has no newline, the rewritten text splits back into exactly the rewritten lines. */
  lemma RewriteKeepsLines(text: string, pattern: string, replacement: string)
    requires '\n' !in replacement
    ensures var rewritten := RewriteEach(Split(text, '\n'), pattern, replacement);
      Split(Join(rewritten, '\n'), '\n') == rewritten
  {
    var lines := Split(text, '\n');
    var rewritten := RewriteEach(lines, pattern, replacement);
    forall k | 0 <= k < |rewritten| ensures '\n' !in rewritten[k] {
      ReplaceFirstSpec(lines[k], pattern, replacement);
    }
    SplitJoin(rewritten, '\n');
  }

  /** When no line holds the pattern, the text comes back unchanged. */
  lemma RewriteWithoutMatchIsIdentity(text: string, pattern: string, replacement: string)
    requires forall k :: 0 <= k < |Split(text, '\n')| ==> !Contains(Split(text, '\n')[k], pattern)
    ensures Join(RewriteEach(Split(text, '\n'), pattern, replacement), '\n') == text
  {
    var lines := Split(text, '\n');
    forall k | 0 <= k < |lines| ensures ReplaceFirst(lines[k], pattern, replacement) == lines[k] {
      ReplaceFirstSpec(lines[k], pattern, replacement);
    }
    assert RewriteEach(lines, pattern, replacement) == lines;
    JoinSplit(text, '\n');
  }

  /**
   * The callback's loop: the lines are held in an array and each element is
   * overwritten with its rewritten form.
   */
  method ReplaceInEachLine(lines: seq<string>, pattern: string, replacement: string) returns (rewritten: seq<string>)
    ensures rewritten == RewriteEach(lines, pattern, replacement)
  {
    var a := new string[|lines|](k requires 0 <= k < |lines| => lines[k]);
    for i := 0 to a.Length
      invariant forall k :: 0 <= k < i ==> a[k] == ReplaceFirst(lines[k], pattern, replacement)
      invariant forall k :: i <= k < a.Length ==> a[k] == lines[k]
    {
      var line := a[i];
      a[i] := ReplaceFirst(line, pattern, replacement);
    }
    rewritten := a[..];
  }

  /** The whole callback: split the text into lines, rewrite each, join them back. */
  method RewriteLines(text: string, pattern: string, replacement: string) returns (output: string)
    ensures output == Join(RewriteEach(Split(text, '\n'), pattern, replacement), '\n')
  {
    var lines := Split(text, '\n');
    var rewritten := ReplaceInEachLine(lines, pattern, replacement);
    output := Join(rewritten, '\n');
  }
}
