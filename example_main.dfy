/**
 * The patch callback of the example script (example/main.go): in the CI
 * configuration, the first "make test" of each line becomes "make test-sauce".
 */
module ExampleScript {
  import GoStrings
  import LineRewrite

  const Pattern: string := "make test"
  const Replacement: string := "make test-sauce"

  /**
   * The rewritten configuration has the same lines as the original, each
   * with its first "make test" replaced; with no "make test" anywhere the
   * configuration is unchanged.
   */
  method PatchCircleConfig(config: string) returns (output: string)
    ensures |GoStrings.Split(output, '\n')| == |GoStrings.Split(config, '\n')|
    ensures forall k :: 0 <= k < |GoStrings.Split(config, '\n')| ==>
      GoStrings.Split(output, '\n')[k] == GoStrings.ReplaceFirst(GoStrings.Split(config, '\n')[k], Pattern, Replacement)
    ensures forall k :: 0 <= k < |GoStrings.Split(config, '\n')| && !GoStrings.Contains(GoStrings.Split(config, '\n')[k], Pattern) ==>
      GoStrings.Split(output, '\n')[k] == GoStrings.Split(config, '\n')[k]
    ensures forall k, i :: 0 <= k < |GoStrings.Split(config, '\n')| && GoStrings.IsFirstOccurrence(GoStrings.Split(config, '\n')[k], Pattern, i) ==>
      GoStrings.Split(output, '\n')[k] == GoStrings.Split(config, '\n')[k][..i] + Replacement + GoStrings.Split(config, '\n')[k][i + |Pattern|..]
    ensures (forall k :: 0 <= k < |GoStrings.Split(config, '\n')| ==>
      !GoStrings.Contains(GoStrings.Split(config, '\n')[k], Pattern)) ==> output == config
  {
    output := LineRewrite.RewriteLines(config, Pattern, Replacement);
    LineRewrite.RewriteKeepsLines(config, Pattern, Replacement);
    LineRewrite.RewriteEachLine(GoStrings.Split(config, '\n'), Pattern, Replacement);
    if forall k :: 0 <= k < |GoStrings.Split(config, '\n')| ==> !GoStrings.Contains(GoStrings.Split(config, '\n')[k], Pattern) {
      LineRewrite.RewriteWithoutMatchIsIdentity(config, Pattern, Replacement);
    }
  }
}
