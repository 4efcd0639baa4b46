/**
 * The test script (test/main.go): its batch options, whose message and
 * branch carry the same random suffix, and its patch callback, which turns
 * the first "testing" of each line of the CI configuration into
 * "testing success".
 */
module TestScript {
  import GoStrings
  import Strconv
  import LineRewrite
  import Patchwork

  const Pattern: string := "testing"
  const Replacement: string := "testing success"
  const MessagePrefix: string := "Testing Patchwork!"
  const BranchPrefix: string := "test"

  /**
   * The options for the random draw `draw` (rand.Intn(4000) supplies a
   * number in [0, 4000)): message and branch end in the same decimal
   * suffix, which spells `draw` in one to four digits.
   */
  method TestOptions(draw: nat) returns (opts: Patchwork.ApplyOptions)
    requires draw < 4000
    ensures |opts.message| > |MessagePrefix| && opts.message[..|MessagePrefix|] == MessagePrefix
    ensures |opts.branch| > |BranchPrefix| && opts.branch[..|BranchPrefix|] == BranchPrefix
    ensures opts.message[|MessagePrefix|..] == opts.branch[|BranchPrefix|..]
    ensures var suffix := opts.branch[|BranchPrefix|..];
      |suffix| <= 4 && Strconv.IsDecimal(suffix) && Strconv.DecimalValue(suffix) == draw
    ensures opts.repos == [Patchwork.Repository("segmentio", "patchwork-test")]
  {
    var n := Strconv.Itoa(draw);
    opts := Patchwork.ApplyOptions("", "", []);
    opts := opts.(message := MessagePrefix + n);
    opts := opts.(branch := BranchPrefix + n);
    opts := opts.(repos := [Patchwork.Repository("segmentio", "patchwork-test")]);
    Strconv.DecimalValueOfItoa(draw);
    assert Strconv.Pow10(4) == 10000;
    Strconv.ItoaLength(draw, 4);
    assert opts.message[|MessagePrefix|..] == n && opts.branch[|BranchPrefix|..] == n;
  }

  /**
   * The rewritten configuration has the same lines as the original, each
   * with its first "testing" replaced; with no "testing" anywhere the
   * configuration is unchanged.
   */
  method PatchCircleConfig(config: string) returns (output: string)
    ensures |GoStrings.Split(output, '\n')| == |GoStrings.Split(config, '\n')|
    ensures forall k :: 0 <= k < |GoStrings.Split(config, '\n')| ==>
      GoStrings.Split(output, '\n')[k] == GoStrings.ReplaceFirst(GoStrings.Split(config, '\n')[k], Pattern, Replacement)
    ensures forall k :: 0 <= k < |GoStrings.Split(config, '\n')| && !GoStrings.Contains(GoStrings.Split(config, '\n')[k], Pattern) ==>
      GoStrings.Split(output, '\n')[k] == GoStrings.Split(config, '\n')[k]
    ensures forall k, i :: 0 <= k < |GoStrings.Split(config, '\n')| && GoStrings.IsFirstOccurrence(GoStrings.Split(config, '\n')[k], Pattern, i) ==>
      GoStrings.Split(output, '\n')[k] == GoStrings.Split(config, '\n')[k][..i] + Replacement + GoStrings.Split(config, '\n')[k][i + |Pattern|..]
    ensures (forall k :: 0 <= k < |GoStrings.Split(config, '\n')| ==>
      !GoStrings.Contains(GoStrings.Split(config, '\n')[k], Pattern)) ==> output == config
  {
    output := LineRewrite.RewriteLines(config, Pattern, Replacement);
    LineRewrite.RewriteKeepsLines(config, Pattern, Replacement);
    LineRewrite.RewriteEachLine(GoStrings.Split(config, '\n'), Pattern, Replacement);
    if forall k :: 0 <= k < |GoStrings.Split(config, '\n')| ==> !GoStrings.Contains(GoStrings.Split(config, '\n')[k], Pattern) {
      LineRewrite.RewriteWithoutMatchIsIdentity(config, Pattern, Replacement);
    }
  }
}
