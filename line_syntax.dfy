/**
 * Line-level syntax shared by the two markdown-lite renderers: the heading
 * prefixes, the numbered-item test `/^\d+\./`, and the `"\n"` line split.
 */
module LineSyntax {
  import opened Strings

  const H3Prefix := "### "
  const H4Prefix := "#### "

  /** `line.replace(prefix, "")` on a line that starts with the prefix removes exactly that prefix. */
  lemma ReplacePrefix(line: string, prefix: string)
    requires StartsWith(line, prefix)
    ensures ReplaceFirst(line, prefix, "") == line[|prefix|..]
  {
    assert OccursAt(line, prefix, 0);
    ReplaceFirstAt(line, prefix, "", 0);
  }

  /** A level-4 heading line is never taken for a level-3 one. */
  lemma H4IsNotH3(line: string)
    requires StartsWith(line, H4Prefix)
    ensures !StartsWith(line, H3Prefix)
  {
    assert line[3] == H4Prefix[3];
  }

  /** The length of the longest prefix of digits. */
  function DigitRun(s: string): (n: nat)
    ensures n <= |s|
    ensures forall k :: 0 <= k < n ==> IsDigit(s[k])
    ensures n == |s| || !IsDigit(s[n])
  {
    if s == [] || !IsDigit(s[0]) then 0 else 1 + DigitRun(s[1..])
  }

  /** `/^\d+\./.test(t)`: one or more digits and then a period. */
  function IsNumberedItem(t: string): (r: bool)
    ensures r ==> 1 <= DigitRun(t) < |t|
  {
    var n := DigitRun(t);
    1 <= n < |t| && t[n] == '.'
  }

  /** The test holds exactly when some period is preceded by digits only, and at least one. */
  lemma NumberedItemIff(t: string)
    ensures IsNumberedItem(t) <==> exists k :: 1 <= k < |t| && t[k] == '.' && forall j :: 0 <= j < k ==> IsDigit(t[j])
  {
    var n := DigitRun(t);
    if !IsNumberedItem(t) {
      forall k | 1 <= k < |t| && t[k] == '.' ensures exists j :: 0 <= j < k && !IsDigit(t[j]) {
        assert !IsDigit(t[k]);
        assert n < k;
        assert !IsDigit(t[n]);
      }
    }
  }

  /** `text.split("\n")` has one line more than the text has newlines. */
  lemma {:induction false} LineCount(text: string)
    decreases |text|
    ensures |Split(text, '\n')| == multiset(text)['\n'] + 1
  {
    var n := CharIndex(text, '\n');
    if n < |text| {
      LineCount(text[n + 1..]);
      assert text == text[..n] + [text[n]] + text[n + 1..];
      assert multiset(text[..n])['\n'] == 0;
    } else {
      assert text[..n] == text;
    }
  }
}
