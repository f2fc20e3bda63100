/**
 * The insights renderer: each line of the insights text becomes nothing, a
 * heading, a bullet, a numbered item, a paragraph cut into plain and bold
 * parts by `line.split` on the pattern `\*\*(.*?)\*\*`, a divider or a plain paragraph.
 * Unlike the chat renderer, its bold pattern is lazy over any character
 * but a line terminator, so a bold part may hold a single `*`, and only
 * paragraphs are cut into parts.
 */
module AiInsightsModal {
  import opened Options
  import opened Strings
  import opened LineSyntax

  const Marker := "**"
  const BulletMarker := "* "
  const DividerLine := "---"

  /** A `**` starts at index `j` of `s`. */
  predicate MarkerAt(s: string, j: int) {
    0 <= j && j + 1 < |s| && s[j] == '*' && s[j + 1] == '*'
  }

  /** The lazy `(.*?)` steps over index `j`: it is not a line terminator and no `**` starts there. */
  predicate Passes(s: string, j: int) {
    0 <= j < |s| && !IsLineTerminator(s[j]) && !MarkerAt(s, j)
  }

  /** The lazy capture starting at `k` ends at `e`: the first `**` from `k` on, with no line terminator before it. */
  predicate ClosesAt(s: string, k: int, e: int) {
    k <= e && MarkerAt(s, e) && forall j :: k <= j < e ==> Passes(s, j)
  }

  /** `\*\*(.*?)\*\*` matches at `q` with its closing `**` at `k`; the capture is `s[q + 2..k]`. */
  predicate LazyMatch(s: string, q: int, k: int) {
    MarkerAt(s, q) && ClosesAt(s, q + 2, k)
  }

  /** The lazy scan for the closing `**` from index `k`: fails at a line terminator or at the end of the line. */
  function CloseScan(s: string, k: nat): (e: Option<nat>)
    requires k <= |s|
    decreases |s| - k
    ensures e.Some? ==> k <= e.value && e.value + 2 <= |s|
  {
    if MarkerAt(s, k) then Some(k)
    else if k == |s| || IsLineTerminator(s[k]) then None
    else CloseScan(s, k + 1)
  }

  /** The scan finds exactly the first `**` the capture can reach. */
  lemma {:induction false} CloseScanIff(s: string, k: nat, e: int)
    requires k <= |s|
    decreases |s| - k
    ensures CloseScan(s, k) == Some(e) <==> ClosesAt(s, k, e)
  {
    if ClosesAt(s, k, e) && k < e {
      assert Passes(s, k);
    }
    if !MarkerAt(s, k) && k < |s| && !IsLineTerminator(s[k]) {
      CloseScanIff(s, k + 1, e);
      if ClosesAt(s, k + 1, e) {
        assert Passes(s, k);
      }
    }
  }

  /** Where the match attempted at `q` closes, if it matches there. */
  function MatchAt(s: string, q: nat): (k: Option<nat>)
    ensures k.Some? ==> q + 2 <= k.value && k.value + 2 <= |s|
  {
    if MarkerAt(s, q) then CloseScan(s, q + 2) else None
  }

  /** `MatchAt` finds exactly the matches of the pattern at `q`. */
  lemma MatchAtIff(s: string, q: nat, k: int)
    ensures MatchAt(s, q) == Some(k) <==> LazyMatch(s, q, k)
  {
    if MarkerAt(s, q) {
      CloseScanIff(s, q + 2, k);
    }
  }

  /** The start of the leftmost match at or after `from`. */
  function NextMatch(s: string, from: nat): (q: Option<nat>)
    decreases |s| - from
    ensures q.Some? ==> from <= q.value && MatchAt(s, q.value).Some?
  {
    if from >= |s| then None
    else if MatchAt(s, from).Some? then Some(from)
    else NextMatch(s, from + 1)
  }

  /** No match starts between `from` and the one returned, nor anywhere after `from` when none is. */
  lemma {:induction false} NextMatchIsFirst(s: string, from: nat)
    decreases |s| - from
    ensures NextMatch(s, from).Some? ==> forall x :: from <= x < NextMatch(s, from).value ==> MatchAt(s, x).None?
    ensures NextMatch(s, from).None? ==> forall x :: from <= x ==> MatchAt(s, x).None?
  {
    if from < |s| && MatchAt(s, from).None? {
      NextMatchIsFirst(s, from + 1);
    }
  }

  /** The pattern's `test(line)`: it matches somewhere in the line. */
  predicate HasBold(line: string) {
    NextMatch(line, 0).Some?
  }

  /** A text no match of the pattern occurs in. */
  predicate NoBold(t: string) {
    forall q, k :: 0 <= q < |t| && 0 <= k < |t| ==> !LazyMatch(t, q, k)
  }

  /** The test succeeds exactly when the pattern matches somewhere in the line. */
  lemma HasBoldIff(line: string)
    ensures HasBold(line) <==> !NoBold(line)
  {
    if HasBold(line) {
      var q := NextMatch(line, 0).value;
      MatchAtIff(line, q, MatchAt(line, q).value);
    } else {
      NextMatchIsFirst(line, 0);
      forall q, k ensures !LazyMatch(line, q, k) {
        if 0 <= q {
          MatchAtIff(line, q, k);
        }
      }
    }
  }

  /**
   * `line.split` on the pattern `\*\*(.*?)\*\*` from index `p`: the text before each
   * match, then its capture, and at the end the rest of the line, which
   * may be empty.
   */
  function SplitFrom(s: string, p: nat): (parts: seq<string>)
    requires p <= |s|
    decreases |s| - p
    ensures |parts| % 2 == 1
  {
    match NextMatch(s, p)
    case None => [s[p..]]
    case Some(q) =>
      var k := MatchAt(s, q).value;
      [s[p..q], s[q + 2..k]] + SplitFrom(s, k + 2)
  }

  /** Puts the markers back around the odd-indexed parts. */
  function Rejoin(parts: seq<string>): string
    requires |parts| % 2 == 1
    decreases |parts|
  {
    if |parts| == 1 then parts[0]
    else parts[0] + Marker + parts[1] + Marker + Rejoin(parts[2..])
  }

  /** A capture: no line terminator, no `**`, and no `*` at its end, which would have closed it one step earlier. */
  predicate Capture(t: string) {
    && (forall j :: 0 <= j < |t| ==> !IsLineTerminator(t[j]) && !MarkerAt(t, j))
    && (t == [] || t[|t| - 1] != '*')
  }

  /** Odd-indexed parts are captures; even-indexed parts hold no match of their own. */
  predicate SplitShape(parts: seq<string>) {
    && |parts| % 2 == 1
    && forall i :: 0 <= i < |parts| ==> (if i % 2 == 1 then Capture(parts[i]) else NoBold(parts[i]))
  }

  /** A match inside a slice is a match of the whole text, at the shifted position. */
  lemma SliceMatch(s: string, a: nat, b: nat, q: int, k: int)
    requires a <= b <= |s| && LazyMatch(s[a..b], q, k)
    ensures LazyMatch(s, a + q, a + k)
  {
    var t := s[a..b];
    forall j | a + q + 2 <= j < a + k ensures Passes(s, j) {
      assert Passes(t, j - a);
      assert t[j - a] == s[j] && t[j - a + 1] == s[j + 1];
    }
  }

  /** A stretch of text no match starts in has no match of its own. */
  lemma ChunkNoBold(s: string, a: nat, b: nat)
    requires a <= b <= |s|
    requires forall x :: a <= x < b ==> MatchAt(s, x).None?
    ensures NoBold(s[a..b])
  {
    forall q, k ensures !LazyMatch(s[a..b], q, k) {
      if LazyMatch(s[a..b], q, k) {
        SliceMatch(s, a, b, q, k);
        MatchAtIff(s, a + q, a + k);
      }
    }
  }

  /** The capture of a match is a `Capture`. */
  lemma MatchCapture(s: string, q: nat, k: nat)
    requires LazyMatch(s, q, k)
    ensures Capture(s[q + 2..k])
  {
    var t := s[q + 2..k];
    forall j | 0 <= j < |t| ensures !IsLineTerminator(t[j]) && !MarkerAt(t, j) {
      assert Passes(s, q + 2 + j);
    }
    if t != [] {
      assert Passes(s, k - 1);
    }
  }

  /** One step of the split: the plain text up to the match, the capture, then the rest. */
  lemma SplitAtMatch(s: string, p: nat, q: nat, parts: seq<string>)
    requires p <= |s| && NextMatch(s, p) == Some(q) && parts == SplitFrom(s, p)
    ensures var k := MatchAt(s, q).value;
      parts == [s[p..q], s[q + 2..k]] + SplitFrom(s, k + 2)
  {
  }

  /** Rejoining the parts gives back the text they were cut from. */
  lemma {:induction false} SplitRebuild(s: string, p: nat, parts: seq<string>)
    requires p <= |s| && parts == SplitFrom(s, p)
    decreases |s| - p
    ensures Rejoin(parts) == s[p..]
  {
    match NextMatch(s, p)
    case None =>
    case Some(q) =>
      var k := MatchAt(s, q).value;
      SplitAtMatch(s, p, q, parts);
      SplitRebuild(s, k + 2, SplitFrom(s, k + 2));
      MatchAtIff(s, q, k);
      StepRejoin(s, p, q, k, SplitFrom(s, k + 2), parts);
  }

  /** One match: the plain text, the capture between markers, then what the rest rejoins to. */
  lemma StepRejoin(s: string, p: nat, q: nat, k: nat, rest: seq<string>, parts: seq<string>)
    requires p <= q && q + 2 <= k && MarkerAt(s, q) && MarkerAt(s, k)
    requires |rest| % 2 == 1 && Rejoin(rest) == s[k + 2..]
    requires parts == [s[p..q], s[q + 2..k]] + rest
    ensures |parts| % 2 == 1 && Rejoin(parts) == s[p..]
  {
    RejoinPair(parts, s[p..q], s[q + 2..k], rest);
    MatchText(s, p, q, k);
  }

  /** The text from `p` around a match at `q` that closes at `k`. */
  lemma MatchText(s: string, p: nat, q: nat, k: nat)
    requires p <= q && q + 2 <= k && MarkerAt(s, q) && MarkerAt(s, k)
    ensures s[p..] == s[p..q] + Marker + s[q + 2..k] + Marker + s[k + 2..]
  {
    MarkerSlice(s, q);
    MarkerSlice(s, k);
    DelimitedSplit(s, p, q, k, Marker);
    assert s[p..q] + Marker + s[q + 2..k] + Marker + s[k + 2..] == s[p..q] + (Marker + s[q + 2..k] + Marker) + s[k + 2..];
  }

  lemma RejoinPair(parts: seq<string>, plain: string, bold: string, rest: seq<string>)
    requires |rest| % 2 == 1 && parts == [plain, bold] + rest
    ensures |parts| % 2 == 1 && Rejoin(parts) == plain + Marker + bold + Marker + Rejoin(rest)
  {
    OddStep(|rest|);
    assert parts[2..] == rest;
  }

  lemma OddStep(n: nat)
    ensures (n + 2) % 2 == n % 2
  {
  }

  lemma MarkerSlice(s: string, j: int)
    requires MarkerAt(s, j)
    ensures s[j..j + 2] == Marker
  {
  }

  /** The parts have the split's shape. */
  lemma {:induction false} SplitShaped(s: string, p: nat, parts: seq<string>)
    requires p <= |s| && parts == SplitFrom(s, p)
    decreases |s| - p
    ensures SplitShape(parts)
  {
    match NextMatch(s, p)
    case None =>
      ShapedAtEnd(s, p, parts);
    case Some(q) =>
      var k := MatchAt(s, q).value;
      SplitShaped(s, k + 2, SplitFrom(s, k + 2));
      ShapedAtMatch(s, p, q, k, parts);
  }

  /** With no match left, the one remaining part is plain text without a match. */
  lemma ShapedAtEnd(s: string, p: nat, parts: seq<string>)
    requires p <= |s| && NextMatch(s, p) == None && parts == SplitFrom(s, p)
    ensures SplitShape(parts)
  {
    NextMatchIsFirst(s, p);
    ChunkNoBold(s, p, |s|);
    assert s[p..|s|] == s[p..];
  }

  /** A match in front of a shaped rest keeps the shape. */
  lemma ShapedAtMatch(s: string, p: nat, q: nat, k: nat, parts: seq<string>)
    requires p <= |s| && NextMatch(s, p) == Some(q) && MatchAt(s, q) == Some(k) && parts == SplitFrom(s, p)
    requires SplitShape(SplitFrom(s, k + 2))
    ensures SplitShape(parts)
  {
    NextMatchIsFirst(s, p);
    SplitAtMatch(s, p, q, parts);
    ChunkNoBold(s, p, q);
    MatchAtIff(s, q, k);
    MatchCapture(s, q, k);
    StepShape(s[p..q], s[q + 2..k], SplitFrom(s, k + 2));
  }

  /** A plain part without a match and a capture in front of a shaped split keep its shape. */
  lemma StepShape(plain: string, bold: string, rest: seq<string>)
    requires NoBold(plain) && Capture(bold) && SplitShape(rest)
    ensures SplitShape([plain, bold] + rest)
  {
    var parts := [plain, bold] + rest;
    forall i | 2 <= i < |parts|
      ensures if i % 2 == 1 then Capture(parts[i]) else NoBold(parts[i])
    {
      assert parts[i] == rest[i - 2];
    }
  }

  /** The split of a whole line: rejoined it is the line, and it has the split's shape. */
  lemma SplitOfLine(line: string)
    ensures Rejoin(SplitFrom(line, 0)) == line && SplitShape(SplitFrom(line, 0))
  {
    var parts := SplitFrom(line, 0);
    SplitRebuild(line, 0, parts);
    SplitShaped(line, 0, parts);
    assert line[0..] == line;
  }

  /**
   * A rendered line; `Skip` renders nothing. A bold paragraph keeps its
   * line and shows the parts `SplitFrom(text, 0)`, odd-indexed ones in bold.
   */
  datatype Block =
    | Skip
    | Heading3(text: string)
    | Heading4(text: string)
    | Bullet(text: string)
    | Numbered(text: string)
    | BoldParagraph(text: string)
    | Divider
    | Paragraph(text: string)

  /** One step of `lines.map(...)`: the checks in the order the renderer makes them. */
  function Classify(line: string): Block {
    if StartsWith(line, H3Prefix) then Heading3(ReplaceFirst(line, H3Prefix, ""))
    else if StartsWith(line, H4Prefix) then Heading4(ReplaceFirst(line, H4Prefix, ""))
    else if StartsWith(Trim(line), BulletMarker) then Bullet(ReplaceFirst(line, BulletMarker, ""))
    else if IsNumberedItem(Trim(line)) then Numbered(Trim(line))
    else if !NoBold(line) then BoldParagraph(line)
    else if Trim(line) == DividerLine then Divider
    else if Trim(line) != "" then Paragraph(line)
    else Skip
  }

  /** None of the checks before the bold test succeeds. */
  predicate NotMarked(line: string) {
    && !StartsWith(line, H3Prefix) && !StartsWith(line, H4Prefix)
    && !StartsWith(Trim(line), BulletMarker) && !IsNumberedItem(Trim(line))
  }

  /**
   * Which kind of block a line becomes: heading prefixes first, then a
   * bullet marker after the indentation, a numbered item, a bold match, a
   * divider, and any other non-blank line is a paragraph. Blank lines, and
   * only they, vanish.
   */
  lemma ClassifyKind(line: string, b: Block)
    requires b == Classify(line)
    ensures b.Heading3? <==> StartsWith(line, H3Prefix)
    ensures b.Heading4? <==> StartsWith(line, H4Prefix)
    ensures b.Bullet? <==> !StartsWith(line, H3Prefix) && !StartsWith(line, H4Prefix) && StartsWith(Trim(line), BulletMarker)
    ensures b.Numbered? <==>
      && !StartsWith(line, H3Prefix) && !StartsWith(line, H4Prefix)
      && !StartsWith(Trim(line), BulletMarker) && IsNumberedItem(Trim(line))
    ensures b.BoldParagraph? <==> NotMarked(line) && !NoBold(line)
    ensures b == Divider <==> NotMarked(line) && NoBold(line) && Trim(line) == DividerLine
    ensures b.Paragraph? <==> NotMarked(line) && NoBold(line) && Trim(line) != DividerLine && !AllSpace(line)
    ensures b == Skip <==> AllSpace(line)
  {
    if StartsWith(line, H4Prefix) {
      H4IsNotH3(line);
    }
    HasBoldIff(line);
    if AllSpace(line) {
      assert Trim(line) == [];
    }
  }

  /** A level-3 heading keeps the text after its prefix. */
  lemma ClassifyHeading3(line: string, b: Block)
    requires b == Classify(line) && b.Heading3?
    ensures line == H3Prefix + b.text
  {
    ClassifyKind(line, b);
    assert b == Heading3(ReplaceFirst(line, H3Prefix, ""));
    ReplacePrefix(line, H3Prefix);
    assert line == H3Prefix + line[4..];
  }

  /** A level-4 heading keeps the text after its prefix. */
  lemma ClassifyHeading4(line: string, b: Block)
    requires b == Classify(line) && b.Heading4?
    ensures line == H4Prefix + b.text
  {
    ClassifyKind(line, b);
    H4IsNotH3(line);
    assert b == Heading4(ReplaceFirst(line, H4Prefix, ""));
    ReplacePrefix(line, H4Prefix);
    assert line == H4Prefix + line[5..];
  }

  /**
   * A bullet keeps its indentation: the `* ` removed is the one right
   * after the leading space, which is the first in the line.
   */
  lemma ClassifyBullet(line: string, b: Block)
    requires b == Classify(line) && b.Bullet?
    ensures var i := LeadingSpace(line);
      i + 2 <= |line| && line[i..i + 2] == BulletMarker && b.text == line[..i] + line[i + 2..]
  {
    ClassifyKind(line, b);
    assert b == Bullet(ReplaceFirst(line, BulletMarker, ""));
    BulletText(line);
  }

  lemma BulletText(line: string)
    requires StartsWith(Trim(line), BulletMarker)
    ensures var i := LeadingSpace(line);
      i + 2 <= |line| && line[i..i + 2] == BulletMarker && ReplaceFirst(line, BulletMarker, "") == line[..i] + line[i + 2..]
  {
    var i := LeadingSpace(line);
    MarkerAfterSpace(line, i);
    NoMarkerInSpace(line, i);
    DropMarker(line, i);
  }

  /** Replacing the first `* ` by nothing, when it starts at `i`, cuts those two characters out. */
  lemma DropMarker(line: string, i: nat)
    requires OccursAt(line, BulletMarker, i) && forall k :: 0 <= k < i ==> !OccursAt(line, BulletMarker, k)
    ensures ReplaceFirst(line, BulletMarker, "") == line[..i] + line[i + 2..]
  {
    ReplaceFirstAt(line, BulletMarker, "", i);
    assert line[..i] + "" == line[..i];
  }

  /** The trimmed line starts where the leading space ends, so its `* ` is there in the line. */
  lemma MarkerAfterSpace(line: string, i: nat)
    requires StartsWith(Trim(line), BulletMarker) && i == LeadingSpace(line)
    ensures i + 2 <= |line| && line[i..i + 2] == BulletMarker && OccursAt(line, BulletMarker, i)
  {
    var t := Trim(line);
    TrimSlice(line);
    assert line[i..i + |t|] == t;
    assert line[i..i + 2] == t[..2];
  }

  /** No `* ` starts inside the leading space: its characters are not `*`. */
  lemma NoMarkerInSpace(line: string, i: nat)
    requires i <= |line| && AllSpace(line[..i])
    ensures forall k :: 0 <= k < i ==> !OccursAt(line, BulletMarker, k)
  {
    forall k | 0 <= k < i ensures !OccursAt(line, BulletMarker, k) {
      assert IsSpace(line[..i][k]);
      assert line[k] != '*';
      assert k + 2 > |line| || line[k..k + 2][0] == line[k];
    }
  }

  /** A numbered item shows its line trimmed. */
  lemma ClassifyNumbered(line: string, b: Block)
    requires b == Classify(line) && b.Numbered?
    ensures b == Numbered(Trim(line)) && IsNumberedItem(b.text)
  {
    ClassifyKind(line, b);
  }

  /** Both kinds of paragraph keep the line as it is. */
  lemma ClassifyParagraph(line: string, b: Block)
    requires b == Classify(line) && (b.BoldParagraph? || b.Paragraph?)
    ensures b == BoldParagraph(line) || b == Paragraph(line)
  {
    ClassifyKind(line, b);
  }

  /**
   * The parts a line with a match is shown as, `SplitFrom(line, 0)`,
   * rejoin to the line, have the split's shape, and hold at least one
   * bold part.
   */
  lemma BoldParts(line: string, parts: seq<string>)
    requires !NoBold(line) && parts == SplitFrom(line, 0)
    ensures |parts| % 2 == 1 && Rejoin(parts) == line && SplitShape(parts) && |parts| >= 3
  {
    HasBoldIff(line);
    SplitRebuild(line, 0, parts);
    SplitShaped(line, 0, parts);
    assert line[0..] == line;
    var q := NextMatch(line, 0).value;
    SplitAtMatch(line, 0, q, parts);
  }

  /** `renderFormattedText(text)`: one block per line of the text. */
  function Render(text: string): (blocks: seq<Block>)
    ensures |blocks| == |Split(text, '\n')| == multiset(text)['\n'] + 1
    ensures forall i :: 0 <= i < |blocks| ==> blocks[i] == Classify(Split(text, '\n')[i])
  {
    var lines := Split(text, '\n');
    LineCount(text);
    seq(|lines|, k requires 0 <= k < |lines| => Classify(lines[k]))
  }
}
