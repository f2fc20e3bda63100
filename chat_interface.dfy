/**
 * The chat answer renderer: each line of an answer becomes nothing, a
 * heading, a divider, a bullet with an indent, a numbered item or a
 * paragraph, and bullets and paragraphs are cut into plain and bold
 * segments by the global pattern `\*\*([^\*]+?)\*\*`.
 */
module ChatInterface {
  import opened Options
  import opened Strings
  import opened LineSyntax

  datatype Segment = Plain(text: string) | Bold(text: string)

  /** The text a segment list was cut from: bold segments get their `**` markers back. */
  function Flatten(parts: seq<Segment>): string {
    if parts == [] then []
    else
      var head := match parts[0] case Plain(t) => t case Bold(t) => "**" + t + "**";
      head + Flatten(parts[1..])
  }

  lemma {:induction false} FlattenConcat(a: seq<Segment>, b: seq<Segment>)
    ensures Flatten(a + b) == Flatten(a) + Flatten(b)
  {
    if a == [] {
      assert a + b == b;
    } else {
      assert (a + b)[1..] == a[1..] + b;
      FlattenConcat(a[1..], b);
    }
  }

  /** `**`, then one or more characters other than `*`, then `**`, from `p` to `q + 2`. */
  predicate BoldSpan(s: string, p: int, q: int) {
    && 0 <= p && p + 2 < q && q + 2 <= |s|
    && s[p] == '*' && s[p + 1] == '*' && s[q] == '*' && s[q + 1] == '*'
    && forall k :: p + 2 <= k < q ==> s[k] != '*'
  }

  /** The first `*` at or after `k`, or the end of the text. */
  function NextStar(s: string, k: nat): (n: nat)
    requires k <= |s|
    decreases |s| - k
    ensures k <= n <= |s| && (n < |s| ==> s[n] == '*')
  {
    if k == |s| || s[k] == '*' then k else NextStar(s, k + 1)
  }

  /** No `*` is passed over on the way to `NextStar`. */
  lemma {:induction false} NextStarSkips(s: string, k: nat)
    requires k <= |s|
    decreases |s| - k
    ensures forall j :: k <= j < NextStar(s, k) ==> s[j] != '*'
  {
    if k < |s| && s[k] != '*' {
      NextStarSkips(s, k + 1);
    }
  }

  /** Where the content of a bold match at `p` ends; the lazy `+?` has only one choice, the first `*`. */
  function BoldEnd(s: string, p: nat): (q: Option<nat>)
    ensures q.Some? ==> p + 2 < q.value && q.value + 2 <= |s|
  {
    if p + 2 <= |s| && s[p] == '*' && s[p + 1] == '*' then
      var q := NextStar(s, p + 2);
      if q > p + 2 && q + 1 < |s| && s[q + 1] == '*' then Some(q) else None
    else None
  }

  /** `BoldEnd` finds exactly the spans the pattern matches at `p`. */
  lemma BoldEndIsSpan(s: string, p: nat, q: int)
    ensures BoldEnd(s, p) == Some(q) <==> BoldSpan(s, p, q)
  {
    if p + 2 <= |s| {
      NextStarSkips(s, p + 2);
    }
    if BoldSpan(s, p, q) {
      var n := NextStar(s, p + 2);
    }
  }

  /** `regex.exec(s)` with `lastIndex = from`: the start of the first match at or after `from`. */
  function NextBold(s: string, from: nat): (p: Option<nat>)
    decreases |s| - from
    ensures p.Some? ==> from <= p.value < |s| && BoldEnd(s, p.value).Some?
  {
    if from >= |s| then None
    else if BoldEnd(s, from).Some? then Some(from)
    else NextBold(s, from + 1)
  }

  /** `exec` passes over no match: nothing starts between `from` and the match it returns, or after `from` when it returns none. */
  lemma {:induction false} NextBoldIsFirst(s: string, from: nat)
    decreases |s| - from
    ensures NextBold(s, from).Some? ==> forall k :: from <= k < NextBold(s, from).value ==> BoldEnd(s, k).None?
    ensures NextBold(s, from).None? ==> forall k :: from <= k ==> BoldEnd(s, k).None?
  {
    if from < |s| && BoldEnd(s, from).None? {
      NextBoldIsFirst(s, from + 1);
    }
  }

  /** Every segment has text, and no bold segment holds a `*`. */
  predicate WellFormed(parts: seq<Segment>) {
    forall i :: 0 <= i < |parts| ==> parts[i].text != [] && (parts[i].Bold? ==> '*' !in parts[i].text)
  }

  /**
   * The segments the `exec` loop produces from `from` on: the plain text
   * before each match, the match's capture in bold, and the plain rest.
   */
  function Segments(s: string, from: nat): seq<Segment>
    requires from <= |s|
    decreases |s| - from
  {
    match NextBold(s, from)
    case None =>
      if from < |s| then [Plain(s[from..])] else []
    case Some(p) =>
      var q := BoldEnd(s, p).value;
      (if p > from then [Plain(s[from..p])] else []) + [Bold(s[p + 2..q])] + Segments(s, q + 2)
  }

  /** The segments give back the text they were cut from, markers included. */
  lemma {:induction false} SegmentsRebuild(s: string, from: nat, parts: seq<Segment>)
    requires from <= |s| && parts == Segments(s, from)
    decreases |s| - from
    ensures Flatten(parts) == s[from..]
  {
    match NextBold(s, from)
    case None =>
      SegmentsAtEnd(s, from);
      if from < |s| {
        assert Flatten([Plain(s[from..])]) == s[from..] + Flatten([]);
      }
    case Some(p) =>
      var q := BoldEnd(s, p).value;
      SegmentsAtMatch(s, from, p, q);
      SegmentsRebuild(s, q + 2, Segments(s, q + 2));
      BoldEndIsSpan(s, p, q);
      StepFlatten(s, from, p, q, if p > from then [Plain(s[from..p])] else [], Segments(s, q + 2));
  }

  /** No segment is empty and no bold segment holds a `*`. */
  lemma {:induction false} SegmentsWellFormed(s: string, from: nat, parts: seq<Segment>)
    requires from <= |s| && parts == Segments(s, from)
    decreases |s| - from
    ensures WellFormed(parts)
  {
    match NextBold(s, from)
    case None =>
      SegmentsAtEnd(s, from);
    case Some(p) =>
      var q := BoldEnd(s, p).value;
      SegmentsAtMatch(s, from, p, q);
      SegmentsWellFormed(s, q + 2, Segments(s, q + 2));
      BoldEndIsSpan(s, p, q);
      StepWellFormed(s, from, p, q, if p > from then [Plain(s[from..p])] else [], Segments(s, q + 2));
  }

  /** One match of the loop keeps the segments well formed. */
  lemma StepWellFormed(s: string, from: nat, p: nat, q: nat, lead: seq<Segment>, rest: seq<Segment>)
    requires from <= p && BoldSpan(s, p, q)
    requires lead == if p > from then [Plain(s[from..p])] else []
    requires WellFormed(rest)
    ensures WellFormed(lead + [Bold(s[p + 2..q])] + rest)
  {
    var bold := Bold(s[p + 2..q]);
    assert '*' !in bold.text by {
      forall k | 0 <= k < |bold.text| ensures bold.text[k] != '*' {
        assert bold.text[k] == s[p + 2 + k];
      }
    }
    var parts := lead + [bold] + rest;
    forall i | 0 <= i < |parts|
      ensures parts[i].text != [] && (parts[i].Bold? ==> '*' !in parts[i].text)
    {
      if i < |lead| {
        assert parts[i] == lead[i];
      } else if i == |lead| {
        assert parts[i] == bold;
      } else {
        assert parts[i] == rest[i - |lead| - 1];
      }
    }
  }

  lemma StepFlatten(s: string, from: nat, p: nat, q: nat, lead: seq<Segment>, rest: seq<Segment>)
    requires from <= p && BoldSpan(s, p, q)
    requires lead == if p > from then [Plain(s[from..p])] else []
    requires Flatten(rest) == s[q + 2..]
    ensures Flatten(lead + [Bold(s[p + 2..q])] + rest) == s[from..]
  {
    var bold := Bold(s[p + 2..q]);
    FlattenConcat(lead + [bold], rest);
    FlattenConcat(lead, [bold]);
    assert Flatten([bold]) == "**" + s[p + 2..q] + "**" by {
      assert [bold][1..] == [];
    }
    assert Flatten(lead) == s[from..p] by {
      if p > from {
        assert lead[1..] == [];
      }
    }
    MatchSplit(s, from, p, q);
  }

  /** The text from `from` is the lead, the whole match and what follows it. */
  lemma MatchSplit(s: string, from: nat, p: nat, q: nat)
    requires from <= p && BoldSpan(s, p, q)
    ensures s[from..] == s[from..p] + ("**" + s[p + 2..q] + "**") + s[q + 2..]
  {
    assert s[p..p + 2] == "**" && s[q..q + 2] == "**";
    DelimitedSplit(s, from, p, q, "**");
  }

  /** How `Segments` continues at a match. */
  lemma SegmentsAtMatch(s: string, from: nat, p: nat, q: nat)
    requires from <= |s| && NextBold(s, from) == Some(p) && BoldEnd(s, p) == Some(q)
    ensures Segments(s, from) ==
      (if p > from then [Plain(s[from..p])] else []) + [Bold(s[p + 2..q])] + Segments(s, q + 2)
  {
  }

  lemma Regroup(a: seq<Segment>, b: seq<Segment>, c: seq<Segment>, d: seq<Segment>)
    ensures (a + b + c) + d == a + (b + c + d)
  {
  }

  /** Where `Segments` stops: the rest of the text, if any, is plain. */
  lemma SegmentsAtEnd(s: string, from: nat)
    requires from <= |s| && NextBold(s, from) == None
    ensures Segments(s, from) == if from < |s| then [Plain(s[from..])] else []
  {
  }

  /** The `exec` loop of `renderFormattedText`, pushing each part as it goes. */
  method SplitBold(s: string) returns (parts: seq<Segment>)
    ensures parts == Segments(s, 0)
    ensures Flatten(parts) == s && WellFormed(parts)
  {
    parts := [];
    var lastIndex := 0;
    var m := NextBold(s, 0);
    assert Pushed(s, 0, [], Segments(s, 0));
    while m.Some?
      invariant lastIndex <= |s| && m == NextBold(s, lastIndex)
      invariant Pushed(s, lastIndex, parts, Segments(s, 0))
      decreases |s| - lastIndex
    {
      var index := m.value;
      var q := BoldEnd(s, index).value;
      ghost var before := parts;
      if index > lastIndex {
        parts := parts + [Plain(s[lastIndex..index])];
      }
      parts := parts + [Bold(s[index + 2..q])];
      MatchStep(s, lastIndex, index, q, before, parts, Segments(s, 0));
      lastIndex := q + 2;
      m := NextBold(s, lastIndex);
    }
    ghost var before := parts;
    if lastIndex < |s| {
      parts := parts + [Plain(s[lastIndex..])];
    }
    EndStep(s, lastIndex, before, parts, Segments(s, 0));
    SegmentsOfText(s);
  }

  /** What the loop has pushed, followed by the segments still to come from `from`, is the whole list. */
  ghost predicate Pushed(s: string, from: nat, parts: seq<Segment>, all: seq<Segment>) {
    from <= |s| && parts + Segments(s, from) == all
  }

  /** One turn of the loop keeps what has been pushed plus what is left equal to the whole. */
  lemma MatchStep(s: string, from: nat, p: nat, q: nat, before: seq<Segment>, after: seq<Segment>, all: seq<Segment>)
    requires NextBold(s, from) == Some(p) && BoldEnd(s, p) == Some(q)
    requires after == before + (if p > from then [Plain(s[from..p])] else []) + [Bold(s[p + 2..q])]
    requires Pushed(s, from, before, all)
    ensures Pushed(s, q + 2, after, all)
  {
    SegmentsAtMatch(s, from, p, q);
    Regroup(before, if p > from then [Plain(s[from..p])] else [], [Bold(s[p + 2..q])], Segments(s, q + 2));
  }

  /** After the last match, pushing the rest of the text, if any, completes the list. */
  lemma EndStep(s: string, from: nat, before: seq<Segment>, after: seq<Segment>, all: seq<Segment>)
    requires NextBold(s, from) == None && Pushed(s, from, before, all)
    requires after == before + if from < |s| then [Plain(s[from..])] else []
    ensures after == all
  {
    SegmentsAtEnd(s, from);
  }

  /**
   * After the `*` at `indent` comes a maximal whitespace run of at least one
   * character, and `content` is what follows it up to the first line
   * terminator.
   */
  predicate BulletContent(line: string, indent: nat, content: string) {
    exists w :: indent + 1 < w <= |line| && AllSpace(line[indent + 1..w]) && (w == |line| || !IsSpace(line[w]))
                && w + |content| <= |line| && content == line[w..w + |content|]
                && SingleLine(content)
                && (w + |content| == |line| || IsLineTerminator(line[w + |content|]))
  }

  /** A bullet marker at `i`: only space before it, a `*`, and then a space. */
  predicate BulletAt(line: string, i: int) {
    0 <= i && i + 1 < |line| && AllSpace(line[..i]) && line[i] == '*' && IsSpace(line[i + 1])
  }

  /** A line has at most one bullet marker: the `*` right after the leading space. */
  lemma BulletAtIndent(line: string, i: int)
    requires BulletAt(line, i)
    ensures i == LeadingSpace(line)
  {
    SpaceRunEnds(line, i, LeadingSpace(line));
  }

  /**
   * The match of `^(\s*)\*\s+(.*)`: the indent is the leading whitespace,
   * and the content starts after the `*` and the whitespace that follows
   * it and runs to the first line terminator.
   */
  function BulletMatch(line: string): (m: Option<(nat, string)>)
    ensures m.Some? <==> BulletAt(line, LeadingSpace(line))
    ensures m.Some? ==> m.value.0 == LeadingSpace(line)
  {
    var i := LeadingSpace(line);
    if BulletAt(line, i) then Some((i, BulletRest(line, i))) else None
  }

  /** The text after the `*` at `i` and the white space that follows it, up to a line terminator. */
  function BulletRest(line: string, i: nat): string
    requires i < |line|
  {
    var w := i + 1 + LeadingSpace(line[i + 1..]);
    var rest := line[w..];
    rest[..LineLength(rest)]
  }

  /** The content is the rest of the line after the marker and its spaces, up to a line terminator. */
  lemma BulletMatchContent(line: string)
    requires BulletMatch(line).Some?
    ensures BulletContent(line, BulletMatch(line).value.0, BulletMatch(line).value.1)
  {
    var i := LeadingSpace(line);
    assert BulletMatch(line).value.1 == BulletRest(line, i);
    BulletContentAt(line, i);
  }

  lemma BulletContentAt(line: string, i: nat)
    requires BulletAt(line, i)
    ensures BulletContent(line, i, BulletRest(line, i))
  {
    var after := line[i + 1..];
    var n := LeadingSpace(after);
    var w := i + 1 + n;
    var content := BulletRest(line, i);
    assert line[i + 1..w] == after[..n];
    assert w < |line| ==> line[w] == after[n];
    var rest := line[w..];
    assert w + |content| < |line| ==> line[w + |content|] == rest[|content|];
    assert content == line[w..w + |content|];
  }

  /**
   * A rendered line; `Skip` renders nothing. Bullets and paragraphs keep
   * their text, which is shown as the segments `SplitBold` cuts from it.
   */
  datatype Block =
    | Skip
    | Heading3(text: string)
    | Heading4(text: string)
    | Divider
    | Bullet(indent: nat, text: string)
    | Numbered(text: string)
    | Paragraph(text: string)

  /** One step of `lines.map(...)`: the checks in the order the renderer makes them. */
  function Classify(line: string): Block {
    if Trim(line) == "" then Skip
    else if StartsWith(line, H3Prefix) then Heading3(ReplaceFirst(line, H3Prefix, ""))
    else if StartsWith(line, H4Prefix) then Heading4(ReplaceFirst(line, H4Prefix, ""))
    else if Trim(line) == "---" then Divider
    else
      match BulletMatch(line)
      case Some((indent, content)) => Bullet(indent, content)
      case None =>
        var t := Trim(line);
        if IsNumberedItem(t) then Numbered(t) else Paragraph(line)
  }

  /**
   * Which kind of block a line becomes: blank lines vanish, a heading
   * prefix wins over everything but blankness, then a divider, then a
   * bullet marker, then a numbered item; the rest are paragraphs.
   */
  lemma ClassifyKind(line: string, b: Block)
    requires b == Classify(line)
    ensures b == Skip <==> AllSpace(line)
    ensures b.Heading3? <==> !AllSpace(line) && StartsWith(line, H3Prefix)
    ensures b.Heading4? <==> !AllSpace(line) && StartsWith(line, H4Prefix)
    ensures b == Divider <==>
      !AllSpace(line) && !StartsWith(line, H3Prefix) && !StartsWith(line, H4Prefix) && Trim(line) == "---"
    ensures b.Bullet? <==>
      && !AllSpace(line) && !StartsWith(line, H3Prefix) && !StartsWith(line, H4Prefix) && Trim(line) != "---"
      && BulletAt(line, LeadingSpace(line))
    ensures b.Numbered? <==>
      && !AllSpace(line) && !StartsWith(line, H3Prefix) && !StartsWith(line, H4Prefix) && Trim(line) != "---"
      && !BulletAt(line, LeadingSpace(line)) && IsNumberedItem(Trim(line))
  {
    if StartsWith(line, H4Prefix) {
      H4IsNotH3(line);
    }
  }

  /** A level-3 heading keeps the text after its prefix. */
  lemma ClassifyHeading3(line: string, b: Block)
    requires b == Classify(line) && b.Heading3?
    ensures line == H3Prefix + b.text
  {
    ReplacePrefix(line, H3Prefix);
    assert line == H3Prefix + line[4..];
  }

  /** A level-4 heading keeps the text after its prefix. */
  lemma ClassifyHeading4(line: string, b: Block)
    requires b == Classify(line) && b.Heading4?
    ensures line == H4Prefix + b.text
  {
    ReplacePrefix(line, H4Prefix);
    assert line == H4Prefix + line[5..];
  }

  /**
   * A bullet is indented by the leading space and holds what follows the
   * marker and its spaces, up to a line terminator.
   */
  lemma ClassifyBullet(line: string, b: Block)
    requires b == Classify(line) && b.Bullet?
    ensures b.indent == LeadingSpace(line) && BulletContent(line, b.indent, b.text)
  {
    var m := BulletMatch(line);
    assert m == Some((b.indent, b.text));
    BulletMatchContent(line);
  }

  /** A numbered item shows its line trimmed; a paragraph shows the line as it is. */
  lemma ClassifyLine(line: string, b: Block)
    requires b == Classify(line)
    ensures b.Numbered? ==> b.text == Trim(line) && IsNumberedItem(b.text)
    ensures b.Paragraph? ==> b.text == line && !AllSpace(line)
  {
    ClassifyKind(line, b);
  }

  /** The segments of a whole text rebuild it and are well formed. */
  lemma SegmentsOfText(s: string)
    ensures Flatten(Segments(s, 0)) == s && WellFormed(Segments(s, 0))
  {
    var parts := Segments(s, 0);
    SegmentsRebuild(s, 0, parts);
    SegmentsWellFormed(s, 0, parts);
    assert s[0..] == s;
  }

  /** `renderFormattedText(text)`: one block per line of the text. */
  function Render(text: string): (blocks: seq<Block>)
    ensures |blocks| == |Split(text, '\n')| == multiset(text)['\n'] + 1
    ensures forall i :: 0 <= i < |blocks| ==> blocks[i] == Classify(Split(text, '\n')[i])
  {
    var lines := Split(text, '\n');
    LineCount(text);
    seq(|lines|, k requires 0 <= k < |lines| => Classify(lines[k]))
  }
}
