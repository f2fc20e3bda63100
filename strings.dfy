/**
 * The JavaScript string primitives the application relies on: the `\s`
 * character class, `trim`, `startsWith`, `indexOf`, `split` on one
 * character, `replace` with a string pattern, and ASCII case folding.
 */
module Strings {
  import opened Options

  /** JavaScript's WhiteSpace and LineTerminator code points: the `\s` class, and what `trim` removes. */
  predicate IsSpace(c: char) {
    var n := c as int;
    (0x09 <= n <= 0x0D) || n == 0x20 || n == 0xA0 || n == 0x1680 || (0x2000 <= n <= 0x200A)
    || n == 0x2028 || n == 0x2029 || n == 0x202F || n == 0x205F || n == 0x3000 || n == 0xFEFF
  }

  /** The characters a regular-expression `.` does not match. */
  predicate IsLineTerminator(c: char) {
    c == '\n' || c == '\r' || c as int == 0x2028 || c as int == 0x2029
  }

  /** The `\d` class. */
  predicate IsDigit(c: char) {
    '0' <= c <= '9'
  }

  /** The `[A-Za-z]` class. */
  predicate IsAsciiLetter(c: char) {
    ('a' <= c <= 'z') || ('A' <= c <= 'Z')
  }

  predicate AllSpace(s: string) {
    forall i :: 0 <= i < |s| ==> IsSpace(s[i])
  }

  lemma LineTerminatorIsSpace(c: char)
    ensures IsLineTerminator(c) ==> IsSpace(c)
  {
  }

  /** `s.trimStart()`: drops the longest all-space prefix. */
  function TrimStart(s: string): (r: string)
    ensures |r| <= |s| && r == s[|s| - |r|..]
    ensures AllSpace(s[..|s| - |r|])
    ensures r == [] || !IsSpace(r[0])
  {
    if s != [] && IsSpace(s[0]) then
      var r := TrimStart(s[1..]);
      assert s[1..][..|s| - 1 - |r|] == s[1..|s| - |r|];
      r
    else s
  }

  /** `s.trimEnd()`: drops the longest all-space suffix. */
  function TrimEnd(s: string): (r: string)
    ensures |r| <= |s| && r == s[..|r|]
    ensures AllSpace(s[|r|..])
    ensures r == [] || !IsSpace(r[|r| - 1])
  {
    if s != [] && IsSpace(s[|s| - 1]) then
      var r := TrimEnd(s[..|s| - 1]);
      assert s[..|s| - 1][|r|..] == s[|r|..|s| - 1];
      r
    else s
  }

  /** `s.trim()`: the slice of `s` left after dropping leading and trailing space. */
  function Trim(s: string): (r: string)
    ensures |r| <= |s|
    ensures r == [] <==> AllSpace(s)
    ensures r != [] ==> !IsSpace(r[0]) && !IsSpace(r[|r| - 1])
  {
    var t := TrimStart(s);
    var r := TrimEnd(t);
    TrimParts(s, t, r);
    r
  }

  /** What `trim` keeps is the slice that starts after the leading space, with only space after it. */
  lemma TrimSlice(s: string)
    ensures TrimmedAt(s, Trim(s), LeadingSpace(s))
  {
    TrimParts(s, TrimStart(s), TrimEnd(TrimStart(s)));
  }

  lemma TrimParts(s: string, t: string, r: string)
    requires |t| <= |s| && t == s[|s| - |t|..] && AllSpace(s[..|s| - |t|]) && (t == [] || !IsSpace(t[0]))
    requires |r| <= |t| && r == t[..|r|] && AllSpace(t[|r|..])
    ensures TrimmedAt(s, r, |s| - |t|)
    ensures r == [] <==> AllSpace(s)
  {
    var i := |s| - |t|;
    assert s[i..i + |r|] == r;
    assert s[i + |r|..] == t[|r|..];
    if r == [] {
      assert s == s[..i] + t;
      AllSpaceConcat(s[..i], t);
    } else {
      assert s[i] == r[0];
    }
  }

  lemma AllSpaceConcat(a: string, b: string)
    requires AllSpace(a) && AllSpace(b)
    ensures AllSpace(a + b)
  {
    forall k | 0 <= k < |a + b| ensures IsSpace((a + b)[k]) {
      if k < |a| { assert (a + b)[k] == a[k]; } else { assert (a + b)[k] == b[k - |a|]; }
    }
  }

  lemma SliceSplit(s: string, a: nat, b: nat)
    requires a <= b <= |s|
    ensures s[a..] == s[a..b] + s[b..]
  {
  }

  lemma Associate(a: string, b: string, c: string, d: string, e: string)
    ensures (a + (b + c + d)) + e == a + (b + (c + (d + e)))
  {
  }

  /** A text from `from` cut around a span that opens and closes with the delimiter `m`. */
  lemma DelimitedSplit(s: string, from: nat, p: nat, q: nat, m: string)
    requires from <= p && p + |m| <= q && q + |m| <= |s|
    requires s[p..p + |m|] == m && s[q..q + |m|] == m
    ensures s[from..] == s[from..p] + (m + s[p + |m|..q] + m) + s[q + |m|..]
  {
    SliceSplit(s, from, p);
    SliceSplit(s, p, p + |m|);
    SliceSplit(s, p + |m|, q);
    SliceSplit(s, q, q + |m|);
    Associate(s[from..p], m, s[p + |m|..q], m, s[q + |m|..]);
  }

  /** Trimming is idempotent: a string without space at either end trims to itself. */
  lemma TrimOfTrimmed(t: string)
    requires t == [] || (!IsSpace(t[0]) && !IsSpace(t[|t| - 1]))
    ensures Trim(t) == t
  {
    assert TrimStart(t) == t;
    assert TrimEnd(t) == t;
  }

  /** `r` is `s[i..i+|r|]` and everything around it in `s` is space. */
  predicate TrimmedAt(s: string, r: string, i: int) {
    0 <= i <= |s| - |r| && s[i..i + |r|] == r && AllSpace(s[..i]) && AllSpace(s[i + |r|..])
  }

  /** `s.startsWith(p)`. */
  predicate StartsWith(s: string, p: string) {
    |p| <= |s| && s[..|p|] == p
  }

  /** `p` occurs in `s` at index `i`. */
  predicate OccursAt(s: string, p: string, i: int) {
    0 <= i && i + |p| <= |s| && s[i..i + |p|] == p
  }

  /** `s.includes(p)`. */
  predicate Contains(s: string, p: string) {
    exists i :: 0 <= i <= |s| - |p| && OccursAt(s, p, i)
  }

  /** `s.indexOf(p, from)`: the first occurrence of `p` at or after `from`. */
  function IndexOf(s: string, p: string, from: nat): (r: Option<nat>)
    decreases |s| - from
    ensures r.Some? ==> from <= r.value && OccursAt(s, p, r.value)
    ensures r.Some? ==> forall k :: from <= k < r.value ==> !OccursAt(s, p, k)
    ensures r.None? ==> forall k :: from <= k ==> !OccursAt(s, p, k)
  {
    if from + |p| > |s| then None
    else if s[from..from + |p|] == p then Some(from)
    else IndexOf(s, p, from + 1)
  }

  /** `s.replace(p, rep)` with a string pattern: only the first occurrence is replaced. */
  function ReplaceFirst(s: string, p: string, rep: string): (r: string)
    ensures |r| == if IndexOf(s, p, 0).Some? then |s| - |p| + |rep| else |s|
  {
    match IndexOf(s, p, 0)
    case None => s
    case Some(i) => s[..i] + rep + s[i + |p|..]
  }

  /** Without an occurrence nothing changes; otherwise exactly the first occurrence is replaced. */
  lemma ReplaceFirstSpec(s: string, p: string, rep: string)
    ensures !Contains(s, p) ==> ReplaceFirst(s, p, rep) == s
    ensures Contains(s, p) ==>
      exists i :: OccursAt(s, p, i) && (forall k :: 0 <= k < i ==> !OccursAt(s, p, k))
                  && ReplaceFirst(s, p, rep) == s[..i] + rep + s[i + |p|..]
  {
    match IndexOf(s, p, 0)
    case None =>
      assert !Contains(s, p);
    case Some(i) =>
      assert OccursAt(s, p, i) && (forall k :: 0 <= k < i ==> !OccursAt(s, p, k));
      assert ReplaceFirst(s, p, rep) == s[..i] + rep + s[i + |p|..];
  }

  /** The first index of `c` in `s`, or `|s|` when there is none. */
  function CharIndex(s: string, c: char): (n: nat)
    ensures n <= |s|
    ensures n < |s| ==> s[n] == c
    ensures c !in s[..n]
  {
    if s == [] || s[0] == c then 0 else 1 + CharIndex(s[1..], c)
  }

  /** `s.split(c)` for a one-character separator: the maximal runs between separators. */
  function Split(s: string, c: char): (r: seq<string>)
    decreases |s|
    ensures |r| >= 1
    ensures forall i :: 0 <= i < |r| ==> c !in r[i]
  {
    var n := CharIndex(s, c);
    if n == |s| then [s] else [s[..n]] + Split(s[n + 1..], c)
  }

  /** `parts.join(c)`. */
  function Join(parts: seq<string>, c: char): string
    requires |parts| >= 1
  {
    if |parts| == 1 then parts[0] else parts[0] + [c] + Join(parts[1..], c)
  }

  /** Splitting and joining again gives back the string. */
  lemma {:induction false} SplitJoin(s: string, c: char)
    decreases |s|
    ensures Join(Split(s, c), c) == s
  {
    var n := CharIndex(s, c);
    if n < |s| {
      var tail := Split(s[n + 1..], c);
      SplitJoin(s[n + 1..], c);
      var r := Split(s, c);
      assert r == [s[..n]] + tail;
      assert r[0] == s[..n] && r[1..] == tail;
      assert Join(r, c) == s[..n] + [c] + Join(tail, c);
      assert s == s[..n] + [c] + s[n + 1..];
    }
  }

  /** Joining separator-free parts and splitting again gives back the parts. */
  lemma {:induction false} JoinSplit(parts: seq<string>, c: char)
    requires |parts| >= 1
    requires forall i :: 0 <= i < |parts| ==> c !in parts[i]
    ensures Split(Join(parts, c), c) == parts
  {
    var s := Join(parts, c);
    if |parts| == 1 {
      CharIndexAbsent(s, c);
    } else {
      JoinSplit(parts[1..], c);
      var rest := Join(parts[1..], c);
      CharIndexAfter(parts[0], c, rest);
      assert s[|parts[0]| + 1..] == rest;
      assert s[..|parts[0]|] == parts[0];
    }
  }

  lemma {:induction false} CharIndexAbsent(s: string, c: char)
    requires c !in s
    ensures CharIndex(s, c) == |s|
  {
    if s != [] {
      assert c !in s[1..];
      CharIndexAbsent(s[1..], c);
    }
  }

  lemma {:induction false} CharIndexAfter(a: string, c: char, b: string)
    requires c !in a
    ensures CharIndex(a + [c] + b, c) == |a|
  {
    if a != [] {
      assert (a + [c] + b)[1..] == a[1..] + [c] + b;
      CharIndexAfter(a[1..], c, b);
    }
  }

  /** The length of the longest all-space prefix: what `^\s*` matches. */
  function LeadingSpace(s: string): (n: nat)
    ensures n <= |s| && AllSpace(s[..n])
    ensures n == |s| || !IsSpace(s[n])
  {
    var r := TrimStart(s);
    assert r != [] ==> s[|s| - |r|] == r[0];
    |s| - |r|
  }

  /** The all-space prefix that ends at a non-space is unique. */
  lemma SpaceRunEnds(s: string, i: nat, n: nat)
    requires i < |s| && AllSpace(s[..i]) && !IsSpace(s[i])
    requires n <= |s| && AllSpace(s[..n]) && (n == |s| || !IsSpace(s[n]))
    ensures i == n
  {
    assert forall k :: 0 <= k < i ==> s[..i][k] == s[k];
    assert forall k :: 0 <= k < n ==> s[..n][k] == s[k];
  }

  /** No line terminator: all of `s` is matched by `.*`. */
  predicate SingleLine(s: string) {
    forall k :: 0 <= k < |s| ==> !IsLineTerminator(s[k])
  }

  /** The length of the text before the first line terminator: what `.*` matches. */
  function LineLength(s: string): (n: nat)
    ensures n <= |s|
    ensures forall k :: 0 <= k < n ==> !IsLineTerminator(s[k])
    ensures n == |s| || IsLineTerminator(s[n])
  {
    if s == [] || IsLineTerminator(s[0]) then 0 else 1 + LineLength(s[1..])
  }

  /** Replacing the first occurrence, when it is known where that is. */
  lemma ReplaceFirstAt(s: string, p: string, rep: string, i: nat)
    requires OccursAt(s, p, i) && forall k :: 0 <= k < i ==> !OccursAt(s, p, k)
    ensures ReplaceFirst(s, p, rep) == s[..i] + rep + s[i + |p|..]
  {
    var r := IndexOf(s, p, 0);
    assert r.Some?;
    assert r.value == i;
  }

  /** ASCII lower case; every other character is left alone. */
  function LowerChar(c: char): char {
    if 'A' <= c <= 'Z' then (c as int + 32) as char else c
  }

  function Lower(s: string): (r: string)
    ensures |r| == |s|
    ensures forall i :: 0 <= i < |s| ==> r[i] == LowerChar(s[i])
  {
    seq(|s|, i requires 0 <= i < |s| => LowerChar(s[i]))
  }

  /** A case-insensitive substring test, folding ASCII letters only. */
  predicate ContainsIgnoringCase(s: string, p: string) {
    Contains(Lower(s), Lower(p))
  }
}
