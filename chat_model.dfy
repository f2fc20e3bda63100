/**
 * A question/answer exchange and the bound on how many of them a
 * conversation keeps: both the server's chat record and the chat page keep
 * the last 30 with `slice(-30)`.
 */
module ChatModel {

  datatype ChatMessage = ChatMessage(question: string, answer: string)

  const MaxMessages: nat := 30

  /** `s.slice(-n)` for `n >= 1`: the last `n` elements, or all of `s` when it is shorter. */
  function LastN<T>(s: seq<T>, n: nat): (r: seq<T>)
    ensures |r| == if |s| <= n then |s| else n
    ensures r == s[|s| - |r|..]
  {
    if |s| <= n then s else s[|s| - n..]
  }

  /** Truncating earlier does not matter: the last `n` of a truncated log plus more is the last `n` of the whole log. */
  lemma LastNAbsorbs<T>(s: seq<T>, extra: seq<T>, n: nat)
    ensures LastN(LastN(s, n) + extra, n) == LastN(s + extra, n)
  {
    var t := LastN(s, n);
    var k := |s| - |t|;
    assert s + extra == s[..k] + (t + extra);
    assert (s + extra)[k..] == t + extra;
  }

  /**
   * Appending to a bounded history keeps at most `n` entries, ends with the
   * new entry, keeps the old entries in order and drops only the oldest:
   * below the bound nothing is dropped, at the bound exactly the oldest is.
   */
  lemma AppendBounded<T>(h: seq<T>, m: T, n: nat)
    requires 1 <= n
    ensures var r := LastN(h + [m], n);
      && |r| <= n && r[|r| - 1] == m
      && r[..|r| - 1] == LastN(h, n - 1)
    ensures |h| < n ==> LastN(h + [m], n) == h + [m]
    ensures |h| == n ==> LastN(h + [m], n) == h[1..] + [m]
  {
    var r := LastN(h + [m], n);
    assert r == (h + [m])[|h| + 1 - |r|..];
    assert r[..|r| - 1] == h[|h| + 1 - |r|..];
  }
}
