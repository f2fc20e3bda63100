/**
 * The predictive-analytics page. When the forecast response has no
 * predictions but a summary, the page looks in the summary for a fenced
 * JSON block, matching `/```json([\s\S]*)```/`, and parses its trimmed
 * contents in place of the response.
 */
module AnalyticsPage {
  import opened Options
  import opened Strings

  const OpenFence := "```json"
  const CloseFence := "```"
  const FetchFailed := "Failed to fetch predictive analytics. Please try again."

  /** The last occurrence of `p` in `s` at or after `from`. */
  function LastIndexOf(s: string, p: string, from: nat): (r: Option<nat>)
    decreases |s| - from
    ensures r.Some? ==> from <= r.value && OccursAt(s, p, r.value)
    ensures r.Some? ==> forall k :: r.value < k ==> !OccursAt(s, p, k)
    ensures r.None? ==> forall k :: from <= k ==> !OccursAt(s, p, k)
  {
    if from + |p| > |s| then None
    else
      match LastIndexOf(s, p, from + 1)
      case Some(j) => Some(j)
      case None => if s[from..from + |p|] == p then Some(from) else None
  }

  /**
   * Capture group 1 of the greedy pattern: the match starts at the first
   * "```json" that has a "```" somewhere after it, and the capture runs to
   * the start of the last such "```".
   */
  function FenceCapture(s: string): Option<string> {
    match IndexOf(s, OpenFence, 0)
    case None => None
    case Some(i) =>
      match LastIndexOf(s, CloseFence, i + 7)
      case None => None
      case Some(j) => Some(s[i + 7..j])
  }

  /**
   * There is a capture exactly when some "```" starts at or after the end
   * of a "```json", and it runs from just after the first "```json" to the
   * start of the last "```".
   */
  lemma FenceCaptureSpec(s: string)
    ensures FenceCapture(s).Some? <==> exists i, j :: OccursAt(s, OpenFence, i) && i + 7 <= j && OccursAt(s, CloseFence, j)
    ensures FenceCapture(s).Some? ==> exists i, j ::
      && OccursAt(s, OpenFence, i) && (forall k :: 0 <= k < i ==> !OccursAt(s, OpenFence, k))
      && i + 7 <= j && OccursAt(s, CloseFence, j) && (forall k :: j < k ==> !OccursAt(s, CloseFence, k))
      && FenceCapture(s).value == s[i + 7..j]
  {
    match IndexOf(s, OpenFence, 0)
    case None =>
    case Some(i) =>
      match LastIndexOf(s, CloseFence, i + 7)
      case None =>
        forall i', j | OccursAt(s, OpenFence, i') && i' + 7 <= j ensures !OccursAt(s, CloseFence, j) {
          assert i <= i';
        }
      case Some(j) =>
  }

  /** A text with no fenced block yields no capture. */
  lemma NoOpenFenceNoCapture(s: string)
    requires !Contains(s, OpenFence)
    ensures FenceCapture(s) == None
  {
    assert forall i :: !OccursAt(s, OpenFence, i);
  }

  /** The capture of a single block without other backticks is exactly its contents. */
  lemma SingleBlockCapture(before: string, body: string, after: string)
    requires '`' !in before && '`' !in body && '`' !in after
    ensures FenceCapture(before + OpenFence + body + CloseFence + after) == Some(body)
  {
    var s := before + OpenFence + body + CloseFence + after;
    var i := |before|;
    BlockOpensAt(before, body, after);
    BlockClosesAt(before + OpenFence + body, after, i + 7);
    CaptureBetween(s, i, i + 7 + |body|);
    assert s[i + 7..i + 7 + |body|] == body;
  }

  /** With the first opening fence at `i` and the last closing one after it at `j`, the capture is what lies between. */
  lemma CaptureBetween(s: string, i: nat, j: nat)
    requires IndexOf(s, OpenFence, 0) == Some(i) && LastIndexOf(s, CloseFence, i + 7) == Some(j)
    ensures FenceCapture(s) == Some(s[i + 7..j])
  {
  }

  lemma BlockOpensAt(before: string, body: string, after: string)
    requires '`' !in before
    ensures IndexOf(before + OpenFence + body + CloseFence + after, OpenFence, 0) == Some(|before|)
  {
    var rest := OpenFence + body + CloseFence + after;
    var s := before + rest;
    assert s == before + OpenFence + body + CloseFence + after;
    var b := |before|;
    assert OccursAt(s, OpenFence, b) by { assert s[b..b + 7] == rest[..7] == OpenFence; }
    forall k | 0 <= k < b ensures !OccursAt(s, OpenFence, k) {
      assert s[k] == before[k];
      assert k + 7 > |s| || s[k..k + 7][0] == s[k];
    }
    FirstOccurrence(s, OpenFence, b);
  }

  lemma BlockClosesAt(pre: string, after: string, from: nat)
    requires '`' !in after && from <= |pre|
    ensures LastIndexOf(pre + CloseFence + after, CloseFence, from) == Some(|pre|)
  {
    var s := pre + CloseFence + after;
    var e := |pre|;
    assert OccursAt(s, CloseFence, e) by { assert s[e..e + 3] == CloseFence; }
    forall k | e < k ensures !OccursAt(s, CloseFence, k) {
      if k + 3 <= |s| {
        assert s[k + 2] == after[k + 2 - e - 3];
        assert s[k..k + 3][2] == s[k + 2];
      }
    }
    LastOccurrence(s, CloseFence, from, e);
  }

  lemma FirstOccurrence(s: string, p: string, i: nat)
    requires OccursAt(s, p, i) && forall k :: 0 <= k < i ==> !OccursAt(s, p, k)
    ensures IndexOf(s, p, 0) == Some(i)
  {
  }

  lemma LastOccurrence(s: string, p: string, from: nat, j: nat)
    requires from <= j && OccursAt(s, p, j) && forall k :: j < k ==> !OccursAt(s, p, k)
    ensures LastIndexOf(s, p, from) == Some(j)
  {
  }

  /**
   * The recovery step of `fetchPredictions`. `predictionsEmpty` says whether
   * `data.predictions` is missing or has no keys, `summary` reads
   * `data.summary` ("" when absent) and `parse` is `JSON.parse`.
   */
  function Recover<J>(data: J, predictionsEmpty: J -> bool, summary: J -> string, parse: string -> Option<J>): (r: J)
    ensures !predictionsEmpty(data) || summary(data) == "" ==> r == data
    ensures FenceCapture(summary(data)).None? ==> r == data
    ensures r != data ==>
      && predictionsEmpty(data) && summary(data) != ""
      && FenceCapture(summary(data)).Some?
      && parse(Trim(FenceCapture(summary(data)).value)) == Some(r)
    ensures predictionsEmpty(data) && summary(data) != "" && FenceCapture(summary(data)).Some?
            && parse(Trim(FenceCapture(summary(data)).value)).Some? ==>
      r == parse(Trim(FenceCapture(summary(data)).value)).value
  {
    if predictionsEmpty(data) && summary(data) != "" then
      match FenceCapture(summary(data))
      case None => data
      case Some(captured) =>
        match parse(Trim(captured))
        case Some(v) => v
        case None => data
    else data
  }

  /** The page state that `fetchPredictions` sets. */
  class PredictionsView<J> {
    var predictions: Option<J>
    var loading: bool
    var error: string

    constructor ()
      ensures predictions == None && !loading && error == ""
    {
      predictions := None;
      loading := false;
      error := "";
    }

    /** `response` is the request's result, `None` when it failed. */
    method FetchPredictions(response: Option<J>, predictionsEmpty: J -> bool, summary: J -> string,
                            parse: string -> Option<J>)
      modifies this
      ensures !loading
      ensures response.None? ==> predictions == old(predictions) && error == FetchFailed
      ensures response.Some? ==>
        predictions == Some(Recover(response.value, predictionsEmpty, summary, parse)) && error == ""
    {
      loading := true;
      error := "";
      if response.None? {
        error := FetchFailed;
      } else {
        var data := Recover(response.value, predictionsEmpty, summary, parse);
        predictions := Some(data);
      }
      loading := false;
    }
  }
}
