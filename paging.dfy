/**
 * Offset pagination as the transaction list uses it: page numbers start at
 * 1, page `p` of size `limit` skips `(p - 1) * limit` items, and the page
 * count is `Math.ceil(total / limit)`.
 */
module Paging {

  function Min(a: int, b: int): int {
    if a <= b then a else b
  }

  /** `Math.ceil(total / limit)`, the smallest page count whose pages hold `total` items. */
  function CeilDiv(total: nat, limit: nat): (pages: nat)
    requires limit >= 1
    ensures pages * limit >= total
    ensures pages == 0 || (pages - 1) * limit < total
    ensures pages == 0 <==> total == 0
  {
    var q := (total + limit - 1) / limit;
    var rem := (total + limit - 1) % limit;
    assert q * limit + rem == total + limit - 1;
    assert q * limit == total + limit - 1 - rem;
    assert (q - 1) * limit == q * limit - limit;
    q
  }

  /** The number of items skipped before page `page`. */
  function Skip(page: nat, limit: nat): nat
    requires page >= 1
  {
    (page - 1) * limit
  }

  /** `.skip((page - 1) * limit).limit(limit)` applied to an ordered sequence. */
  function PageOf<T>(s: seq<T>, page: nat, limit: nat): (r: seq<T>)
    requires page >= 1 && limit >= 1
    ensures |r| <= limit
    ensures Skip(page, limit) >= |s| ==> r == []
    ensures Skip(page, limit) < |s| ==>
              Skip(page, limit) + |r| <= |s| && r == s[Skip(page, limit)..Skip(page, limit) + |r|]
    ensures |r| == limit || Skip(page, limit) + |r| >= |s|
  {
    var skip := Skip(page, limit);
    if skip >= |s| then [] else s[skip..Min(skip + limit, |s|)]
  }

  /** A page past the last one is empty, and every page up to the last one is not. */
  lemma PageEmptyIffPastEnd<T>(s: seq<T>, page: nat, limit: nat)
    requires page >= 1 && limit >= 1
    ensures PageOf(s, page, limit) == [] <==> page > CeilDiv(|s|, limit)
  {
    var c := CeilDiv(|s|, limit);
    if page > c {
      MulMonotone(c, page - 1, limit);
    } else if |s| > 0 {
      MulMonotone(page - 1, c - 1, limit);
    }
  }

  lemma MulMonotone(a: nat, b: nat, limit: nat)
    requires a <= b
    ensures a * limit <= b * limit
  {
  }

  /** The items of pages `1..k` fetched one after the other, as "show more" accumulates them. */
  function Pages<T>(s: seq<T>, k: nat, limit: nat): seq<T>
    requires limit >= 1
  {
    if k == 0 then [] else Pages(s, k - 1, limit) + PageOf(s, k, limit)
  }

  /** Pages `1..k` together are exactly the first `k * limit` items: no gap and no repetition. */
  lemma {:induction false} PagesArePrefix<T>(s: seq<T>, k: nat, limit: nat)
    requires limit >= 1
    ensures Pages(s, k, limit) == s[..Min(k * limit, |s|)]
  {
    if k > 0 {
      PagesArePrefix(s, k - 1, limit);
      MulNext(k, limit);
      PrefixThenPage(s, k, limit);
    }
  }

  lemma MulNext(k: nat, limit: nat)
    requires k >= 1
    ensures k * limit == Skip(k, limit) + limit
  {
  }

  /** The items before page `k` followed by page `k` are the items up to the end of page `k`. */
  lemma PrefixThenPage<T>(s: seq<T>, k: nat, limit: nat)
    requires k >= 1 && limit >= 1
    ensures s[..Min(Skip(k, limit), |s|)] + PageOf(s, k, limit) == s[..Min(Skip(k, limit) + limit, |s|)]
  {
    var skip := Skip(k, limit);
    if skip < |s| {
      assert s[..skip] + s[skip..Min(skip + limit, |s|)] == s[..Min(skip + limit, |s|)];
    }
  }

  /** After fetching page `k`, another page exists exactly when the first `k` pages do not hold every item. */
  lemma MorePagesIffUnseen(total: nat, k: nat, limit: nat)
    requires limit >= 1
    ensures k < CeilDiv(total, limit) <==> k * limit < total
  {
    var c := CeilDiv(total, limit);
    if k < c {
      MulMonotone(k, c - 1, limit);
    } else {
      MulMonotone(c, k, limit);
    }
  }
}
