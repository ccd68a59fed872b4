/** Paging of a retrieved sequence: the skip/limit window and the page count. */
module Pagination {

  function Min(a: int, b: int): int { if a <= b then a else b }

  function Max(a: int, b: int): int { if a <= b then b else a }

  /** `page` is what a query returns after skipping `offset` records of `s`
      and keeping at most `limit`: contiguous, in the original order. */
  predicate IsWindow<T(==)>(page: seq<T>, s: seq<T>, offset: nat, limit: nat)
  {
    && |page| == Min(limit, Max(0, |s| - offset))
    && forall k :: 0 <= k < |page| ==> offset + k < |s| && page[k] == s[offset + k]
  }

  /** `pages` pages of `perPage` records hold `total` records, and one page
      fewer would not. */
  predicate IsPageCount(pages: nat, perPage: nat, total: nat)
  {
    && pages * perPage >= total
    && (pages > 0 ==> (pages - 1) * perPage < total)
  }

  function Slice<T(==)>(s: seq<T>, offset: nat, limit: nat): (page: seq<T>)
    ensures IsWindow(page, s, offset, limit)
  {
    if offset >= |s| then [] else s[offset..Min(offset + limit, |s|)]
  }

  /** The number of pages of `perPage` records that hold `total` records:
      the smallest count whose pages cover them all. */
  function TotalPages(total: nat, perPage: nat): (pages: nat)
    requires perPage >= 1
    ensures IsPageCount(pages, perPage, total)
  {
    var q := (total + perPage - 1) / perPage;
    var r := (total + perPage - 1) % perPage;
    assert total + perPage - 1 == q * perPage + r;
    assert (q - 1) * perPage == q * perPage - perPage;
    q
  }

  /** Offset of page number `page` (counted from 1): the number of records
      on the pages before it. For at least one record per page it is
      negative exactly for page numbers below 1. */
  function Offset(page: int, perPage: nat): (offset: int)
    ensures page >= 1 ==> offset >= 0
    ensures perPage >= 1 && page < 1 ==> offset < 0
  {
    (page - 1) * perPage
  }

  /** Pages 1 to `n`, one after the other. */
  function Pages<T(==)>(s: seq<T>, perPage: nat, n: nat): seq<T>
  {
    if n == 0 then [] else Pages(s, perPage, n - 1) + Slice(s, (n - 1) * perPage, perPage)
  }

  lemma {:induction false} PagesArePrefix<T>(s: seq<T>, perPage: nat, n: nat)
    ensures Pages(s, perPage, n) == s[..Min(n * perPage, |s|)]
  {
    if n > 0 {
      PagesArePrefix(s, perPage, n - 1);
      WindowExtendsPrefix(s, (n - 1) * perPage, perPage);
      NextOffset(n, perPage);
    }
  }

  /** The records before `offset`, then the window at `offset`, are the
      records before `offset + limit`. */
  lemma WindowExtendsPrefix<T>(s: seq<T>, offset: nat, limit: nat)
    ensures s[..Min(offset, |s|)] + Slice(s, offset, limit) == s[..Min(offset + limit, |s|)]
  {
    if offset < |s| {
      assert s[..Min(offset + limit, |s|)] == s[..offset] + s[offset..Min(offset + limit, |s|)];
    }
  }

  /** Page `n` ends where page `n + 1` begins. */
  lemma NextOffset(n: nat, perPage: nat)
    requires n >= 1
    ensures n * perPage == (n - 1) * perPage + perPage
  {
  }

  /** Reading pages 1 to `TotalPages` in turn yields every record exactly
      once, in order. */
  lemma PagesCoverAll<T>(s: seq<T>, perPage: nat)
    requires perPage >= 1
    ensures Pages(s, perPage, TotalPages(|s|, perPage)) == s
  {
    PagesArePrefix(s, perPage, TotalPages(|s|, perPage));
  }

  lemma MulMonotone(a: nat, b: nat, k: nat)
    requires a <= b
    ensures a * k <= b * k
  {
  }

  /** A page from 1 on holds records exactly when its number is at most
      `TotalPages`. */
  lemma PageNonEmptyIffInRange<T>(s: seq<T>, page: int, perPage: nat)
    requires page >= 1 && perPage >= 1
    ensures |Slice(s, Offset(page, perPage), perPage)| > 0 <==> page <= TotalPages(|s|, perPage)
  {
    var n := TotalPages(|s|, perPage);
    if page <= n {
      MulMonotone(page - 1, n - 1, perPage);
    } else {
      MulMonotone(n, page - 1, perPage);
    }
  }
}
