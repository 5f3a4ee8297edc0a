/**
 * Pagination of the browsing grid: a window of at most four figures per
 * page, and the last page the "next" button may reach.
 */
module Paging {
  import opened Figures

  const PageSize: nat := 4

  function Min(a: int, b: int): int
  {
    if a <= b then a else b
  }

  /** Swift's `/` on `Int`, which truncates toward zero (Dafny's `/` floors). */
  function TruncatingDiv(a: int, b: int): (q: int)
    requires b > 0
    ensures a >= 0 ==> 0 <= a - q * b < b
    ensures a < 0 ==> -b < a - q * b <= 0
  {
    if a >= 0 then a / b else -((-a) / b)
  }

  /**
   * `(figures.count - 1) / pageSize`: the index of the last non-empty page,
   * and 0 for an empty list because `-1 / 4` truncates to 0.
   */
  function MaxPage(count: nat): (m: nat)
    ensures count == 0 ==> m == 0
    ensures count > 0 ==> m * PageSize < count <= m * PageSize + PageSize
  {
    TruncatingDiv(count - 1, PageSize)
  }

  lemma MaxPageMonotone(m: nat, n: nat)
    requires m <= n
    ensures MaxPage(m) <= MaxPage(n)
  {
  }

  /** The first list position shown on `page`. */
  function PageStart(page: nat): nat
  {
    page * PageSize
  }

  /**
   * `figures[start..<end]` with `start = page * 4` and
   * `end = min(start + 4, figures.count)`, or `[]` when `start >= end`.
   */
  function PageWindow(figs: seq<Figure>, page: nat): (w: seq<Figure>)
    ensures |w| <= PageSize
    ensures PageStart(page) >= |figs| ==> w == []
    ensures PageStart(page) < |figs| ==> |w| == Min(PageSize, |figs| - PageStart(page))
    ensures forall i :: 0 <= i < |w| ==> w[i] == figs[PageStart(page) + i]
  {
    var start := PageStart(page);
    var end := Min(start + PageSize, |figs|);
    if start < end then figs[start..end] else []
  }

  /** Every page from the first to `MaxPage` shows at least one figure of a non-empty list. */
  lemma WindowNonEmptyUpToMaxPage(figs: seq<Figure>, page: nat)
    requires figs != [] && page <= MaxPage(|figs|)
    ensures PageWindow(figs, page) != []
  {
    assert PageStart(page) <= PageStart(MaxPage(|figs|));
  }

  /** Every page past `MaxPage` is empty. */
  lemma WindowEmptyPastMaxPage(figs: seq<Figure>, page: nat)
    requires page > MaxPage(|figs|)
    ensures PageWindow(figs, page) == []
  {
    assert PageStart(page) >= PageStart(MaxPage(|figs|) + 1);
  }

  /** The windows of pages `0 .. pages - 1`, one after the other. */
  function PagesUpTo(figs: seq<Figure>, pages: nat): seq<Figure>
  {
    if pages == 0 then [] else PagesUpTo(figs, pages - 1) + PageWindow(figs, pages - 1)
  }

  /** The first `pages` windows are exactly a prefix of the list: nothing skipped, nothing repeated. */
  lemma {:induction false} PagesUpToIsPrefix(figs: seq<Figure>, pages: nat)
    ensures PagesUpTo(figs, pages) == figs[..Min(PageStart(pages), |figs|)]
  {
    if pages > 0 {
      PagesUpToIsPrefix(figs, pages - 1);
      var lo := Min(PageStart(pages - 1), |figs|);
      var hi := Min(PageStart(pages), |figs|);
      var w := PageWindow(figs, pages - 1);
      assert w == figs[lo..hi];
      assert figs[..lo] + figs[lo..hi] == figs[..hi];
    }
  }

  /** Browsing pages `0 .. MaxPage` shows every figure once, in list order. */
  lemma ReachablePagesCoverList(figs: seq<Figure>)
    ensures PagesUpTo(figs, MaxPage(|figs|) + 1) == figs
  {
    PagesUpToIsPrefix(figs, MaxPage(|figs|) + 1);
    assert figs[..|figs|] == figs;
  }
}
