/** The page-number strip of `frontend/src/components/Pagination.jsx`: which
    page buttons are shown around the current page, when the first/last
    shortcuts and the ellipses appear, and when Previous/Next are disabled. */
module Pagination {
  import opened Common

  /** The window's first page: two before the current one, moved back near the end so that the
      window still holds five pages. */
  function StartPage(cur: int, total: int): int {
    if cur >= total - 2 then Max(1, total - 4) else Max(1, cur - 2)
  }

  /** The window's last page: two after the current one, widened near the start to five pages. */
  function EndPage(cur: int, total: int): int {
    if cur <= 3 then Min(5, total) else Min(total, cur + 2)
  }

  /** The `let startPage`/`let endPage` computation and the loop that pushes the page numbers. */
  method PageWindow(cur: int, total: int) returns (startPage: int, endPage: int, pages: seq<int>)
    ensures startPage == StartPage(cur, total) && endPage == EndPage(cur, total)
    ensures |pages| == Max(0, endPage - startPage + 1)
    ensures forall k :: 0 <= k < |pages| ==> pages[k] == startPage + k
  {
    startPage := Max(1, cur - 2);
    endPage := Min(total, cur + 2);
    if cur <= 3 {
      endPage := Min(5, total);
    }
    if cur >= total - 2 {
      startPage := Max(1, total - 4);
    }
    pages := [];
    var i := startPage;
    while i <= endPage
      invariant i == startPage + |pages|
      invariant forall k :: 0 <= k < |pages| ==> pages[k] == startPage + k
      invariant startPage <= endPage + 1 ==> i <= endPage + 1
      invariant startPage > endPage ==> pages == []
      decreases endPage + 1 - i
    {
      pages := pages + [i];
      i := i + 1;
    }
  }

  /** What the component renders when it renders anything. */
  datatype View = View(
    prevDisabled: bool,
    showFirst: bool,
    leadingDots: bool,
    pages: seq<int>,
    trailingDots: bool,
    showLast: bool,
    nextDisabled: bool)

  /** `v` is what the component draws for current page `cur` of `total`. */
  predicate Renders(v: View, cur: int, total: int) {
    var s, e := StartPage(cur, total), EndPage(cur, total);
    && v.prevDisabled == (cur == 1)
    && v.nextDisabled == (cur == total)
    && v.showFirst == (s > 1)
    && v.leadingDots == (s > 2)
    && v.showLast == (e < total)
    && v.trailingDots == (e < total - 1)
    && |v.pages| == Max(0, e - s + 1)
    && forall k :: 0 <= k < |v.pages| ==> v.pages[k] == s + k
  }

  /** The component: nothing for at most one page, else the strip. */
  method Render(cur: int, total: int) returns (view: Option<View>)
    ensures view.None? <==> total <= 1
    ensures view.Some? ==> Renders(view.value, cur, total)
  {
    var startPage, endPage, pages := PageWindow(cur, total);
    if total <= 1 {
      return None;
    }
    var showFirst := startPage > 1;
    var showLast := endPage < total;
    view := Some(View(
      cur == 1,
      showFirst,
      showFirst && startPage > 2,
      pages,
      showLast && endPage < total - 1,
      showLast,
      cur == total));
  }

  /** For a current page in range, the window lies inside `[1, total]`, holds the current page,
      and has `min(5, total)` pages. */
  lemma WindowBounds(cur: int, total: int)
    requires 1 <= cur <= total
    ensures var s, e := StartPage(cur, total), EndPage(cur, total);
      && 1 <= s <= cur <= e <= total
      && e - s + 1 == Min(5, total)
  {
  }

  /** The numbered buttons of a drawn strip, left to right: page 1 when its shortcut shows, the
      window, and the last page when its shortcut shows. */
  function Buttons(v: View, total: int): seq<int> {
    (if v.showFirst then [1] else []) + v.pages + (if v.showLast then [total] else [])
  }

  /** For a current page in range, the strip runs from page 1 to the last page in strictly
      ascending order (so no page appears twice), has at most seven numbered buttons, includes the
      current page, and skips pages exactly where an ellipsis is drawn: after page 1 when the
      leading dots show, before the last page when the trailing dots show, and nowhere else. */
  lemma StripShape(cur: int, total: int, v: View)
    requires 1 <= cur <= total && 2 <= total && Renders(v, cur, total)
    ensures var b := Buttons(v, total);
      && 0 < |b| <= 7
      && b[0] == 1 && b[|b| - 1] == total
      && (forall i, j :: 0 <= i < j < |b| ==> b[i] < b[j])
      && (exists k :: 0 <= k < |b| && b[k] == cur)
      && (forall i :: 0 <= i < |b| - 1 && b[i] + 1 < b[i + 1] ==>
            (i == 0 && v.leadingDots) || (i + 1 == |b| - 1 && v.trailingDots))
      && (v.leadingDots ==> b[0] + 1 < b[1])
      && (v.trailingDots ==> b[|b| - 2] + 1 < b[|b| - 1])
  {
    var s, e := StartPage(cur, total), EndPage(cur, total);
    WindowBounds(cur, total);
    var b := Buttons(v, total);
    var f := if v.showFirst then 1 else 0;
    var w := |v.pages|;
    assert w == e - s + 1;
    assert |b| == f + w + (if v.showLast then 1 else 0);
    assert forall i :: 0 <= i < |b| ==> b[i] == (if i < f then 1 else if i < f + w then s + i - f else total);
    assert b[f + cur - s] == cur;
  }

  /** With at least two pages and the current page in range, the window buttons ascend strictly
      and one of them is the current page (the one marked active). */
  lemma RenderedCurrent(cur: int, total: int, v: View)
    requires 1 <= cur <= total && 2 <= total && Renders(v, cur, total)
    ensures exists k :: 0 <= k < |v.pages| && v.pages[k] == cur
    ensures forall k, k' :: 0 <= k < k' < |v.pages| ==> v.pages[k] < v.pages[k']
  {
    var s := StartPage(cur, total);
    WindowBounds(cur, total);
    assert v.pages[cur - s] == cur;
  }
}
