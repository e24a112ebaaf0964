/** The page-window rule of the pagination bar: given the current page and the
    number of pages, which page numbers and "..." markers the bar lists, left to
    right (getPageNumbers in src/components/ui/Pagination.tsx). */
module PageWindow {

  /** One entry of the list: a page number or the "..." marker. */
  datatype Token = Page(n: int) | Ellipsis

  /** Up to this many pages, every page is listed. */
  const MaxListed := 7

  /** The number of entries in the list once it is windowed. */
  const WindowSize := 7

  /** The four shapes the list can take. */
  datatype Shape = AllPages | NearStart | NearEnd | Middle

  /** Which shape applies; the tests are made in this order, so the shapes
      exclude one another and together cover every input. */
  function ShapeOf(current: int, total: int): (s: Shape)
    ensures s == AllPages <==> total <= MaxListed
    ensures s == NearStart <==> total > MaxListed && current <= 3
    ensures s == NearEnd <==> total > MaxListed && 4 <= current && total - 2 <= current
    ensures s == Middle <==> total > MaxListed && 4 <= current <= total - 3
  {
    if total <= MaxListed then AllPages
    else if current <= 3 then NearStart
    else if current >= total - 2 then NearEnd
    else Middle
  }

  /** Page(lo), Page(lo + 1), ..., Page(hi); empty when hi < lo. */
  function Span(lo: int, hi: int): seq<Token>
  {
    if hi < lo then [] else seq(hi - lo + 1, k => Page(lo + k))
  }

  /** The list the bar shows, shape by shape. */
  function Window(current: int, total: int): seq<Token>
  {
    match ShapeOf(current, total)
    case AllPages => Span(1, total)
    case NearStart => Span(1, 5) + [Ellipsis, Page(total)]
    case NearEnd => [Page(1), Ellipsis] + Span(total - 4, total)
    case Middle => [Page(1), Ellipsis] + Span(current - 1, current + 1) + [Ellipsis, Page(total)]
  }

  /** Appending the next page to a span gives the span one page longer. */
  lemma SpanExtend(lo: int, hi: int)
    requires lo <= hi + 1
    ensures Span(lo, hi) + [Page(hi + 1)] == Span(lo, hi + 1)
  {
  }

  /** Appends Page(lo), ..., Page(hi) to pages, one page per step, as the
      counted for-loops of getPageNumbers do. */
  method PushRange(pages: seq<Token>, lo: int, hi: int) returns (r: seq<Token>)
    ensures r == pages + Span(lo, hi)
  {
    r := pages;
    var i := lo;
    while i <= hi
      invariant lo <= i <= if hi < lo then lo else hi + 1
      invariant r == pages + Span(lo, i - 1)
    {
      SpanExtend(lo, i - 1);
      r := r + [Page(i)];
      i := i + 1;
    }
  }

  /** getPageNumbers: grows the list by pushing pages and markers. */
  method GetPageNumbers(current: int, total: int) returns (pages: seq<Token>)
    ensures pages == Window(current, total)
  {
    pages := [];
    if total <= MaxListed {
      pages := PushRange(pages, 1, total);
    } else if current <= 3 {
      pages := PushRange(pages, 1, 5);
      pages := pages + [Ellipsis];
      pages := pages + [Page(total)];
    } else if current >= total - 2 {
      pages := pages + [Page(1)];
      pages := pages + [Ellipsis];
      pages := PushRange(pages, total - 4, total);
    } else {
      pages := pages + [Page(1)];
      pages := pages + [Ellipsis];
      pages := PushRange(pages, current - 1, current + 1);
      pages := pages + [Ellipsis];
      pages := pages + [Page(total)];
    }
  }

  /** Page numbers strictly increase from left to right (so they are distinct). */
  ghost predicate Increasing(s: seq<Token>)
  {
    forall i, j :: 0 <= i < j < |s| && s[i].Page? && s[j].Page? ==> s[i].n < s[j].n
  }

  /** Every page number lies in 1..total. */
  ghost predicate InRange(s: seq<Token>, total: int)
  {
    forall i :: 0 <= i < |s| && s[i].Page? ==> 1 <= s[i].n <= total
  }

  /** Each marker stands strictly between two page numbers and hides at least
      one page; two neighbouring page numbers hide none. */
  ghost predicate GapsMarked(s: seq<Token>)
  {
    && (forall i :: 0 <= i < |s| && s[i].Ellipsis? ==>
          0 < i < |s| - 1 && s[i - 1].Page? && s[i + 1].Page? && s[i + 1].n >= s[i - 1].n + 2)
    && (forall i :: 0 <= i < |s| - 1 && s[i].Page? && s[i + 1].Page? ==> s[i + 1].n == s[i].n + 1)
  }

  /** With at most seven pages the list is 1, 2, ..., total, whatever the
      current page, and empty when there are no pages. */
  lemma FewPagesListsAll(current: int, total: int)
    requires total <= MaxListed
    ensures |Window(current, total)| == if total < 0 then 0 else total
    ensures forall k :: 0 <= k < |Window(current, total)| ==> Window(current, total)[k] == Page(k + 1)
    ensures forall other: int :: Window(other, total) == Window(current, total)
    ensures total <= 0 ==> Window(current, total) == []
  {
  }

  /** With more than seven pages the list always has seven entries, starting
      with page 1 and ending with the last page. */
  lemma WindowedShape(current: int, total: int)
    requires total > MaxListed
    ensures |Window(current, total)| == WindowSize
    ensures Window(current, total)[0] == Page(1)
    ensures Window(current, total)[WindowSize - 1] == Page(total)
  {
  }

  /** For every current page, in range or not, the page numbers increase and
      stay within 1..total. */
  lemma WindowIncreasingInRange(current: int, total: int)
    ensures Increasing(Window(current, total))
    ensures InRange(Window(current, total), total)
  {
    var w := Window(current, total);
    match ShapeOf(current, total)
    case AllPages =>
      assert w == Span(1, total);
    case NearStart =>
      assert w == [Page(1), Page(2), Page(3), Page(4), Page(5), Ellipsis, Page(total)];
    case NearEnd =>
      assert w == [Page(1), Ellipsis, Page(total - 4), Page(total - 3), Page(total - 2), Page(total - 1), Page(total)];
    case Middle =>
      assert w == [Page(1), Ellipsis, Page(current - 1), Page(current), Page(current + 1), Ellipsis, Page(total)];
  }

  /** A run of consecutive pages has no markers and no skipped page. */
  lemma SpanGapsMarked(lo: int, hi: int)
    ensures GapsMarked(Span(lo, hi))
  {
  }

  /** Markers are never first, last or side by side, each hides at least one
      page, and no page is skipped without a marker. */
  lemma WindowGapsMarked(current: int, total: int)
    ensures GapsMarked(Window(current, total))
  {
    var w := Window(current, total);
    match ShapeOf(current, total)
    case AllPages =>
      SpanGapsMarked(1, total);
    case NearStart =>
      assert w == [Page(1), Page(2), Page(3), Page(4), Page(5), Ellipsis, Page(total)];
    case NearEnd =>
      assert w == [Page(1), Ellipsis, Page(total - 4), Page(total - 3), Page(total - 2), Page(total - 1), Page(total)];
    case Middle =>
      assert w == [Page(1), Ellipsis, Page(current - 1), Page(current), Page(current + 1), Ellipsis, Page(total)];
  }

  /** A current page in range is listed, and so are its neighbours (the pages
      Previous and Next lead to); the first and last pages are always listed. */
  lemma CurrentAndNeighboursListed(current: int, total: int)
    requires 1 <= current <= total
    ensures Page(current) in Window(current, total)
    ensures forall p :: 1 <= p <= total && current - 1 <= p <= current + 1 ==> Page(p) in Window(current, total)
    ensures Page(1) in Window(current, total) && Page(total) in Window(current, total)
  {
    var w := Window(current, total);
    forall p | 1 <= p <= total && (current - 1 <= p <= current + 1 || p == 1 || p == total)
      ensures Page(p) in w
    {
      match ShapeOf(current, total)
      case AllPages =>
        assert w[p - 1] == Page(p);
      case NearStart =>
        if p <= 5 { assert w[p - 1] == Page(p); } else { assert w[6] == Page(p); }
      case NearEnd =>
        if p == 1 { assert w[0] == Page(p); } else { assert w[p - total + 6] == Page(p); }
      case Middle =>
        if p == 1 { assert w[0] == Page(p); }
        else if p == total { assert w[6] == Page(p); }
        else { assert w[p - current + 3] == Page(p); }
    }
  }

  /** The worked examples of the three windowed shapes and of a short list. */
  lemma Examples()
    ensures Window(1, 10) == [Page(1), Page(2), Page(3), Page(4), Page(5), Ellipsis, Page(10)]
    ensures Window(5, 10) == [Page(1), Ellipsis, Page(4), Page(5), Page(6), Ellipsis, Page(10)]
    ensures Window(9, 10) == [Page(1), Ellipsis, Page(6), Page(7), Page(8), Page(9), Page(10)]
    ensures Window(3, 6) == [Page(1), Page(2), Page(3), Page(4), Page(5), Page(6)]
    ensures Window(1, 1) == [Page(1)]
  {
  }
}
