/** The pagination bar (shared/components/pagination/pagination.component.ts):
    the "Showing X to Y of Z" figures, the window of page buttons with `-1`
    standing for an ellipsis, and the guard on page-change events.

    Pages are numbered from 0; JavaScript numbers are modelled as `int`.
 */
module Pagination {
  import opened Wrappers

  /** The entry of the page window that is rendered as "...". */
  const Marker: int := -1

  /** Up to this many pages the window lists every page. */
  const FullWindow: int := 7

  function Min(a: int, b: int): int { if a <= b then a else b }
  function Max(a: int, b: int): int { if a >= b then a else b }

  /** First item number shown ("Showing X"). */
  function StartItem(currentPage: int, pageSize: int, totalElements: int): (r: int)
    ensures totalElements == 0 ==> r == 0
    ensures totalElements != 0 ==> r - 1 == currentPage * pageSize
    ensures 0 <= currentPage && 0 <= pageSize && totalElements != 0 ==> r >= 1
  {
    if totalElements == 0 then 0 else currentPage * pageSize + 1
  }

  /** Last item number shown ("to Y"): the end of the page, cut at the total. */
  function EndItem(currentPage: int, pageSize: int, totalElements: int): (r: int)
    ensures r <= totalElements
    ensures r <= (currentPage + 1) * pageSize
    ensures r == totalElements || r == (currentPage + 1) * pageSize
  {
    Min((currentPage + 1) * pageSize, totalElements)
  }

  /** For a page that exists, the figures name a non-empty range of items
      inside the collection, as long as the page (the last page possibly
      shorter); an empty collection shows "0 to 0". */
  lemma ShowingRange(currentPage: int, pageSize: int, totalElements: int)
    requires 0 <= currentPage && 0 < pageSize && 0 <= totalElements
    ensures totalElements == 0 ==>
      StartItem(currentPage, pageSize, totalElements) == 0 &&
      EndItem(currentPage, pageSize, totalElements) == 0
    ensures currentPage * pageSize < totalElements ==>
      var first := StartItem(currentPage, pageSize, totalElements);
      var last := EndItem(currentPage, pageSize, totalElements);
      1 <= first <= last <= totalElements &&
      last - first + 1 == Min(pageSize, totalElements - currentPage * pageSize)
  {
    assert (currentPage + 1) * pageSize == currentPage * pageSize + pageSize;
    assert 0 <= currentPage * pageSize;
  }

  /** The pages lo, lo+1, ..., hi-1 (empty when hi <= lo). */
  function Range(lo: int, hi: int): (r: seq<int>)
    ensures |r| == if lo <= hi then hi - lo else 0
    decreases hi - lo
  {
    if lo >= hi then [] else [lo] + Range(lo + 1, hi)
  }

  lemma {:induction false} RangeAt(lo: int, hi: int, i: int)
    requires 0 <= i < hi - lo
    ensures Range(lo, hi)[i] == lo + i
    decreases hi - lo
  {
    if i > 0 {
      RangeAt(lo + 1, hi, i - 1);
    }
  }

  lemma {:induction false} RangeSnoc(lo: int, hi: int)
    requires lo <= hi
    ensures Range(lo, hi + 1) == Range(lo, hi) + [hi]
    decreases hi - lo
  {
    if lo < hi {
      RangeSnoc(lo + 1, hi);
      assert [lo] + (Range(lo + 1, hi) + [hi]) == ([lo] + Range(lo + 1, hi)) + [hi];
    }
  }

  /** The value of `visiblePages()`: every page when there are at most seven,
      otherwise the first page, an ellipsis when current > 3, the pages next
      to the current one, an ellipsis when current < total - 4, and the last
      page. */
  function VisiblePages(total: int, current: int): (r: seq<int>)
    ensures |r| <= FullWindow
  {
    if total <= FullWindow then Range(0, total)
    else
      var start := Max(1, current - 1);
      var end := Min(total - 2, current + 1);
      [0] + (if current > 3 then [Marker] else []) + Range(start, end + 1)
      + (if current < total - 4 then [Marker] else []) + [total - 1]
  }

  /** `visiblePages` as the component computes it: `push` in `for` loops. */
  method ComputeVisiblePages(total: int, current: int) returns (pages: seq<int>)
    ensures pages == VisiblePages(total, current)
  {
    pages := [];
    if total <= FullWindow {
      var i := 0;
      while i < total
        invariant 0 <= i && (i <= total || i == 0)
        invariant pages == Range(0, i)
      {
        RangeSnoc(0, i);
        pages := pages + [i];
        i := i + 1;
      }
      assert total <= 0 ==> Range(0, total) == [];
      assert i == total || total <= 0;
    } else {
      pages := pages + [0];
      if current > 3 {
        pages := pages + [Marker];
      }
      ghost var lead: seq<int> := if current > 3 then [Marker] else [];
      assert pages == [0] + lead;
      var start := Max(1, current - 1);
      var end := Min(total - 2, current + 1);
      ghost var head := pages;
      var i := start;
      while i <= end
        invariant start <= i && (i <= end + 1 || i == start)
        invariant pages == head + Range(start, i)
      {
        RangeSnoc(start, i);
        pages := pages + [i];
        i := i + 1;
      }
      ghost var mid := Range(start, end + 1);
      assert i == end + 1 || mid == [];
      assert pages == [0] + lead + mid;
      if current < total - 4 {
        pages := pages + [Marker];
      }
      ghost var trail: seq<int> := if current < total - 4 then [Marker] else [];
      assert pages == [0] + lead + mid + trail;
      pages := pages + [total - 1];
    }
  }

  /** With at most seven pages the window is exactly 0 .. total-1. */
  lemma SmallWindow(total: int, current: int)
    requires total <= FullWindow
    ensures |VisiblePages(total, current)| == Max(total, 0)
    ensures forall i :: 0 <= i < |VisiblePages(total, current)| ==> VisiblePages(total, current)[i] == i
  {
    forall i | 0 <= i < |VisiblePages(total, current)| ensures VisiblePages(total, current)[i] == i {
      RangeAt(0, total, i);
    }
  }

  /** With more than seven pages the window starts at the first page, ends at
      the last, and never holds more than seven entries. */
  lemma LargeWindowShape(total: int, current: int)
    requires total > FullWindow
    ensures var r := VisiblePages(total, current);
      2 <= |r| <= FullWindow && r[0] == 0 && r[|r| - 1] == total - 1
  {
    var start := Max(1, current - 1);
    var end := Min(total - 2, current + 1);
    assert |Range(start, end + 1)| <= 3;
  }

  /** The entries of a window that are page numbers, in order. */
  function PageNumbers(r: seq<int>): (p: seq<int>)
    ensures forall x :: x in p <==> x in r && x != Marker
  {
    if r == [] then [] else (if r[0] == Marker then [] else [r[0]]) + PageNumbers(r[1..])
  }

  lemma {:induction false} PageNumbersAppend(a: seq<int>, b: seq<int>)
    ensures PageNumbers(a + b) == PageNumbers(a) + PageNumbers(b)
  {
    if a == [] {
      assert a + b == b;
    } else {
      assert (a + b)[1..] == a[1..] + b;
      PageNumbersAppend(a[1..], b);
    }
  }

  lemma {:induction false} PageNumbersOfRange(lo: int, hi: int)
    requires 0 <= lo
    ensures PageNumbers(Range(lo, hi)) == Range(lo, hi)
    decreases hi - lo
  {
    if lo < hi {
      assert Range(lo, hi) == [lo] + Range(lo + 1, hi);
      assert Range(lo, hi)[1..] == Range(lo + 1, hi);
      PageNumbersOfRange(lo + 1, hi);
    }
  }

  ghost predicate StrictlyIncreasing(s: seq<int>) {
    forall i, j :: 0 <= i < j < |s| ==> s[i] < s[j]
  }

  /** Without its ellipses, a window of more than seven pages is the first
      page, the run of pages around the current one, and the last page. */
  lemma LargeWindowPageNumbers(total: int, current: int)
    requires total > FullWindow
    ensures PageNumbers(VisiblePages(total, current))
         == [0] + Range(Max(1, current - 1), Min(total - 2, current + 1) + 1) + [total - 1]
  {
    var lead: seq<int> := if current > 3 then [Marker] else [];
    var trail: seq<int> := if current < total - 4 then [Marker] else [];
    var mid := Range(Max(1, current - 1), Min(total - 2, current + 1) + 1);
    var a := [0] + lead;
    var b := a + mid;
    var c := b + trail;
    assert VisiblePages(total, current) == c + [total - 1];
    PageNumbersAppend(c, [total - 1]);
    PageNumbersAppend(b, trail);
    PageNumbersAppend(a, mid);
    PageNumbersAppend([0], lead);
    PageNumbersOfRange(Max(1, current - 1), Min(total - 2, current + 1) + 1);
    assert PageNumbers(lead) == [] && PageNumbers(trail) == [];
    assert PageNumbers([total - 1]) == [total - 1];
    assert PageNumbers([0]) == [0];
  }

  /** When there are more than seven pages and the current page exists, the
      page numbers of the window rise strictly (so none repeats), all name
      existing pages, and the current page is among them. */
  lemma LargeWindowPages(total: int, current: int)
    requires total > FullWindow && 0 <= current < total
    ensures var p := PageNumbers(VisiblePages(total, current));
      StrictlyIncreasing(p) &&
      (forall i :: 0 <= i < |p| ==> 0 <= p[i] < total) &&
      current in p
  {
    var start := Max(1, current - 1);
    var end := Min(total - 2, current + 1);
    LargeWindowPageNumbers(total, current);
    BracketedRangeIncreasing(start, end + 1, total - 1);
    var p := PageNumbers(VisiblePages(total, current));
    if 0 < current < total - 1 {
      RangeAt(start, end + 1, current - start);
      assert p[1 + current - start] == current;
    } else if current == total - 1 {
      assert p[|p| - 1] == current;
    } else {
      assert p[0] == current;
    }
  }

  lemma BracketedRangeIncreasing(lo: int, hi: int, last: int)
    requires 0 < lo && hi <= last && 0 < last
    ensures var p := [0] + Range(lo, hi) + [last];
      StrictlyIncreasing(p) && forall i :: 0 <= i < |p| ==> 0 <= p[i] <= last
  {
    var mid := Range(lo, hi);
    var p := [0] + mid + [last];
    forall i | 0 <= i < |p|
      ensures p[i] == if i == 0 then 0 else if i == |p| - 1 then last else lo + i - 1
    {
      if 0 < i < |p| - 1 {
        RangeAt(lo, hi, i - 1);
      }
    }
    assert |p| == |mid| + 2 && (|mid| > 0 ==> lo + |mid| == hi);
  }

  /** The ellipsis after the first page appears exactly when current > 3, and
      the one before the last page exactly when current < total - 4. */
  lemma LargeWindowMarkers(total: int, current: int)
    requires total > FullWindow && 0 <= current < total
    ensures var r := VisiblePages(total, current);
      |r| >= 3 &&
      (r[1] == Marker <==> current > 3) &&
      (r[|r| - 2] == Marker <==> current < total - 4)
  {
    var start := Max(1, current - 1);
    var end := Min(total - 2, current + 1);
    var mid := Range(start, end + 1);
    RangeAt(start, end + 1, 0);
    RangeAt(start, end + 1, |mid| - 1);
  }

  /** A gap is not always marked: with the current page 3 of 10, page 1 is
      left out of the window without an ellipsis. */
  lemma GapNotAlwaysMarked()
    ensures VisiblePages(10, 3) == [0, 2, 3, 4, Marker, 9]
  {
    assert Range(2, 5) == [2, 3, 4];
  }

  /** `goToPage`: the page emitted on `pageChange`, if any. */
  function GoToPage(page: int, totalPages: int, currentPage: int): (emitted: Option<int>)
    ensures emitted.Some? <==> 0 <= page < totalPages && page != currentPage
    ensures emitted.Some? ==> emitted.value == page
  {
    if page >= 0 && page < totalPages && page != currentPage then Some(page) else None
  }

  /** Clicking any numbered button of the window other than the current page
      emits that page. */
  lemma WindowPagesAreClickable(total: int, current: int, p: int)
    requires 0 <= current < total
    requires p in VisiblePages(total, current) && p != Marker && p != current
    ensures GoToPage(p, total, current) == Some(p)
  {
    if total > FullWindow {
      LargeWindowPages(total, current);
      assert p in PageNumbers(VisiblePages(total, current));
    } else {
      var i :| 0 <= i < |Range(0, total)| && Range(0, total)[i] == p;
      RangeAt(0, total, i);
    }
  }
}
