/** The shop's pagination bar: the list of page buttons with ellipses, and the
    Previous / Next buttons around it. */
module Pagination {
  import opened Common

  datatype PageEntry = Page(n: int) | Ellipsis

  /** At most this many page buttons between the first and the last one. */
  const MaxMiddlePages := 5

  function StartPage(currentPage: int): int {
    var s := currentPage - MaxMiddlePages / 2;
    if s < 2 then 2 else s
  }

  function EndPage(totalPages: int, currentPage: int): int {
    var e := currentPage + MaxMiddlePages / 2;
    if totalPages - 1 < e then totalPages - 1 else e
  }

  /** Buttons for the pages lo, lo + 1, ..., hi (none when hi < lo). */
  function Range(lo: int, hi: int): (r: seq<PageEntry>)
    ensures |r| == if hi < lo then 0 else hi - lo + 1
    ensures forall k :: 0 <= k < |r| ==> r[k] == Page(lo + k)
  {
    seq(if hi < lo then 0 else hi - lo + 1, k => Page(lo + k))
  }

  /** The entries `getPageNumbers` produces: page 1, a left ellipsis when the middle
      run starts after page 2, the middle run, a right ellipsis when it stops before
      the next-to-last page, and the last page. */
  function PageNumbers(totalPages: int, currentPage: int): seq<PageEntry> {
    var s := StartPage(currentPage);
    var e := EndPage(totalPages, currentPage);
    [Page(1)] + (if s > 2 then [Ellipsis] else []) + Range(s, e)
      + (if e < totalPages - 1 then [Ellipsis] else []) + [Page(totalPages)]
  }

  predicate IncreasingPages(pages: seq<PageEntry>) {
    forall i, j :: 0 <= i < j < |pages| && pages[i].Page? && pages[j].Page? ==> pages[i].n < pages[j].n
  }

  function CountPages(pages: seq<PageEntry>): nat {
    if pages == [] then 0 else (if pages[0].Page? then 1 else 0) + CountPages(pages[1..])
  }

  lemma {:induction false} CountPagesAppend(a: seq<PageEntry>, b: seq<PageEntry>)
    ensures CountPages(a + b) == CountPages(a) + CountPages(b)
  {
    if a == [] {
      assert a + b == b;
    } else {
      assert (a + b)[1..] == a[1..] + b;
      CountPagesAppend(a[1..], b);
    }
  }

  lemma {:induction false} CountRange(lo: int, hi: int)
    ensures CountPages(Range(lo, hi)) == |Range(lo, hi)|
    decreases if hi < lo then 0 else hi - lo + 1
  {
    if hi >= lo {
      assert Range(lo, hi) == [Page(lo)] + Range(lo + 1, hi);
      CountRange(lo + 1, hi);
    }
  }

  /** Where each kind of entry sits in the page list. */
  lemma Layout(totalPages: int, currentPage: int)
    requires totalPages > 1
    ensures var pages := PageNumbers(totalPages, currentPage);
            var s := StartPage(currentPage);
            var e := EndPage(totalPages, currentPage);
            var l := if s > 2 then 1 else 0;
            var m := if e < s then 0 else e - s + 1;
            var r := if e < totalPages - 1 then 1 else 0;
            && |pages| == 2 + l + m + r
            && pages[0] == Page(1)
            && (l == 1 ==> pages[1] == Ellipsis)
            && pages[1 + l .. 1 + l + m] == Range(s, e)
            && (r == 1 ==> pages[1 + l + m] == Ellipsis)
            && pages[1 + l + m + r] == Page(totalPages)
  {
    var s := StartPage(currentPage);
    var e := EndPage(totalPages, currentPage);
    var left: seq<PageEntry> := if s > 2 then [Ellipsis] else [];
    var right: seq<PageEntry> := if e < totalPages - 1 then [Ellipsis] else [];
    var mid := Range(s, e);
    var pages := PageNumbers(totalPages, currentPage);
    assert pages == ([Page(1)] + left) + mid + (right + [Page(totalPages)]);
    MiddleSlice([Page(1)] + left, mid, right + [Page(totalPages)]);
  }

  /** The entry at a position inside the middle run. */
  lemma MiddleAt(totalPages: int, currentPage: int, i: int)
    requires totalPages > 1
    requires var s := StartPage(currentPage);
             var e := EndPage(totalPages, currentPage);
             var l := if s > 2 then 1 else 0;
             1 + l <= i < 1 + l + (if e < s then 0 else e - s + 1)
    ensures var s := StartPage(currentPage);
            var l := if s > 2 then 1 else 0;
            PageNumbers(totalPages, currentPage)[i] == Page(s + (i - 1 - l))
  {
    Layout(totalPages, currentPage);
    var s := StartPage(currentPage);
    var e := EndPage(totalPages, currentPage);
    var l := if s > 2 then 1 else 0;
    var m := if e < s then 0 else e - s + 1;
    var pages := PageNumbers(totalPages, currentPage);
    assert pages[i] == pages[1 + l .. 1 + l + m][i - 1 - l];
  }

  /** For any current page (even one outside 1..totalPages, which the query string
      can ask for), the list starts at page 1 and ends at the last page, its numbers
      rise strictly and stay within 1..totalPages. */
  lemma PageNumbersIncreasing(totalPages: int, currentPage: int)
    requires totalPages > 1
    ensures var pages := PageNumbers(totalPages, currentPage);
            && |pages| >= 2
            && pages[0] == Page(1) && pages[|pages| - 1] == Page(totalPages)
            && IncreasingPages(pages)
            && (forall i :: 0 <= i < |pages| && pages[i].Page? ==> 1 <= pages[i].n <= totalPages)
  {
    var pages := PageNumbers(totalPages, currentPage);
    var s := StartPage(currentPage);
    var e := EndPage(totalPages, currentPage);
    Layout(totalPages, currentPage);
    var l := if s > 2 then 1 else 0;
    var m := if e < s then 0 else e - s + 1;
    forall i | 0 <= i < |pages| && pages[i].Page?
      ensures 1 <= pages[i].n <= totalPages
      ensures i == 0 ==> pages[i].n == 1
      ensures i == |pages| - 1 ==> pages[i].n == totalPages
      ensures 0 < i < |pages| - 1 ==> pages[i] == Page(s + (i - 1 - l)) && s <= pages[i].n <= e
    {
      if 1 + l <= i < 1 + l + m { MiddleAt(totalPages, currentPage, i); }
    }
  }

  /** For any current page, each ellipsis appears when its condition holds, and no
      two ellipses are adjacent. */
  lemma PageNumbersEllipses(totalPages: int, currentPage: int)
    requires totalPages > 1
    ensures var pages := PageNumbers(totalPages, currentPage);
            && (StartPage(currentPage) > 2 ==> pages[1] == Ellipsis)
            && (EndPage(totalPages, currentPage) < totalPages - 1 ==> pages[|pages| - 2] == Ellipsis)
            && (forall i :: 0 <= i < |pages| - 1 ==> !(pages[i] == Ellipsis && pages[i + 1] == Ellipsis))
  {
    var pages := PageNumbers(totalPages, currentPage);
    var s := StartPage(currentPage);
    var e := EndPage(totalPages, currentPage);
    Layout(totalPages, currentPage);
    var l := if s > 2 then 1 else 0;
    var m := if e < s then 0 else e - s + 1;
    var r := if e < totalPages - 1 then 1 else 0;
    // Both ellipses present means the run between them is non-empty.
    assert l == 1 && r == 1 ==> m > 0;
    forall i | 0 <= i < |pages| - 1 && pages[i] == Ellipsis ensures pages[i + 1] != Ellipsis {
      if i + 1 < 1 + l + m { MiddleAt(totalPages, currentPage, i + 1); }
    }
  }

  /** For any current page, at most five numbered buttons stand between the first
      and the last one. */
  lemma PageNumbersCount(totalPages: int, currentPage: int)
    requires totalPages > 1
    ensures CountPages(PageNumbers(totalPages, currentPage)) <= MaxMiddlePages + 2
  {
    var s := StartPage(currentPage);
    var e := EndPage(totalPages, currentPage);
    var left: seq<PageEntry> := if s > 2 then [Ellipsis] else [];
    var right: seq<PageEntry> := if e < totalPages - 1 then [Ellipsis] else [];
    var mid := Range(s, e);
    var p1 := [Page(1)] + left;
    var p2 := p1 + mid;
    var p3 := p2 + right;
    assert PageNumbers(totalPages, currentPage) == p3 + [Page(totalPages)];
    CountPagesAppend(p3, [Page(totalPages)]);
    CountPagesAppend(p2, right);
    CountPagesAppend(p1, mid);
    CountPagesAppend([Page(1)], left);
    assert CountPages(left) == 0 && CountPages(right) == 0;
    CountRange(s, e);
    assert |mid| <= MaxMiddlePages;
  }

  /** For a current page inside 1..totalPages, that page is listed. */
  lemma CurrentPageListed(totalPages: int, currentPage: int)
    requires totalPages > 1
    requires 1 <= currentPage <= totalPages
    ensures Page(currentPage) in PageNumbers(totalPages, currentPage)
  {
    var pages := PageNumbers(totalPages, currentPage);
    var s := StartPage(currentPage);
    var l := if s > 2 then 1 else 0;
    Layout(totalPages, currentPage);
    if currentPage == 1 {
      assert pages[0] == Page(currentPage);
    } else if currentPage == totalPages {
      assert pages[|pages| - 1] == Page(currentPage);
    } else {
      MiddleAt(totalPages, currentPage, 1 + l + (currentPage - s));
    }
  }

  /** For a current page inside 1..totalPages, an ellipsis stands next to page 1
      exactly when the middle run starts after page 2, and next to the last page
      exactly when it stops before the next-to-last page. (Outside the range the
      converse fails: page -5 of 10 gives "1 ... 10", page 10 of 5 gives "1 ... 5".) */
  lemma EllipsisPlacement(totalPages: int, currentPage: int)
    requires totalPages > 1
    requires 1 <= currentPage <= totalPages
    ensures var pages := PageNumbers(totalPages, currentPage);
            && (pages[1] == Ellipsis <==> StartPage(currentPage) > 2)
            && (pages[|pages| - 2] == Ellipsis <==> EndPage(totalPages, currentPage) < totalPages - 1)
  {
    var s := StartPage(currentPage);
    var e := EndPage(totalPages, currentPage);
    Layout(totalPages, currentPage);
    var l := if s > 2 then 1 else 0;
    var m := if e < s then 0 else e - s + 1;
    var r := if e < totalPages - 1 then 1 else 0;
    if m > 0 {
      MiddleAt(totalPages, currentPage, 1 + l);
      MiddleAt(totalPages, currentPage, l + m);
    }
  }

  /** For a current page inside 1..totalPages, neighbouring numbered entries are
      consecutive pages. */
  lemma NeighboursConsecutive(totalPages: int, currentPage: int)
    requires totalPages > 1
    requires 1 <= currentPage <= totalPages
    ensures var pages := PageNumbers(totalPages, currentPage);
            forall i :: 0 <= i < |pages| - 1 && pages[i].Page? && pages[i + 1].Page? ==>
              pages[i + 1].n == pages[i].n + 1
  {
    var pages := PageNumbers(totalPages, currentPage);
    var s := StartPage(currentPage);
    var e := EndPage(totalPages, currentPage);
    Layout(totalPages, currentPage);
    var l := if s > 2 then 1 else 0;
    var m := if e < s then 0 else e - s + 1;
    forall i | 0 <= i < |pages| - 1 && pages[i].Page? && pages[i + 1].Page?
      ensures pages[i + 1].n == pages[i].n + 1
    {
      if 1 + l <= i < 1 + l + m { MiddleAt(totalPages, currentPage, i); }
      if 1 + l <= i + 1 < 1 + l + m { MiddleAt(totalPages, currentPage, i + 1); }
    }
  }

  /** For a current page inside 1..totalPages, an ellipsis stands between two page
      numbers and at least one page between them is left out. */
  lemma EllipsisMarksGap(totalPages: int, currentPage: int)
    requires totalPages > 1
    requires 1 <= currentPage <= totalPages
    ensures var pages := PageNumbers(totalPages, currentPage);
            forall i :: 0 < i < |pages| - 1 && pages[i] == Ellipsis ==>
              pages[i - 1].Page? && pages[i + 1].Page? && pages[i + 1].n > pages[i - 1].n + 1
  {
    var pages := PageNumbers(totalPages, currentPage);
    var s := StartPage(currentPage);
    var e := EndPage(totalPages, currentPage);
    Layout(totalPages, currentPage);
    var l := if s > 2 then 1 else 0;
    var m := if e < s then 0 else e - s + 1;
    forall i | 0 < i < |pages| - 1 && pages[i] == Ellipsis
      ensures pages[i - 1].Page? && pages[i + 1].Page? && pages[i + 1].n > pages[i - 1].n + 1
    {
      if i == 1 && l == 1 {
        MiddleAt(totalPages, currentPage, 2);
      } else {
        MiddleAt(totalPages, currentPage, i - 1);
      }
    }
  }

  /** `getPageNumbers`, pushing onto `pages` as the component does. */
  method GetPageNumbers(totalPages: int, currentPage: int) returns (pages: seq<PageEntry>)
    requires totalPages > 1
    ensures pages == PageNumbers(totalPages, currentPage)
  {
    var startPage := StartPage(currentPage);
    var endPage := EndPage(totalPages, currentPage);
    pages := [Page(1)];
    if startPage > 2 {
      pages := pages + [Ellipsis];
    }
    ghost var head := pages;
    var i := startPage;
    while i <= endPage
      invariant startPage <= i <= if endPage < startPage then startPage else endPage + 1
      invariant pages == head + Range(startPage, i - 1)
    {
      pages := pages + [Page(i)];
      i := i + 1;
    }
    if endPage < totalPages - 1 {
      pages := pages + [Ellipsis];
    }
    pages := pages + [Page(totalPages)];
  }

  /** What the component renders: nothing for a single page; otherwise the page list,
      Previous disabled on page 1 and Next disabled on the last page. */
  datatype PaginationView = PaginationView(pages: seq<PageEntry>, prevDisabled: bool, nextDisabled: bool)

  /** The view for the given props, as the component's JSX lays it out: Previous is
      disabled exactly when the current page is the first one listed, and Next
      exactly when it is the last one listed. */
  function View(totalPages: int, currentPage: int): (r: Option<PaginationView>)
    ensures r.None? <==> totalPages <= 1
    ensures r.Some? ==> |r.value.pages| >= 2
    ensures r.Some? ==> (r.value.prevDisabled <==> r.value.pages[0] == Page(currentPage))
    ensures r.Some? ==> (r.value.nextDisabled <==> r.value.pages[|r.value.pages| - 1] == Page(currentPage))
  {
    if totalPages <= 1 then None
    else
      PageNumbersIncreasing(totalPages, currentPage);
      Some(PaginationView(PageNumbers(totalPages, currentPage), currentPage == 1, currentPage == totalPages))
  }

  method Render(totalPages: int, currentPage: int) returns (view: Option<PaginationView>)
    ensures view == View(totalPages, currentPage)
    ensures view.None? <==> totalPages <= 1
    ensures view.Some? ==> view.value.pages == PageNumbers(totalPages, currentPage)
    ensures view.Some? ==> (view.value.prevDisabled <==> currentPage == 1)
    ensures view.Some? ==> (view.value.nextDisabled <==> currentPage == totalPages)
  {
    if totalPages <= 1 {
      return None;
    }
    var pages := GetPageNumbers(totalPages, currentPage);
    view := Some(PaginationView(pages, currentPage == 1, currentPage == totalPages));
  }

  /** A page within two of the current one is listed. */
  lemma NearPageListed(totalPages: int, currentPage: int, p: int)
    requires totalPages > 1
    requires 1 <= p <= totalPages
    requires currentPage - 2 <= p <= currentPage + 2
    ensures Page(p) in PageNumbers(totalPages, currentPage)
  {
    var pages := PageNumbers(totalPages, currentPage);
    var s := StartPage(currentPage);
    var l := if s > 2 then 1 else 0;
    Layout(totalPages, currentPage);
    if p == 1 {
      assert pages[0] == Page(p);
    } else if p == totalPages {
      assert pages[|pages| - 1] == Page(p);
    } else {
      MiddleAt(totalPages, currentPage, 1 + l + (p - s));
    }
  }

  /** On a page within range, an enabled Previous button asks for a page that is in
      range. That page is listed in the bar it was clicked in. The bar it leads to
      lists it as the current page. */
  lemma PreviousTargetListed(totalPages: int, currentPage: int)
    requires 1 <= currentPage <= totalPages
    ensures var v := View(totalPages, currentPage);
            v.Some? && !v.value.prevDisabled ==>
              && 1 <= currentPage - 1 <= totalPages
              && Page(currentPage - 1) in v.value.pages
              && View(totalPages, currentPage - 1).Some?
              && Page(currentPage - 1) in View(totalPages, currentPage - 1).value.pages
  {
    if totalPages > 1 && currentPage != 1 {
      TargetListed(totalPages, currentPage, currentPage - 1);
    }
  }

  /** Likewise for an enabled Next button. */
  lemma NextTargetListed(totalPages: int, currentPage: int)
    requires 1 <= currentPage <= totalPages
    ensures var v := View(totalPages, currentPage);
            v.Some? && !v.value.nextDisabled ==>
              && 1 <= currentPage + 1 <= totalPages
              && Page(currentPage + 1) in v.value.pages
              && View(totalPages, currentPage + 1).Some?
              && Page(currentPage + 1) in View(totalPages, currentPage + 1).value.pages
  {
    if totalPages > 1 && currentPage != totalPages {
      TargetListed(totalPages, currentPage, currentPage + 1);
    }
  }

  /** A neighbouring page is listed in the current bar and is the current page of
      the bar it leads to. */
  lemma TargetListed(totalPages: int, currentPage: int, target: int)
    requires totalPages > 1
    requires 1 <= target <= totalPages
    requires target == currentPage - 1 || target == currentPage + 1
    ensures View(totalPages, currentPage).Some?
    ensures Page(target) in View(totalPages, currentPage).value.pages
    ensures View(totalPages, target).Some?
    ensures Page(target) in View(totalPages, target).value.pages
  {
    NearPageListed(totalPages, currentPage, target);
    CurrentPageListed(totalPages, target);
  }
}
