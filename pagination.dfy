/**
 * The dashboard's pager (client/src/components/common/Pagination.jsx):
 * the page count, the list of page buttons with ellipses around a window
 * of two pages on each side of the current one, page clicks and the
 * jump-to-page box.
 */
module Pagination {
  import opened Wrappers
  import Decimal

  /** Pages listed on each side of the current page. */
  const PageRange: int := 2

  /** One entry of the button row: a page number or an ellipsis. */
  datatype Entry = Page(n: int) | Ellipsis

  /** Math.ceil(totalItems / itemsPerPage) for a positive page size. */
  function PageCount(totalItems: nat, itemsPerPage: nat): (pages: nat)
    requires itemsPerPage > 0
    ensures (pages - 1) * itemsPerPage < totalItems <= pages * itemsPerPage || (totalItems == 0 && pages == 0)
  {
    (totalItems + itemsPerPage - 1) / itemsPerPage
  }

  /** The pager renders nothing unless there are at least two pages. */
  predicate Rendered(totalPages: int) {
    totalPages > 1
  }

  /** Whether page i gets a button: the first, the last, or within PageRange of the current page. */
  predicate Listed(i: int, current: int, totalPages: int) {
    i == 1 || i == totalPages || (current - PageRange <= i <= current + PageRange)
  }

  /** What the loop pushes for page i. */
  function Slot(i: int, current: int, totalPages: int): seq<Entry> {
    if Listed(i, current, totalPages) then [Page(i)]
    else if i == current - PageRange - 1 || i == current + PageRange + 1 then [Ellipsis]
    else []
  }

  /** The entries pushed for pages 1 through k. */
  function WindowTo(current: int, totalPages: int, k: nat): seq<Entry> {
    if k == 0 then [] else WindowTo(current, totalPages, k - 1) + Slot(k, current, totalPages)
  }

  /** pageNumbers: the entries for pages 1 through totalPages. */
  function Window(current: int, totalPages: int): seq<Entry> {
    WindowTo(current, totalPages, if totalPages > 0 then totalPages else 0)
  }

  /** The loop that builds pageNumbers. */
  method PageNumbers(current: int, totalPages: int) returns (pageNumbers: seq<Entry>)
    ensures pageNumbers == Window(current, totalPages)
  {
    pageNumbers := [];
    var i := 1;
    while i <= totalPages
      invariant 1 <= i <= (if totalPages > 0 then totalPages else 0) + 1
      invariant pageNumbers == WindowTo(current, totalPages, i - 1)
    {
      if i == 1 || i == totalPages || (i >= current - PageRange && i <= current + PageRange) {
        pageNumbers := pageNumbers + [Page(i)];
      } else if i == current - PageRange - 1 || i == current + PageRange + 1 {
        pageNumbers := pageNumbers + [Ellipsis];
      }
      i := i + 1;
    }
  }

  /** Pages 1..k are listed exactly when they get a button. */
  lemma {:induction false} WindowToPages(current: int, totalPages: int, k: nat, p: int)
    ensures Page(p) in WindowTo(current, totalPages, k) <==> 1 <= p <= k && Listed(p, current, totalPages)
  {
    if k > 0 {
      WindowToPages(current, totalPages, k - 1, p);
    }
  }

  /**
   * A page is listed iff it is in range and is the first, the last or within
   * two of the current page; in particular pages 1 and totalPages always are.
   */
  lemma WindowPages(current: int, totalPages: int, p: int)
    ensures Page(p) in Window(current, totalPages) <==> 1 <= p <= totalPages && Listed(p, current, totalPages)
    ensures totalPages >= 1 ==> Page(1) in Window(current, totalPages) && Page(totalPages) in Window(current, totalPages)
  {
    var k := if totalPages > 0 then totalPages else 0;
    WindowToPages(current, totalPages, k, p);
    WindowToPages(current, totalPages, k, 1);
    WindowToPages(current, totalPages, k, totalPages);
  }

  /** Every entry of the first k slots is a page number between 1 and k. */
  lemma {:induction false} WindowToBounded(current: int, totalPages: int, k: nat)
    ensures forall e :: e in WindowTo(current, totalPages, k) && e.Page? ==> 1 <= e.n <= k
  {
    if k > 0 {
      WindowToBounded(current, totalPages, k - 1);
    }
  }

  predicate PagesIncrease(s: seq<Entry>) {
    forall i, j :: 0 <= i < j < |s| && s[i].Page? && s[j].Page? ==> s[i].n < s[j].n
  }

  lemma {:induction false} WindowToIncreasing(current: int, totalPages: int, k: nat)
    ensures PagesIncrease(WindowTo(current, totalPages, k))
  {
    if k > 0 {
      var prev := WindowTo(current, totalPages, k - 1);
      WindowToIncreasing(current, totalPages, k - 1);
      WindowToBounded(current, totalPages, k - 1);
      var s := WindowTo(current, totalPages, k);
      assert s == prev + Slot(k, current, totalPages);
      forall i, j | 0 <= i < j < |s| && s[i].Page? && s[j].Page?
        ensures s[i].n < s[j].n
      {
        if j >= |prev| {
          assert s[i] in prev;
        }
      }
    }
  }

  /** The page numbers of the row strictly increase. */
  lemma WindowIncreasing(current: int, totalPages: int)
    ensures PagesIncrease(Window(current, totalPages))
  {
    WindowToIncreasing(current, totalPages, if totalPages > 0 then totalPages else 0);
  }

  function EllipsisCount(s: seq<Entry>): nat {
    if s == [] then 0 else EllipsisCount(s[..|s| - 1]) + (if s[|s| - 1].Ellipsis? then 1 else 0)
  }

  lemma {:induction false} EllipsisCountAppend(a: seq<Entry>, b: seq<Entry>)
    ensures EllipsisCount(a + b) == EllipsisCount(a) + EllipsisCount(b)
    decreases |b|
  {
    if b == [] {
      assert a + b == a;
    } else {
      assert (a + b)[..|a + b| - 1] == a + b[..|b| - 1];
      assert (a + b)[|a + b| - 1] == b[|b| - 1];
      EllipsisCountAppend(a, b[..|b| - 1]);
    }
  }

  lemma {:induction false} WindowToEllipses(current: int, totalPages: int, k: nat)
    ensures EllipsisCount(WindowTo(current, totalPages, k))
            <= (if 1 <= current - PageRange - 1 <= k then 1 else 0) + (if 1 <= current + PageRange + 1 <= k then 1 else 0)
  {
    if k > 0 {
      WindowToEllipses(current, totalPages, k - 1);
      EllipsisCountAppend(WindowTo(current, totalPages, k - 1), Slot(k, current, totalPages));
    }
  }

  /** At most two ellipses: one before the window and one after it. */
  lemma WindowEllipses(current: int, totalPages: int)
    ensures EllipsisCount(Window(current, totalPages)) <= 2
  {
    WindowToEllipses(current, totalPages, if totalPages > 0 then totalPages else 0);
  }

  /**
   * When the first k slots end in an ellipsis, it is the one before the
   * window and k is its page, or the one after the window and k is still
   * short of the last page.
   */
  lemma {:induction false} WindowToLastEllipsis(current: int, totalPages: int, k: nat)
    requires k <= totalPages
    requires WindowTo(current, totalPages, k) != []
    requires WindowTo(current, totalPages, k)[|WindowTo(current, totalPages, k)| - 1].Ellipsis?
    ensures k == current - PageRange - 1 || current + PageRange + 1 <= k < totalPages
  {
    if Slot(k, current, totalPages) == [] {
      WindowToLastEllipsis(current, totalPages, k - 1);
    }
  }

  predicate NoAdjacentEllipses(s: seq<Entry>) {
    forall i :: 0 <= i < |s| - 1 ==> !(s[i].Ellipsis? && s[i + 1].Ellipsis?)
  }

  lemma {:induction false} WindowToNoAdjacent(current: int, totalPages: int, k: nat)
    requires k <= totalPages
    ensures NoAdjacentEllipses(WindowTo(current, totalPages, k))
  {
    if k > 0 {
      var prev := WindowTo(current, totalPages, k - 1);
      WindowToNoAdjacent(current, totalPages, k - 1);
      if Slot(k, current, totalPages) == [Ellipsis] && prev != [] && prev[|prev| - 1].Ellipsis? {
        WindowToLastEllipsis(current, totalPages, k - 1);
        assert false;
      }
      assert WindowTo(current, totalPages, k) == prev + Slot(k, current, totalPages);
    }
  }

  /** No two ellipses are adjacent. */
  lemma WindowNoAdjacent(current: int, totalPages: int)
    ensures NoAdjacentEllipses(Window(current, totalPages))
  {
    if totalPages > 0 {
      WindowToNoAdjacent(current, totalPages, totalPages);
    }
  }

  /** Ten pages with the fifth current. */
  lemma WindowExample()
    ensures Window(5, 10) == [Page(1), Ellipsis, Page(3), Page(4), Page(5), Page(6), Page(7), Ellipsis, Page(10)]
  {
    assert WindowTo(5, 10, 2) == [Page(1), Ellipsis];
    assert WindowTo(5, 10, 7) == [Page(1), Ellipsis, Page(3), Page(4), Page(5), Page(6), Page(7)];
  }

  /** handlePageClick: the page to navigate to, if any. */
  function PageClick(page: int, totalPages: int): (target: Option<int>)
    ensures target.Some? <==> 1 <= page <= totalPages
    ensures target.Some? ==> target.value == page
  {
    if page >= 1 && page <= totalPages then Some(page) else None
  }

  /** Prev is disabled on page 1 and next on the last page. */
  predicate PrevDisabled(current: int) { current == 1 }
  predicate NextDisabled(current: int, totalPages: int) { current == totalPages }

  /** The jump box is shown only beyond 2 * PageRange + 2 pages. */
  predicate JumpShown(totalPages: int) { totalPages > PageRange * 2 + 2 }

  /** From an in-range page, an enabled prev or next button navigates one page over. */
  lemma PrevNextNavigate(current: int, totalPages: int)
    requires 1 <= current <= totalPages
    ensures !PrevDisabled(current) ==> PageClick(current - 1, totalPages) == Some(current - 1)
    ensures !NextDisabled(current, totalPages) ==> PageClick(current + 1, totalPages) == Some(current + 1)
  {
  }

  /** The jump box's state after handleJumpToPage: where to go and the new input text. */
  datatype JumpResult = JumpResult(target: Option<int>, input: string)

  /**
   * handleJumpToPage: parseInt of the input; an in-range page navigates and
   * clears the box, anything else changes nothing.
   */
  function JumpToPage(input: string, totalPages: int): (r: JumpResult)
    ensures r.target.Some? ==> 1 <= r.target.value <= totalPages && r.input == ""
                               && Decimal.JsParseInt(input) == Some(r.target.value)
    ensures r.target.None? ==> r.input == input
    ensures r.target.None? <==> Decimal.JsParseInt(input).None? || !(1 <= Decimal.JsParseInt(input).value <= totalPages)
  {
    var page := Decimal.JsParseInt(input);
    if page.Some? && page.value >= 1 && page.value <= totalPages then JumpResult(Some(page.value), "")
    else JumpResult(None, input)
  }

  /** Typing the numeral of an in-range page that is a safe integer jumps exactly there. */
  lemma JumpToTypedPage(p: int, totalPages: int)
    requires 1 <= p <= totalPages && Decimal.SafeInteger(p)
    ensures JumpToPage(Decimal.IntToString(p), totalPages) == JumpResult(Some(p), "")
  {
    Decimal.JsParseIntItoa(p);
  }

  /** A jump never lands outside the page range, so it agrees with a click on the same page. */
  lemma JumpAgreesWithClick(input: string, totalPages: int)
    requires Decimal.JsParseInt(input).Some?
    ensures JumpToPage(input, totalPages).target == PageClick(Decimal.JsParseInt(input).value, totalPages)
  {
  }
}
