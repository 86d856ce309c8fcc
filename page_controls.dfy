/** frontend/src/components/Pagination.tsx: the "showing x to y of n" range,
    the previous and next buttons, and the page box. onPageChange is modelled
    by the page each handler emits, None when it emits nothing. */
module PageControls {
  import opened Wrappers
  import opened Text
  import opened JsNum
  import Paging

  /** The first item shown: 0 for an empty list. */
  function StartItem(currentPage: int, per: int, total: int): int {
    if total == 0 then 0 else (currentPage - 1) * per + 1
  }

  /** The last item shown: 0 for an empty list, and never past the total. */
  function EndItem(currentPage: int, per: int, total: int): int {
    if total == 0 then 0 else Paging.Min(currentPage * per, total)
  }

  /** On a page within the page count the range is 1-based, in order and
      within the list, and it counts exactly the items the page slice holds. */
  lemma ShownRange<T>(items: seq<T>, currentPage: nat, per: nat)
    requires per > 0 && 1 <= currentPage <= Paging.TotalPages(|items|, per)
    ensures 1 <= StartItem(currentPage, per, |items|) <= EndItem(currentPage, per, |items|) <= |items|
    ensures EndItem(currentPage, per, |items|) - StartItem(currentPage, per, |items|) + 1 ==
      |Paging.Page(items, currentPage, per)|
  {
    var r := Paging.TotalPages(|items|, per);
    assert (currentPage - 1) * per <= (r - 1) * per;
    assert currentPage * per == (currentPage - 1) * per + per;
  }

  /** An empty list shows the range 0 to 0. */
  lemma EmptyRange(currentPage: int, per: int)
    ensures StartItem(currentPage, per, 0) == 0 && EndItem(currentPage, per, 0) == 0
  {
  }

  /** handlePrevious: the page before, unless on the first page. */
  function Previous(currentPage: int): (r: Option<int>)
    ensures r.Some? <==> currentPage > 1
    ensures r.Some? ==> r.value == currentPage - 1 && r.value >= 1
  {
    if currentPage > 1 then Some(currentPage - 1) else None
  }

  /** handleNext: the page after, unless on the last page. */
  function Next(currentPage: int, totalPages: int): (r: Option<int>)
    ensures r.Some? <==> currentPage < totalPages
    ensures r.Some? ==> r.value == currentPage + 1 && r.value <= totalPages
  {
    if currentPage < totalPages then Some(currentPage + 1) else None
  }

  /** A page the box accepts: parseInt gives an integer in [1, totalPages]. */
  predicate Accepts(input: string, totalPages: int) {
    ParseInt(input).Some? && 1 <= ParseInt(input).value <= totalPages
  }

  /** The page box: pageInput, and the props it was last synced to. */
  class PageBox {
    var pageInput: string

    constructor(currentPage: int)
      ensures pageInput == IntToString(currentPage)
    {
      pageInput := IntToString(currentPage);
    }

    /** The effect on a currentPage change: the box shows the new page. */
    method Sync(currentPage: int)
      modifies this
      ensures pageInput == IntToString(currentPage)
    {
      pageInput := IntToString(currentPage);
    }

    method Change(value: string)
      modifies this
      ensures pageInput == value
    {
      pageInput := value;
    }

    /** handlePageInputSubmit: emit the typed page when the box accepts it,
        otherwise emit nothing and put the current page back in the box. */
    method Submit(currentPage: int, totalPages: int) returns (emitted: Option<int>)
      modifies this
      ensures Accepts(old(pageInput), totalPages) ==>
        emitted == ParseInt(old(pageInput)) && pageInput == old(pageInput)
      ensures !Accepts(old(pageInput), totalPages) ==>
        emitted.None? && pageInput == IntToString(currentPage)
      ensures emitted.Some? ==> 1 <= emitted.value <= totalPages
      ensures old(pageInput) == IntToString(currentPage) && 1 <= currentPage <= totalPages ==>
        emitted == Some(currentPage)
    {
      var page := ParseInt(pageInput);
      ParseIntOfDecimal(currentPage);
      if page.Some? && page.value >= 1 && page.value <= totalPages {
        emitted := page;
      } else {
        emitted := None;
        pageInput := IntToString(currentPage);
      }
    }

    /** handlePageInputBlur: a box the page range does not accept goes back to
        the current page; nothing is emitted either way. */
    method Blur(currentPage: int, totalPages: int)
      modifies this
      ensures Accepts(old(pageInput), totalPages) ==> pageInput == old(pageInput)
      ensures !Accepts(old(pageInput), totalPages) ==> pageInput == IntToString(currentPage)
    {
      var page := ParseInt(pageInput);
      if page.None? || page.value < 1 || page.value > totalPages {
        pageInput := IntToString(currentPage);
      }
    }
  }

  /** A box holding non-numeric text is never accepted. */
  lemma TextIsRefused(totalPages: int)
    ensures !Accepts("abc", totalPages)
  {
    assert TrimStart(IsJsSpace, "abc") == "abc";
  }
}
