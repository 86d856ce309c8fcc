/** frontend/src/hooks/usePagination.ts: the search filter, the page count,
    the page slice, and the current-page state that the effects reset and
    clamp. */
module Paging {
  import opened Wrappers
  import opened Text

  /** items.filter(p): the items satisfying p, in their order. */
  function Keep<T>(items: seq<T>, p: T -> bool): (r: seq<T>)
    ensures |r| <= |items|
    ensures forall i :: 0 <= i < |r| ==> r[i] in items && p(r[i])
    ensures forall i :: 0 <= i < |items| && p(items[i]) ==> items[i] in r
  {
    if items == [] then []
    else (if p(items[0]) then [items[0]] else []) + Keep(items[1..], p)
  }

  /** Filtering a concatenation filters each part, keeping their order. */
  lemma {:induction false} KeepAppend<T>(a: seq<T>, b: seq<T>, p: T -> bool)
    ensures Keep(a + b, p) == Keep(a, p) + Keep(b, p)
  {
    if a == [] {
      assert a + b == b;
    } else {
      KeepAppend(a[1..], b, p);
      var head := if p(a[0]) then [a[0]] else [];
      calc {
        Keep(a + b, p);
        { assert (a + b)[0] == a[0]; assert (a + b)[1..] == a[1..] + b; }
        head + Keep(a[1..] + b, p);
        head + (Keep(a[1..], p) + Keep(b, p));
        (head + Keep(a[1..], p)) + Keep(b, p);
        Keep(a, p) + Keep(b, p);
      }
    }
  }

  /** Items all satisfying p are kept as they are. */
  lemma {:induction false} KeepEvery<T>(items: seq<T>, p: T -> bool)
    requires forall i :: 0 <= i < |items| ==> p(items[i])
    ensures Keep(items, p) == items
  {
    if items != [] {
      KeepEvery(items[1..], p);
    }
  }

  /** No item satisfying p, none is kept. */
  lemma {:induction false} KeepNone<T>(items: seq<T>, p: T -> bool)
    requires forall i :: 0 <= i < |items| ==> !p(items[i])
    ensures Keep(items, p) == []
  {
    if items != [] {
      KeepNone(items[1..], p);
    }
  }

  /** Whether an item answers a non-blank query: the page's own searchFilter
      when it gives one, otherwise the lowercased JSON text of the item must
      contain the lowercased query. */
  predicate Hits<T>(filter: Option<(T, string) -> bool>, stringify: T -> string, query: string, x: T) {
    match filter
    case Some(f) => f(x, query)
    case None => Includes(Lower(stringify(x)), Lower(query))
  }

  /** filteredItems: every item for a blank query, else the hits in order. */
  function Filtered<T>(items: seq<T>, query: string, filter: Option<(T, string) -> bool>, stringify: T -> string): (r: seq<T>)
    ensures IsBlank(query) ==> r == items
    ensures forall i :: 0 <= i < |r| ==> r[i] in items && (IsBlank(query) || Hits(filter, stringify, query, r[i]))
    ensures forall i :: 0 <= i < |items| && (IsBlank(query) || Hits(filter, stringify, query, items[i])) ==> items[i] in r
    ensures |r| <= |items|
  {
    if IsBlank(query) then items else Keep(items, x => Hits(filter, stringify, query, x))
  }

  /** The filter keeps the items' order: filtering a concatenation filters
      each part. */
  lemma FilteredAppend<T>(a: seq<T>, b: seq<T>, query: string, filter: Option<(T, string) -> bool>, stringify: T -> string)
    ensures Filtered(a + b, query, filter, stringify) == Filtered(a, query, filter, stringify) + Filtered(b, query, filter, stringify)
  {
    if !IsBlank(query) {
      KeepAppend(a, b, x => Hits(filter, stringify, query, x));
    }
  }

  /** Math.ceil(n / per): the fewest pages of per items that hold n items. */
  function TotalPages(n: nat, per: nat): (r: nat)
    requires per > 0
    ensures n <= r * per
    ensures r > 0 ==> (r - 1) * per < n
    ensures r == 0 <==> n == 0
  {
    var r := (n + per - 1) / per;
    assert r * per <= n + per - 1 < (r + 1) * per;
    r
  }

  function Min(a: int, b: int): int {
    if a <= b then a else b
  }

  /** filteredItems.slice((page - 1) * per, (page - 1) * per + per). */
  function Page<T>(items: seq<T>, page: nat, per: nat): (r: seq<T>)
    requires page >= 1 && per > 0
    ensures |r| <= per
    ensures forall i :: 0 <= i < |r| ==> (page - 1) * per + i < |items| && r[i] == items[(page - 1) * per + i]
    ensures |r| == if (page - 1) * per >= |items| then 0 else Min(per, |items| - (page - 1) * per)
  {
    var start := (page - 1) * per;
    assert start >= 0 by { NatProduct(page - 1, per); }
    var r := items[Min(start, |items|)..Min(start + per, |items|)];
    assert forall i :: 0 <= i < |r| ==> r[i] == items[start + i];
    r
  }

  lemma NatProduct(a: nat, b: nat)
    ensures a * b >= 0
  {
  }

  /** A page within the page count is never empty. */
  lemma PageInRangeNotEmpty<T>(items: seq<T>, page: nat, per: nat)
    requires per > 0 && 1 <= page <= TotalPages(|items|, per)
    ensures Page(items, page, per) != []
  {
    var r := TotalPages(|items|, per);
    assert (page - 1) * per <= (r - 1) * per;
  }

  /** Pages 1 to k, one after the other. */
  function Pages<T>(items: seq<T>, per: nat, k: nat): seq<T>
    requires per > 0
  {
    if k == 0 then [] else Pages(items, per, k - 1) + Page(items, k, per)
  }

  /** The first k pages are the first k * per items. */
  lemma {:induction false} PagesArePrefix<T>(items: seq<T>, per: nat, k: nat)
    requires per > 0
    ensures Pages(items, per, k) == items[..Min(k * per, |items|)]
  {
    if k > 0 {
      PagesArePrefix(items, per, k - 1);
      var a := Min((k - 1) * per, |items|);
      var b := Min(k * per, |items|);
      assert k * per == (k - 1) * per + per;
      assert Page(items, k, per) == items[a..b];
      assert items[..a] + items[a..b] == items[..b];
    }
  }

  /** Reading every page in turn gives back the filtered items. */
  lemma AllPages<T>(items: seq<T>, per: nat)
    requires per > 0
    ensures Pages(items, per, TotalPages(|items|, per)) == items
  {
    PagesArePrefix(items, per, TotalPages(|items|, per));
    assert items[..|items|] == items;
  }

  /** The hook's state for one list: the items and query it is given, and
      currentPage. */
  class Pager<T> {
    var items: seq<T>
    var query: string
    const per: nat
    const filter: Option<(T, string) -> bool>
    const stringify: T -> string
    var currentPage: nat

    ghost predicate Valid()
      reads this
    {
      per > 0 && currentPage >= 1
    }

    function FilteredItems(): seq<T>
      reads this
    {
      Filtered(items, query, filter, stringify)
    }

    function Total(): nat
      reads this
      requires Valid()
    {
      TotalPages(|FilteredItems()|, per)
    }

    function PaginatedItems(): (r: seq<T>)
      reads this
      requires Valid()
      ensures |r| <= per
    {
      Page(FilteredItems(), currentPage, per)
    }

    constructor(items: seq<T>, per: nat, query: string, filter: Option<(T, string) -> bool>, stringify: T -> string)
      requires per > 0
      ensures Valid()
      ensures this.items == items && this.query == query && this.per == per
      ensures this.filter == filter && this.stringify == stringify
      ensures currentPage == 1
    {
      this.items := items;
      this.query := query;
      this.per := per;
      this.filter := filter;
      this.stringify := stringify;
      currentPage := 1;
    }

    /** The search query as the caller passes it: the reset effect is keyed
        on searchQuery, so the page goes back to 1 only when the query
        differs from the one before. */
    method SetQuery(q: string)
      requires Valid()
      modifies this
      ensures Valid()
      ensures query == q && items == old(items)
      ensures currentPage == if q != old(query) then 1 else old(currentPage)
    {
      if q != query {
        currentPage := 1;
      }
      query := q;
    }

    /** The clamping effect: a page past the last one moves to the last page
        when there is one; an empty list keeps its page. */
    method Clamp()
      requires Valid()
      modifies this
      ensures Valid()
      ensures items == old(items) && query == old(query)
      ensures currentPage == if old(currentPage) > Total() && Total() > 0 then Total() else old(currentPage)
      ensures Total() > 0 ==> currentPage <= Total() && PaginatedItems() != []
    {
      if currentPage > Total() && Total() > 0 {
        currentPage := Total();
      }
      if Total() > 0 {
        PageInRangeNotEmpty(FilteredItems(), currentPage, per);
      }
    }

    /** New items, then the clamping effect. */
    method SetItems(xs: seq<T>)
      requires Valid()
      modifies this
      ensures Valid()
      ensures items == xs && query == old(query)
      ensures currentPage == if old(currentPage) > Total() && Total() > 0 then Total() else old(currentPage)
    {
      items := xs;
      Clamp();
    }

    /** The exposed setCurrentPage: only a page in [1, totalPages] is taken. */
    method HandlePageChange(page: int)
      requires Valid()
      modifies this
      ensures Valid()
      ensures items == old(items) && query == old(query)
      ensures currentPage == if 1 <= page <= Total() then page else old(currentPage)
      ensures 1 <= page <= Total() ==> PaginatedItems() != []
    {
      if page >= 1 && page <= Total() {
        currentPage := page;
        PageInRangeNotEmpty(FilteredItems(), currentPage, per);
      }
    }
  }
}
