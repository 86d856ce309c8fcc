/** The list and selection updates the outbox and reference-table pages share:
    the id lists behind their check boxes, and the filter, map and append they
    apply to their item lists. Items are any type with an id accessor. */
module Listing {
  import opened Wrappers
  import Paging

  /** items.map(item => item.id) */
  function Ids<T>(items: seq<T>, idOf: T -> int): (r: seq<int>)
    ensures |r| == |items|
    ensures forall i :: 0 <= i < |items| ==> r[i] == idOf(items[i])
  {
    seq(|items|, i requires 0 <= i < |items| => idOf(items[i]))
  }

  /** The per-item check box: prev.includes(id) ? prev.filter(i => i !== id)
      : [...prev, id]. */
  function Toggle(prev: seq<int>, id: int): (r: seq<int>)
    ensures id in r <==> id !in prev
    ensures forall j :: j != id ==> (j in r <==> j in prev)
    ensures id !in prev ==> r == prev + [id]
  {
    if id in prev then Paging.Keep(prev, i => i != id) else prev + [id]
  }

  /** Ticking an unticked id and unticking it again gives back the very same
      list, order included. */
  lemma ToggleTwice(prev: seq<int>, id: int)
    requires id !in prev
    ensures Toggle(Toggle(prev, id), id) == prev
  {
    var p := (i: int) => i != id;
    Paging.KeepAppend(prev, [id], p);
    Paging.KeepEvery(prev, p);
    assert Paging.Keep([id], p) == [];
  }

  /** Unticking a ticked id and ticking it again gives back the same set of
      ids; the id moves to the end. */
  lemma ToggleTwiceTicked(prev: seq<int>, id: int)
    requires id in prev
    ensures forall j :: j in Toggle(Toggle(prev, id), id) <==> j in prev
  {
  }

  /** prev.filter(item => !ids.includes(item.id)): the items whose id is not
      among ids, in their order. */
  function RemoveIds<T>(items: seq<T>, idOf: T -> int, ids: seq<int>): (r: seq<T>)
    ensures |r| <= |items|
    ensures forall i :: 0 <= i < |r| ==> r[i] in items && idOf(r[i]) !in ids
    ensures forall i :: 0 <= i < |items| && idOf(items[i]) !in ids ==> items[i] in r
  {
    Paging.Keep(items, x => idOf(x) !in ids)
  }

  /** prev.filter(item => item.id !== id) */
  function RemoveId<T>(items: seq<T>, idOf: T -> int, id: int): (r: seq<T>)
    ensures |r| <= |items|
    ensures forall i :: 0 <= i < |r| ==> r[i] in items && idOf(r[i]) != id
    ensures forall i :: 0 <= i < |items| && idOf(items[i]) != id ==> items[i] in r
  {
    Paging.Keep(items, x => idOf(x) != id)
  }

  /** Removing one id is removing the one-element id list. */
  lemma RemoveIdIsRemoveIds<T>(items: seq<T>, idOf: T -> int, id: int)
    ensures RemoveId(items, idOf, id) == RemoveIds(items, idOf, [id])
  {
    KeepSame(items, x => idOf(x) != id, x => idOf(x) !in [id]);
  }

  lemma {:induction false} KeepSame<T>(items: seq<T>, p: T -> bool, q: T -> bool)
    requires forall x :: p(x) == q(x)
    ensures Paging.Keep(items, p) == Paging.Keep(items, q)
  {
    if items != [] {
      KeepSame(items[1..], p, q);
    }
  }

  /** An item appended with the id removed is removed with it. */
  lemma RemoveIdSnoc<T>(items: seq<T>, idOf: T -> int, x: T)
    ensures RemoveId(items + [x], idOf, idOf(x)) == RemoveId(items, idOf, idOf(x))
  {
    var id := idOf(x);
    Paging.KeepAppend(items, [x], y => idOf(y) != id);
    assert Paging.Keep([x], y => idOf(y) != id) == [];
  }

  /** Removing an id no item carries leaves the list as it was. */
  lemma RemoveMissingId<T>(items: seq<T>, idOf: T -> int, id: int)
    requires forall i :: 0 <= i < |items| ==> idOf(items[i]) != id
    ensures RemoveId(items, idOf, id) == items
  {
    Paging.KeepEvery(items, x => idOf(x) != id);
  }

  /** The ids of a list with one more item end with that item's id. */
  lemma IdsSnoc<T>(items: seq<T>, idOf: T -> int, x: T)
    ensures Ids(items + [x], idOf) == Ids(items, idOf) + [idOf(x)]
  {
  }

  /** Removing ids no item carries leaves the list as it was. */
  lemma RemoveNothing<T>(items: seq<T>, idOf: T -> int, ids: seq<int>)
    requires forall i :: 0 <= i < |items| ==> idOf(items[i]) !in ids
    ensures RemoveIds(items, idOf, ids) == items
  {
    Paging.KeepEvery(items, x => idOf(x) !in ids);
  }

  /** Removing every item's id empties the list: select all, then delete. */
  lemma RemoveAllIds<T>(items: seq<T>, idOf: T -> int)
    ensures RemoveIds(items, idOf, Ids(items, idOf)) == []
  {
    var ids := Ids(items, idOf);
    forall i | 0 <= i < |items|
      ensures idOf(items[i]) in ids
    {
      assert ids[i] == idOf(items[i]);
    }
    Paging.KeepNone(items, x => idOf(x) !in ids);
  }

  /** prev.map(item => item.id === id ? x : item): same length and order, and
      only the items carrying id are replaced. */
  function ReplaceById<T>(items: seq<T>, idOf: T -> int, id: int, x: T): (r: seq<T>)
    ensures |r| == |items|
    ensures forall i :: 0 <= i < |items| ==> r[i] == if idOf(items[i]) == id then x else items[i]
  {
    seq(|items|, i requires 0 <= i < |items| => if idOf(items[i]) == id then x else items[i])
  }

  /** Replacing an id no item carries changes nothing. */
  lemma ReplaceMissing<T>(items: seq<T>, idOf: T -> int, id: int, x: T)
    requires forall i :: 0 <= i < |items| ==> idOf(items[i]) != id
    ensures ReplaceById(items, idOf, id, x) == items
  {
  }

  /** No value occurs twice. */
  predicate Distinct<T(==)>(xs: seq<T>) {
    forall i, j :: 0 <= i < j < |xs| ==> xs[i] != xs[j]
  }

  /** Filtering a list without repeats leaves one without repeats. */
  lemma {:induction false} KeepDistinct<T>(items: seq<T>, p: T -> bool)
    requires Distinct(items)
    ensures Distinct(Paging.Keep(items, p))
  {
    if items != [] {
      KeepDistinct(items[1..], p);
      var rest := Paging.Keep(items[1..], p);
      assert items[0] !in rest by {
        assert items[0] !in items[1..];
      }
    }
  }

  /** The check box keeps a selection without repeats free of repeats. */
  lemma ToggleKeepsDistinct(prev: seq<int>, id: int)
    requires Distinct(prev)
    ensures Distinct(Toggle(prev, id))
  {
    if id in prev {
      KeepDistinct(prev, i => i != id);
    }
  }

  /** A list without repeats has as many members as elements. */
  lemma {:induction false} DistinctCard<T>(xs: seq<T>)
    requires Distinct(xs)
    ensures |set x | x in xs| == |xs|
  {
    if xs != [] {
      var rest := xs[1..];
      DistinctCard(rest);
      assert (set x | x in xs) == (set x | x in rest) + {xs[0]};
      assert xs[0] !in rest;
    }
  }

  /** A subset as large as its superset is the superset. */
  lemma SubsetSameSize<T>(a: set<T>, b: set<T>)
    requires a <= b && |a| == |b|
    ensures a == b
  {
    assert b * a == a;
    assert |b - a| == 0;
    assert b - a == {};
    forall x | x in b
      ensures x in a
    {
      assert x !in b - a;
    }
  }

  /** The select-all check box of a list of count items: ticked when there
      is an item and the selection is as long as the list. */
  predicate HeaderChecked(selected: seq<int>, count: int) {
    count > 0 && |selected| == count
  }

  /** Selecting all ticks the header box exactly when there is an item;
      selecting none never does. */
  lemma SelectAllTicksHeader<T>(items: seq<T>, idOf: T -> int)
    ensures HeaderChecked(Ids(items, idOf), |items|) <==> |items| > 0
    ensures !HeaderChecked([], |items|)
  {
  }

  /** For a selection without repeats drawn from items whose ids are
      distinct, the header box is ticked exactly when every item's is. */
  lemma HeaderMeansAll<T>(selected: seq<int>, items: seq<T>, idOf: T -> int)
    requires Distinct(selected) && Distinct(Ids(items, idOf))
    requires forall i :: 0 <= i < |selected| ==> selected[i] in Ids(items, idOf)
    ensures HeaderChecked(selected, |items|) <==>
      |items| > 0 && forall i :: 0 <= i < |items| ==> idOf(items[i]) in selected
  {
    var ids := Ids(items, idOf);
    var s := set x | x in selected;
    var all := set x | x in ids;
    DistinctCard(selected);
    DistinctCard(ids);
    assert s <= all;
    if HeaderChecked(selected, |items|) {
      SubsetSameSize(s, all);
      forall i | 0 <= i < |items|
        ensures idOf(items[i]) in selected
      {
        assert ids[i] in all;
      }
    }
    if |items| > 0 && forall i :: 0 <= i < |items| ==> idOf(items[i]) in selected {
      forall x | x in all
        ensures x in s
      {
        var i :| 0 <= i < |ids| && ids[i] == x;
        assert idOf(items[i]) in selected;
      }
      assert s == all;
    }
  }

  /** The box counts ids only: a selection still holding an id no item
      carries ticks it while an item is left unselected. */
  lemma HeaderCountsOnly()
    ensures var items := [1, 2];
      HeaderChecked([1, 3], |items|) && items[1] !in [1, 3]
  {
  }

  /** The error a failed request shows: response.error || fallback. */
  function ErrorOr(error: Option<string>, fallback: string): (r: string)
    ensures error.Some? && error.value != "" ==> r == error.value
    ensures error.None? || error.value == "" ==> r == fallback
  {
    if error.Some? && error.value != "" then error.value else fallback
  }
}
