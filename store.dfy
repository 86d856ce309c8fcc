/** The Supabase tables behind the views, as one in-memory table per store
    object: rows keyed by their integer id, an identity counter, and the
    select / insert / update / delete calls the views chain together. */
module Store {
  import opened Wrappers
  import opened PyValue
  import Text

  /** Whether the id k is among the values an `in_` filter lists: PostgREST
      sends every value as text, and PostgreSQL casts it to the integer id
      column, so both 3 and "3" (or " 03 ") name the row 3. */
  predicate Listed(k: int, ids: seq<Value>) {
    exists v :: v in ids && (v.Int? || v.Str?) && PyInt(v) == Some(k)
  }

  /** A listed id names its row whether it is sent as a number or as its
      decimal text, and an id not listed in either form names no row. */
  lemma ListedForms(k: int, ids: seq<Value>)
    ensures Int(k) in ids ==> Listed(k, ids)
    ensures Str(Text.IntToString(k)) in ids ==> Listed(k, ids)
    ensures ids == [] ==> !Listed(k, ids)
  {
    PyIntOfDecimal(k);
  }

  /** Rank of a value in a sort: booleans, numbers, text, lists, and nulls
      last, as PostgreSQL orders NULL after every value in an ascending sort. */
  function Rank(v: Value): nat {
    match v
    case Bool(_) => 0
    case Int(_) => 1
    case Str(_) => 2
    case List(_) => 3
    case Null => 4
  }

  /** Lexicographic order on strings by code point. */
  predicate StrLe(a: string, b: string) {
    a == [] || (b != [] && (a[0] < b[0] || (a[0] == b[0] && StrLe(a[1..], b[1..]))))
  }

  /** The order ORDER BY puts two column values in: a before or level with b. */
  predicate ValueLe(a: Value, b: Value) {
    Rank(a) < Rank(b) ||
    (Rank(a) == Rank(b) &&
      match a
      case Bool(x) => !x || b.b
      case Int(x) => x <= b.i
      case Str(x) => StrLe(x, b.s)
      case List(_) => true
      case Null => true)
  }

  lemma {:induction false} StrLeTotal(a: string, b: string)
    ensures StrLe(a, b) || StrLe(b, a)
  {
    if a != [] && b != [] && a[0] == b[0] {
      StrLeTotal(a[1..], b[1..]);
    }
  }

  lemma {:induction false} StrLeTrans(a: string, b: string, c: string)
    requires StrLe(a, b) && StrLe(b, c)
    ensures StrLe(a, c)
  {
    if a != [] && b != [] && c != [] && a[0] == b[0] && b[0] == c[0] {
      StrLeTrans(a[1..], b[1..], c[1..]);
    }
  }

  lemma ValueLeTotal(a: Value, b: Value)
    ensures ValueLe(a, b) || ValueLe(b, a)
  {
    if a.Str? && b.Str? {
      StrLeTotal(a.s, b.s);
    }
  }

  lemma ValueLeTrans(a: Value, b: Value, c: Value)
    requires ValueLe(a, b) && ValueLe(b, c)
    ensures ValueLe(a, c)
  {
    if a.Str? && b.Str? && c.Str? {
      StrLeTrans(a.s, b.s, c.s);
    }
  }

  /** .order(column, desc=descending) */
  datatype Order = Order(column: string, descending: bool)

  /** Row r1 may come before row r2 under the order o. */
  predicate InOrder(o: Order, r1: Dict, r2: Dict) {
    if o.descending then ValueLe(Get(r2, o.column), Get(r1, o.column))
    else ValueLe(Get(r1, o.column), Get(r2, o.column))
  }

  lemma InOrderTotal(o: Order, r1: Dict, r2: Dict)
    ensures InOrder(o, r1, r2) || InOrder(o, r2, r1)
  {
    ValueLeTotal(Get(r1, o.column), Get(r2, o.column));
  }

  lemma InOrderTrans(o: Order, r1: Dict, r2: Dict, r3: Dict)
    requires InOrder(o, r1, r2) && InOrder(o, r2, r3)
    ensures InOrder(o, r1, r3)
  {
    if o.descending {
      ValueLeTrans(Get(r3, o.column), Get(r2, o.column), Get(r1, o.column));
    } else {
      ValueLeTrans(Get(r1, o.column), Get(r2, o.column), Get(r3, o.column));
    }
  }

  predicate Sorted(o: Order, rs: seq<Dict>) {
    forall i, j :: 0 <= i < j < |rs| ==> InOrder(o, rs[i], rs[j])
  }

  /** Every row of rs may come after a. */
  predicate AllAfter(o: Order, a: Dict, rs: seq<Dict>) {
    forall i :: 0 <= i < |rs| ==> InOrder(o, a, rs[i])
  }

  lemma SortedCons(o: Order, a: Dict, rs: seq<Dict>)
    requires Sorted(o, rs) && AllAfter(o, a, rs)
    ensures Sorted(o, [a] + rs)
  {
    var r := [a] + rs;
    forall i, j | 0 <= i < j < |r| ensures InOrder(o, r[i], r[j]) {
      if i == 0 {
        assert r[j] == rs[j - 1];
      } else {
        assert r[i] == rs[i - 1] && r[j] == rs[j - 1];
      }
    }
  }

  /** A row a may precede as many rows as before after one more it may precede
      is added: AllAfter depends only on the multiset of rows. */
  lemma AllAfterSameRows(o: Order, a: Dict, rs: seq<Dict>, t: seq<Dict>)
    requires AllAfter(o, a, rs)
    requires multiset(t) <= multiset(rs)
    ensures AllAfter(o, a, t)
  {
    forall i | 0 <= i < |t| ensures InOrder(o, a, t[i]) {
      assert t[i] in multiset(t);
      assert t[i] in multiset(rs);
      var j :| 0 <= j < |rs| && rs[j] == t[i];
    }
  }

  /** x placed into the sorted rs before the first row it may precede. */
  function InsertSorted(o: Order, rs: seq<Dict>, x: Dict): (r: seq<Dict>)
    requires Sorted(o, rs)
    ensures Sorted(o, r)
    ensures multiset(r) == multiset(rs) + multiset{x}
  {
    if rs == [] then [x]
    else if InOrder(o, x, rs[0]) then
      assert AllAfter(o, x, rs) by {
        forall i | 0 <= i < |rs| ensures InOrder(o, x, rs[i]) {
          if i > 0 {
            InOrderTrans(o, x, rs[0], rs[i]);
          }
        }
      }
      SortedCons(o, x, rs);
      [x] + rs
    else
      InOrderTotal(o, x, rs[0]);
      assert rs == [rs[0]] + rs[1..];
      var tail := InsertSorted(o, rs[1..], x);
      assert AllAfter(o, rs[0], rs[1..] + [x]);
      assert multiset(tail) == multiset(rs[1..] + [x]);
      AllAfterSameRows(o, rs[0], rs[1..] + [x], tail);
      SortedCons(o, rs[0], tail);
      [rs[0]] + tail
  }

  /** An .eq(column, value) filter, or none. */
  datatype Filter = NoFilter | Eq(column: string, value: Value)

  predicate Matches(f: Filter, row: Dict) {
    f.NoFilter? || Get(row, f.column) == f.value
  }

  class Table {
    /** The stored rows by id. */
    var rows: map<int, Dict>
    /** The next value of the identity column. */
    var nextId: int
    /** Whether the store hands back the rows it writes; when it does not, the
        views take their "no data returned" branches. */
    const returnsRows: bool

    ghost predicate Valid()
      reads this
    {
      nextId >= 1 &&
      forall k :: k in rows ==> 1 <= k < nextId && "id" in rows[k] && rows[k]["id"] == Int(k)
    }

    constructor(returnsRows: bool)
      ensures Valid()
      ensures rows == map[] && nextId == 1 && this.returnsRows == returnsRows
    {
      rows := map[];
      nextId := 1;
      this.returnsRows := returnsRows;
    }

    /** The ids of the rows a filter selects. */
    function MatchingIds(f: Filter): set<int>
      reads this
    {
      set k | k in rows && Matches(f, rows[k])
    }

    /** The rows a filter selects. */
    function MatchingRows(f: Filter): set<Dict>
      reads this
    {
      set k | k in rows && Matches(f, rows[k]) :: rows[k]
    }

    /** .select('*') with an optional .eq filter and an .order: every selected
        row exactly once, in the requested order. */
    method Select(f: Filter, o: Order) returns (result: seq<Dict>)
      requires Valid()
      ensures (set r | r in result) == MatchingRows(f)
      ensures |result| == |MatchingIds(f)|
      ensures Sorted(o, result)
    {
      var all := rows;
      result := [];
      for id := 1 to nextId
        invariant (set r | r in result) == Image(all, Below(all, f, id))
        invariant |result| == |Below(all, f, id)|
        invariant Sorted(o, result)
      {
        BelowStep(all, f, id);
        if id in all && Matches(f, all[id]) {
          DistinctRow(all, Below(all, f, id), id);
          ghost var before := result;
          result := InsertSorted(o, result, all[id]);
          SetOfInsert(before, result, all[id]);
          ImageAdd(all, Below(all, f, id), id);
        }
      }
      assert Below(all, f, nextId) == MatchingIds(f);
    }

    /** The row an insert stores: the given columns, with the identity and
        creation-time columns the database fills in. The creation time is a
        logical clock that follows the identity counter. */
    static function Stamped(record: Dict, id: int): (row: Dict)
      ensures "id" in row && row["id"] == Int(id)
      ensures "created_at" in row && row["created_at"] == Int(id)
      ensures forall c :: c in record && c != "id" && c != "created_at" ==> c in row && row[c] == record[c]
    {
      record["id" := Int(id)]["created_at" := Int(id)]
    }

    /** .insert(record): one new row under the next id. */
    method Insert(record: Dict) returns (data: seq<Dict>)
      requires Valid()
      modifies this
      ensures Valid()
      ensures nextId == old(nextId) + 1
      ensures rows == old(rows)[old(nextId) := Stamped(record, old(nextId))]
      ensures data == if returnsRows then [Stamped(record, old(nextId))] else []
    {
      var row := Stamped(record, nextId);
      rows := rows[nextId := row];
      nextId := nextId + 1;
      data := if returnsRows then [row] else [];
    }

    /** .update(patch).eq('id', id): the patch's columns overwrite the row's. */
    method Update(id: int, patch: Dict) returns (data: seq<Dict>)
      requires Valid() && "id" !in patch
      modifies this
      ensures Valid() && nextId == old(nextId)
      ensures id in old(rows) ==> rows == old(rows)[id := old(rows)[id] + patch]
      ensures id !in old(rows) ==> rows == old(rows)
      ensures data == if id in old(rows) && returnsRows then [rows[id]] else []
    {
      if id in rows {
        rows := rows[id := rows[id] + patch];
        data := if returnsRows then [rows[id]] else [];
      } else {
        data := [];
      }
    }

    /** .delete().eq('id', id) */
    method Delete(id: int)
      requires Valid()
      modifies this
      ensures Valid() && nextId == old(nextId)
      ensures rows == old(rows) - {id}
    {
      rows := rows - {id};
    }

    /** .delete().in_('id', ids): every row whose id is among the listed
        values, a number or a text that reads as that number. */
    method DeleteIn(ids: seq<Value>)
      requires Valid()
      modifies this
      ensures Valid() && nextId == old(nextId)
      ensures rows == map k | k in old(rows) && !Listed(k, ids) :: old(rows)[k]
    {
      rows := map k | k in rows && !Listed(k, ids) :: rows[k];
    }
  }

  /** The keys of m below n whose rows the filter selects. */
  function Below(m: map<int, Dict>, f: Filter, n: int): set<int>
  {
    set j | j in m && j < n && Matches(f, m[j])
  }

  lemma BelowStep(m: map<int, Dict>, f: Filter, n: int)
    ensures n in m && Matches(f, m[n]) ==> Below(m, f, n + 1) == Below(m, f, n) + {n}
    ensures !(n in m && Matches(f, m[n])) ==> Below(m, f, n + 1) == Below(m, f, n)
  {
  }

  /** The rows of m under the keys in ks. */
  function Image(m: map<int, Dict>, ks: set<int>): set<Dict>
    requires ks <= m.Keys
  {
    set j | j in ks :: m[j]
  }

  lemma ImageAdd(m: map<int, Dict>, ks: set<int>, k: int)
    requires ks <= m.Keys && k in m
    ensures Image(m, ks + {k}) == Image(m, ks) + {m[k]}
  {
  }

  /** A row stored under a key outside ks is none of the rows under ks, since
      every row carries its own key in its id column. */
  lemma DistinctRow(m: map<int, Dict>, ks: set<int>, k: int)
    requires ks <= m.Keys && k in m && k !in ks
    requires forall j :: j in m ==> "id" in m[j] && m[j]["id"] == Int(j)
    ensures m[k] !in Image(m, ks)
  {
  }

  lemma SetOfInsert(before: seq<Dict>, after: seq<Dict>, x: Dict)
    requires multiset(after) == multiset(before) + multiset{x}
    requires x !in before
    ensures (set r | r in after) == (set r | r in before) + {x}
    ensures |after| == |before| + 1
  {
    assert |after| == |multiset(after)|;
    forall r ensures r in after <==> r in before || r == x {
      assert r in after <==> r in multiset(after);
      assert r in before <==> r in multiset(before);
    }
  }
}
