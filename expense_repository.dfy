/** The expense table and the queries the service runs against it. The
    table is a map from id to record; a scan visits rows in ascending id
    order, which is the order a query without ORDER BY returns them in. */
module ExpenseRepository {
  import opened Results
  import opened Seqs
  import opened Dates
  import opened Categories
  import opened Expenses
  import opened LinkedMaps

  type Table = map<int, Expense>

  /** Every row is stored under its own id. */
  predicate WellKeyed(t: Table) {
    forall k :: k in t ==> t[k].id == k
  }

  predicate AscendingIds(s: seq<Expense>) {
    forall i, j :: 0 <= i < j < |s| ==> s[i].id < s[j].id
  }

  /** A sequence of records with ascending ids holds each record once. */
  lemma {:induction false} AscendingIdsOnce(s: seq<Expense>)
    requires AscendingIds(s)
    ensures forall x :: multiset(s)[x] == if x in s then 1 else 0
  {
    if s != [] {
      AscendingIdsOnce(s[1..]);
      assert s == [s[0]] + s[1..];
      assert s[0] !in s[1..];
    }
  }

  /** The rows of the table in scan order. */
  function ScanOrder(t: Table): (r: seq<Expense>)
    ensures forall e :: e in r <==> e in t.Values
    ensures WellKeyed(t) ==> AscendingIds(r)
  {
    var ks := KeysAscending(t.Keys);
    var r := seq(|ks|, i requires 0 <= i < |ks| => t[ks[i]]);
    ScanCovers(t, ks, r);
    r
  }

  /** Listing every key lists every row. */
  lemma ScanCovers(t: Table, ks: seq<int>, r: seq<Expense>)
    requires forall k :: k in ks <==> k in t
    requires |r| == |ks| && forall i :: 0 <= i < |ks| ==> ks[i] in t && r[i] == t[ks[i]]
    ensures forall e :: e in t.Values ==> e in r
  {
    forall e | e in t.Values ensures e in r {
      if forall k :: k in t ==> t[k] != e { assert false; }
      var k :| k in t && t[k] == e;
      var i :| 0 <= i < |ks| && ks[i] == k;
      assert r[i] == e;
    }
  }

  /** The rows satisfying `p`, in scan order, each exactly once. */
  function Matching(t: Table, p: Expense -> bool): (r: seq<Expense>)
    ensures forall e :: e in r <==> e in t.Values && p(e)
    ensures WellKeyed(t) ==> AscendingIds(r)
    ensures WellKeyed(t) ==> forall e :: multiset(r)[e] == if e in t.Values && p(e) then 1 else 0
  {
    var s := ScanOrder(t);
    var r := Filter(s, p);
    if WellKeyed(t) then
      FilterKeepsAscendingIds(s, p);
      AscendingIdsOnce(r);
      r
    else
      r
  }

  lemma {:induction false} FilterKeepsAscendingIds(s: seq<Expense>, p: Expense -> bool)
    requires AscendingIds(s)
    ensures AscendingIds(Filter(s, p))
  {
    if s != [] {
      FilterKeepsAscendingIds(s[1..], p);
      var rest := Filter(s[1..], p);
      if p(s[0]) {
        forall j | 0 <= j < |rest| ensures s[0].id < rest[j].id {
          HeadIdBelow(s, rest[j]);
        }
        ConsAscending(s[0], rest);
      }
    }
  }

  /** The head of an ascending sequence has a smaller id than any later row. */
  lemma HeadIdBelow(s: seq<Expense>, x: Expense)
    requires AscendingIds(s) && s != [] && x in s[1..]
    ensures s[0].id < x.id
  {
    var k :| 0 <= k < |s[1..]| && s[1..][k] == x;
    assert s[k + 1] == x;
  }

  lemma ConsAscending(x: Expense, rest: seq<Expense>)
    requires AscendingIds(rest)
    requires forall j :: 0 <= j < |rest| ==> x.id < rest[j].id
    ensures AscendingIds([x] + rest)
  {
    var r := [x] + rest;
    forall i, j | 0 <= i < j < |r| ensures r[i].id < r[j].id {
      assert r[j] == rest[j - 1];
      if i > 0 { assert r[i] == rest[i - 1]; }
    }
  }

  // ---- sorting by date, newest first ----

  predicate SortedByDateDesc(s: seq<Expense>) {
    forall i, j :: 0 <= i < j < |s| ==> NotAfter(s[j].expenseDate, s[i].expenseDate)
  }

  function InsertByDateDesc(x: Expense, s: seq<Expense>): (r: seq<Expense>)
    requires SortedByDateDesc(s)
    ensures SortedByDateDesc(r)
    ensures multiset(r) == multiset(s) + multiset{x}
  {
    if s == [] || NotAfter(s[0].expenseDate, x.expenseDate) then
      InsertFirstSorted(x, s);
      [x] + s
    else
      var rest := InsertByDateDesc(x, s[1..]);
      assert s == [s[0]] + s[1..];
      forall j | 0 <= j < |rest| ensures NotAfter(rest[j].expenseDate, s[0].expenseDate) {
        assert rest[j] in multiset(rest);
        if rest[j] != x {
          assert rest[j] in s[1..];
        }
      }
      [s[0]] + rest
  }

  lemma InsertFirstSorted(x: Expense, s: seq<Expense>)
    requires SortedByDateDesc(s)
    requires s == [] || NotAfter(s[0].expenseDate, x.expenseDate)
    ensures SortedByDateDesc([x] + s)
  {
    var r := [x] + s;
    forall i, j | 0 <= i < j < |r| ensures NotAfter(r[j].expenseDate, r[i].expenseDate) {
      if i > 0 {
        assert r[i] == s[i - 1] && r[j] == s[j - 1];
      } else if j > 1 {
        assert NotAfter(s[j - 1].expenseDate, s[0].expenseDate);
      }
    }
  }

  /** ORDER BY expenseDate DESC; the order of rows on the same date is not
      specified by the query, and the model keeps their scan order. */
  function SortByDateDesc(s: seq<Expense>): (r: seq<Expense>)
    ensures SortedByDateDesc(r)
    ensures multiset(r) == multiset(s)
    ensures |r| == |s|
  {
    if s == [] then []
    else
      assert s == [s[0]] + s[1..];
      InsertByDateDesc(s[0], SortByDateDesc(s[1..]))
  }

  // ---- the derived and declared queries ----

  /** `findByUserIdOrderByExpenseDateDesc`. */
  function FindByUserIdOrderByExpenseDateDesc(t: Table, userId: int): (r: seq<Expense>)
    ensures forall e :: e in r <==> e in t.Values && e.userId == userId
    ensures WellKeyed(t) ==> forall e :: multiset(r)[e] == if e in t.Values && e.userId == userId then 1 else 0
    ensures SortedByDateDesc(r)
  {
    var rows := Matching(t, (e: Expense) => e.userId == userId);
    var r := SortByDateDesc(rows);
    assert forall e :: e in r <==> e in multiset(rows);
    r
  }

  /** `findByUserIdAndCategory`. */
  function FindByUserIdAndCategory(t: Table, userId: int, category: Category): (r: seq<Expense>)
    ensures forall e :: e in r <==> e in t.Values && e.userId == userId && e.category == category
    ensures WellKeyed(t) ==> AscendingIds(r)
  {
    Matching(t, (e: Expense) => e.userId == userId && e.category == category)
  }

  /** `findByUserIdAndExpenseDateBetween`: BETWEEN includes both ends. */
  function FindByUserIdAndExpenseDateBetween(t: Table, userId: int, startDate: LocalDate, endDate: LocalDate): (r: seq<Expense>)
    ensures forall e :: e in r <==>
      e in t.Values && e.userId == userId && NotAfter(startDate, e.expenseDate) && NotAfter(e.expenseDate, endDate)
    ensures WellKeyed(t) ==> AscendingIds(r)
  {
    Matching(t, (e: Expense) => e.userId == userId && NotAfter(startDate, e.expenseDate) && NotAfter(e.expenseDate, endDate))
  }

  /** Both ends of the range are included. */
  lemma DateRangeIsInclusive(t: Table, userId: int, e: Expense, startDate: LocalDate, endDate: LocalDate)
    requires e in t.Values && e.userId == userId && NotAfter(startDate, endDate)
    requires e.expenseDate == startDate || e.expenseDate == endDate
    ensures e in FindByUserIdAndExpenseDateBetween(t, userId, startDate, endDate)
  {
  }

  predicate InMonth(e: Expense, year: int, month: int) {
    e.expenseDate.year == year && e.expenseDate.month == month
  }

  /** The rows every month query ranges over, in scan order. */
  function MonthRows(t: Table, userId: int, year: int, month: int): (r: seq<Expense>)
    ensures forall e :: e in r <==> e in t.Values && e.userId == userId && InMonth(e, year, month)
    ensures WellKeyed(t) ==> forall e :: multiset(r)[e] == if e in t.Values && e.userId == userId && InMonth(e, year, month) then 1 else 0
  {
    Matching(t, (e: Expense) => e.userId == userId && InMonth(e, year, month))
  }

  /** `findByUserIdAndMonth`: the month's rows, newest first. */
  function FindByUserIdAndMonth(t: Table, userId: int, year: int, month: int): (r: seq<Expense>)
    ensures forall e :: e in r <==> e in t.Values && e.userId == userId && InMonth(e, year, month)
    ensures WellKeyed(t) ==> forall e :: multiset(r)[e] == if e in t.Values && e.userId == userId && InMonth(e, year, month) then 1 else 0
    ensures SortedByDateDesc(r)
    ensures |r| == |MonthRows(t, userId, year, month)|
  {
    var rows := MonthRows(t, userId, year, month);
    var r := SortByDateDesc(rows);
    SameMembers(r, rows);
    r
  }

  function SumAmounts(rows: seq<Expense>): real {
    if rows == [] then 0.0 else rows[0].amount + SumAmounts(rows[1..])
  }

  /** `getTotalExpensesByMonth`: SUM over no rows is NULL. */
  function GetTotalExpensesByMonth(t: Table, userId: int, year: int, month: int): (r: Option<real>)
    ensures r.None? <==> forall e :: e in t.Values && e.userId == userId ==> !InMonth(e, year, month)
    ensures r.Some? ==> r.value == SumAmounts(MonthRows(t, userId, year, month))
  {
    var rows := MonthRows(t, userId, year, month);
    if rows == [] then None
    else
      assert rows[0] in rows;
      Some(SumAmounts(rows))
  }

  // ---- grouping ----

  /** SUM(amount) over the rows whose key is `k`. */
  function SumWhere<K(==)>(rows: seq<Expense>, key: Expense -> K, k: K): real {
    if rows == [] then 0.0
    else (if key(rows[0]) == k then rows[0].amount else 0.0) + SumWhere(rows[1..], key, k)
  }

  /** One (key, sum) row per key in `ks`, in the order of `ks`. */
  function GroupSums<K(==)>(rows: seq<Expense>, key: Expense -> K, ks: seq<K>): seq<(K, real)> {
    seq(|ks|, i requires 0 <= i < |ks| => (ks[i], SumWhere(rows, key, ks[i])))
  }

  /** The summed column of a grouping result, added up. */
  function TotalOf<K>(g: seq<(K, real)>): real {
    if g == [] then 0.0 else g[0].1 + TotalOf(g[1..])
  }

  /** The keys that occur in `rows`, each once, in order of first occurrence. */
  function DistinctKeys<K(==,!new)>(rows: seq<Expense>, key: Expense -> K): (r: seq<K>)
    ensures Distinct(r)
    ensures |r| <= |rows|
    ensures forall k :: k in r <==> exists e :: e in rows && key(e) == k
    ensures forall i :: 0 <= i < |rows| ==> key(rows[i]) in r
  {
    if rows == [] then []
    else
      var init := rows[..|rows| - 1];
      var last := rows[|rows| - 1];
      var p := DistinctKeys(init, key);
      assert rows == init + [last];
      if key(last) in p then p else p + [key(last)]
  }

  /** The days of the month, 1 to 31 from `from` on, on which some row falls. */
  function PresentDays(rows: seq<Expense>, from: int): (r: seq<int>)
    requires 1 <= from
    ensures forall i, j :: 0 <= i < j < |r| ==> r[i] < r[j]
    ensures forall d :: d in r <==> from <= d <= 31 && exists e :: e in rows && DayOf(e) == d
    decreases 32 - from
  {
    if from > 31 then []
    else
      var rest := PresentDays(rows, from + 1);
      assert forall j :: 0 <= j < |rest| ==> from < rest[j] by {
        forall j | 0 <= j < |rest| ensures from < rest[j] { assert rest[j] in rest; }
      }
      if exists e :: e in rows && DayOf(e) == from then [from] + rest else rest
  }

  /** `getExpensesByCategory`: one row per category present in the month. */
  function GetExpensesByCategory(t: Table, userId: int, year: int, month: int): (r: seq<(Category, real)>)
    ensures Distinct(KeysOf(r))
    ensures forall c :: c in KeysOf(r) <==>
      exists e :: e in t.Values && e.userId == userId && InMonth(e, year, month) && e.category == c
    ensures forall i :: 0 <= i < |r| ==> r[i].1 == SumWhere(MonthRows(t, userId, year, month), CategoryOf, r[i].0)
    ensures TotalOf(r) == SumAmounts(MonthRows(t, userId, year, month))
  {
    var rows := MonthRows(t, userId, year, month);
    MonthCategories(t, userId, year, month, DistinctKeys(rows, CategoryOf));
    GroupByCategory(rows)
  }

  /** Grouping `rows` by category: one row per distinct category, in order of
      first occurrence, with its sum. */
  function GroupByCategory(rows: seq<Expense>): (r: seq<(Category, real)>)
    ensures KeysOf(r) == DistinctKeys(rows, CategoryOf)
    ensures forall i :: 0 <= i < |r| ==> r[i].1 == SumWhere(rows, CategoryOf, r[i].0)
    ensures TotalOf(r) == SumAmounts(rows)
  {
    var ks := DistinctKeys(rows, CategoryOf);
    CategoryColumn(rows, ks);
    GroupSumsTotal(rows, CategoryOf, ks);
    GroupSums(rows, CategoryOf, ks)
  }

  lemma CategoryColumn(rows: seq<Expense>, ks: seq<Category>)
    ensures KeysOf(GroupSums(rows, CategoryOf, ks)) == ks
  {
  }

  lemma MonthCategories(t: Table, userId: int, year: int, month: int, ks: seq<Category>)
    requires ks == DistinctKeys(MonthRows(t, userId, year, month), CategoryOf)
    ensures forall c :: c in ks <==>
      exists e :: e in t.Values && e.userId == userId && InMonth(e, year, month) && e.category == c
  {
  }

  /** `getDailyExpenses`: one row per day that has expenses, ascending. */
  function GetDailyExpenses(t: Table, userId: int, year: int, month: int): (r: seq<(int, real)>)
    ensures forall i, j :: 0 <= i < j < |r| ==> r[i].0 < r[j].0
    ensures forall d :: d in KeysOf(r) <==>
      exists e :: e in t.Values && e.userId == userId && InMonth(e, year, month) && e.expenseDate.day == d
    ensures forall i :: 0 <= i < |r| ==> r[i].1 == SumWhere(MonthRows(t, userId, year, month), DayOf, r[i].0)
    ensures TotalOf(r) == SumAmounts(MonthRows(t, userId, year, month))
  {
    var rows := MonthRows(t, userId, year, month);
    var ks := PresentDays(rows, 1);
    var r := GroupSums(rows, DayOf, ks);
    assert KeysOf(r) == ks;
    forall e | e in rows ensures DayOf(e) in ks {
      DayOfMonthRange(e.expenseDate);
    }
    forall i | 0 <= i < |rows| ensures DayOf(rows[i]) in ks {
      assert rows[i] in rows;
    }
    GroupSumsTotal(rows, DayOf, ks);
    r
  }

  // ---- the grouped sums add up to the total ----

  /** The sum, over the keys `ks`, of each key's SumWhere. */
  function SumOverKeys<K(==)>(rows: seq<Expense>, key: Expense -> K, ks: seq<K>): real {
    if ks == [] then 0.0 else SumWhere(rows, key, ks[0]) + SumOverKeys(rows, key, ks[1..])
  }

  lemma {:induction false} TotalOfGroupSums<K>(rows: seq<Expense>, key: Expense -> K, ks: seq<K>)
    ensures TotalOf(GroupSums(rows, key, ks)) == SumOverKeys(rows, key, ks)
  {
    if ks != [] {
      TotalOfGroupSums(rows, key, ks[1..]);
      assert GroupSums(rows, key, ks)[1..] == GroupSums(rows, key, ks[1..]);
    }
  }

  lemma SumWhereSingle<K>(e: Expense, key: Expense -> K, k: K)
    ensures SumWhere([e], key, k) == if key(e) == k then e.amount else 0.0
  {
    assert [e][1..] == [];
  }

  /** One row contributes its amount to the sum of its own key only. */
  lemma {:induction false} SumOverKeysSingle<K>(e: Expense, key: Expense -> K, ks: seq<K>)
    requires Distinct(ks)
    ensures SumOverKeys([e], key, ks) == if key(e) in ks then e.amount else 0.0
  {
    if ks != [] {
      assert Distinct(ks[1..]);
      SumOverKeysSingle(e, key, ks[1..]);
      SumWhereSingle(e, key, ks[0]);
      assert key(e) == ks[0] ==> key(e) !in ks[1..];
      assert key(e) in ks <==> key(e) == ks[0] || key(e) in ks[1..];
    }
  }

  /** SumOverKeys splits over the first row. */
  lemma {:induction false} SumOverKeysCons<K>(rows: seq<Expense>, key: Expense -> K, ks: seq<K>)
    requires rows != []
    ensures SumOverKeys(rows, key, ks) == SumOverKeys([rows[0]], key, ks) + SumOverKeys(rows[1..], key, ks)
  {
    if ks != [] {
      SumOverKeysCons(rows, key, ks[1..]);
      SumWhereSingle(rows[0], key, ks[0]);
    }
  }

  lemma {:induction false} SumOverKeysEmpty<K>(key: Expense -> K, ks: seq<K>)
    ensures SumOverKeys([], key, ks) == 0.0
  {
    if ks != [] {
      SumOverKeysEmpty(key, ks[1..]);
    }
  }

  /** Grouping by a key loses no amount: when `ks` lists every key that
      occurs, each once, the group sums add up to the sum of all rows. */
  lemma {:induction false} GroupSumsTotal<K>(rows: seq<Expense>, key: Expense -> K, ks: seq<K>)
    requires Distinct(ks)
    requires forall i :: 0 <= i < |rows| ==> key(rows[i]) in ks
    ensures TotalOf(GroupSums(rows, key, ks)) == SumAmounts(rows)
  {
    TotalOfGroupSums(rows, key, ks);
    SumOverKeysPartition(rows, key, ks);
  }

  lemma {:induction false} SumOverKeysPartition<K>(rows: seq<Expense>, key: Expense -> K, ks: seq<K>)
    requires Distinct(ks)
    requires forall i :: 0 <= i < |rows| ==> key(rows[i]) in ks
    ensures SumOverKeys(rows, key, ks) == SumAmounts(rows)
    decreases |rows|
  {
    if rows == [] {
      SumOverKeysEmpty(key, ks);
    } else {
      SumOverKeysCons(rows, key, ks);
      SumOverKeysSingle(rows[0], key, ks);
      SumOverKeysPartition(rows[1..], key, ks);
    }
  }

  // ---- the table as the repository object ----

  /** The JPA repository's own state: the table and the id generator. */
  class ExpenseStore {
    var table: Table
    var nextId: int

    ghost predicate Valid()
      reads this
    {
      WellKeyed(table) && 1 <= nextId && forall k :: k in table ==> k < nextId
    }

    constructor ()
      ensures Valid() && table == map[] && nextId == 1
    {
      table := map[];
      nextId := 1;
    }

    /** `findById`. */
    function FindById(id: int): (r: Option<Expense>)
      reads this
      ensures r.Some? <==> id in table
      ensures r.Some? ==> r.value == table[id]
      ensures Valid() && r.Some? ==> r.value.id == id
    {
      if id in table then Some(table[id]) else None
    }

    /** `save` of a new entity: the generated id is one no row has. */
    method SaveNew(e: Expense) returns (saved: Expense)
      requires Valid()
      modifies this
      ensures Valid()
      ensures saved == e.(id := old(nextId))
      ensures saved.id !in old(table)
      ensures table == old(table)[saved.id := saved]
    {
      saved := e.(id := nextId);
      table := table[nextId := saved];
      nextId := nextId + 1;
    }

    /** `save` of an entity that was loaded from the table: a merge. */
    method Save(e: Expense)
      requires Valid() && e.id in table
      modifies this
      ensures Valid()
      ensures table == old(table)[e.id := e] && nextId == old(nextId)
    {
      table := table[e.id := e];
    }

    /** `delete`: removes the row with the entity's id. */
    method Delete(e: Expense)
      requires Valid()
      modifies this
      ensures Valid()
      ensures table == old(table) - {e.id} && nextId == old(nextId)
    {
      table := table - {e.id};
    }
  }
}
