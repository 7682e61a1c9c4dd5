/** The sort of the sprint dictionary by start date, a sprint without a start
    date counting as 1970-01-01. Python's `sorted` is stable; the model sorts
    by stable insertion, inserting each id before the first id whose key is
    not smaller, so ids with equal keys keep their dictionary order. */
module Sorting {
  import opened Seqs
  import opened Models

  predicate AllIn(ids: seq<SprintId>, m: map<SprintId, Sprint>) {
    forall id :: id in ids ==> id in m
  }

  function Key(m: map<SprintId, Sprint>, id: SprintId): Date
    requires id in m
  {
    StartKey(m[id])
  }

  predicate SortedByStart(ids: seq<SprintId>, m: map<SprintId, Sprint>)
    requires AllIn(ids, m)
  {
    forall i, j :: 0 <= i < j < |ids| ==> Key(m, ids[i]) <= Key(m, ids[j])
  }

  function InsertByStart(id: SprintId, ids: seq<SprintId>, m: map<SprintId, Sprint>): (r: seq<SprintId>)
    requires id in m && AllIn(ids, m)
    ensures multiset(r) == multiset(ids) + multiset{id}
    ensures AllIn(r, m)
    decreases |ids|
  {
    if ids == [] || Key(m, id) <= Key(m, ids[0]) then
      [id] + ids
    else
      var rest := InsertByStart(id, ids[1..], m);
      assert ids == [ids[0]] + ids[1..];
      [ids[0]] + rest
  }

  /** A sorted sequence stays sorted when an id whose key is not above any of
      its keys is put in front. */
  lemma SortedCons(x: SprintId, s: seq<SprintId>, m: map<SprintId, Sprint>)
    requires x in m && AllIn(s, m) && SortedByStart(s, m)
    requires forall y :: y in s ==> Key(m, x) <= Key(m, y)
    ensures AllIn([x] + s, m) && SortedByStart([x] + s, m)
  {
    forall i, j | 0 <= i < j < |[x] + s| ensures Key(m, ([x] + s)[i]) <= Key(m, ([x] + s)[j]) {
      if i > 0 {
        assert ([x] + s)[i] == s[i - 1] && ([x] + s)[j] == s[j - 1];
      } else {
        assert ([x] + s)[j] in s;
      }
    }
  }

  lemma {:induction false} InsertSorted(id: SprintId, ids: seq<SprintId>, m: map<SprintId, Sprint>)
    requires id in m && AllIn(ids, m) && SortedByStart(ids, m)
    ensures SortedByStart(InsertByStart(id, ids, m), m)
    decreases |ids|
  {
    if ids == [] || Key(m, id) <= Key(m, ids[0]) {
      forall y | y in ids ensures Key(m, id) <= Key(m, y) {
        var j :| 0 <= j < |ids| && ids[j] == y;
        assert j == 0 || Key(m, ids[0]) <= Key(m, ids[j]);
      }
      SortedCons(id, ids, m);
    } else {
      var rest := InsertByStart(id, ids[1..], m);
      assert SortedByStart(ids[1..], m) by {
        forall i, j | 0 <= i < j < |ids[1..]| ensures Key(m, ids[1..][i]) <= Key(m, ids[1..][j]) {
          assert ids[1..][i] == ids[i + 1] && ids[1..][j] == ids[j + 1];
        }
      }
      InsertSorted(id, ids[1..], m);
      forall y | y in rest ensures Key(m, ids[0]) <= Key(m, y) {
        assert y in multiset(rest);
        if y != id {
          var j :| 0 <= j < |ids[1..]| && ids[1..][j] == y;
          assert ids[j + 1] == y;
        }
      }
      SortedCons(ids[0], rest, m);
    }
  }

  /** `sorted(..., key=start_date or 1970-01-01)` over the dictionary's ids. */
  function SortByStart(ids: seq<SprintId>, m: map<SprintId, Sprint>): (r: seq<SprintId>)
    requires AllIn(ids, m)
    ensures multiset(r) == multiset(ids)
    ensures AllIn(r, m)
    ensures SortedByStart(r, m)
    decreases |ids|
  {
    if ids == [] then []
    else
      assert ids == [ids[0]] + ids[1..];
      var rest := SortByStart(ids[1..], m);
      InsertSorted(ids[0], rest, m);
      InsertByStart(ids[0], rest, m)
  }

  /** The ids among `ids` whose sort key is `k`, in their order. */
  function WithKey(ids: seq<SprintId>, m: map<SprintId, Sprint>, k: Date): seq<SprintId>
    requires AllIn(ids, m)
    decreases |ids|
  {
    if ids == [] then []
    else (if Key(m, ids[0]) == k then [ids[0]] else []) + WithKey(ids[1..], m, k)
  }

  lemma WithKeyCons(x: SprintId, s: seq<SprintId>, m: map<SprintId, Sprint>, k: Date)
    requires x in m && AllIn(s, m)
    ensures AllIn([x] + s, m)
    ensures WithKey([x] + s, m, k) == (if Key(m, x) == k then [x] else []) + WithKey(s, m, k)
  {
    assert ([x] + s)[1..] == s;
  }

  /** Inserting an id puts it, among the ids of its own key, first: every id
      it is inserted after has a smaller key. */
  lemma {:induction false} InsertStable(id: SprintId, ids: seq<SprintId>, m: map<SprintId, Sprint>, k: Date)
    requires id in m && AllIn(ids, m)
    ensures WithKey(InsertByStart(id, ids, m), m, k)
         == (if Key(m, id) == k then [id] else []) + WithKey(ids, m, k)
    decreases |ids|
  {
    if ids == [] || Key(m, id) <= Key(m, ids[0]) {
      WithKeyCons(id, ids, m, k);
    } else {
      assert ids == [ids[0]] + ids[1..];
      WithKeyCons(ids[0], ids[1..], m, k);
      InsertStable(id, ids[1..], m, k);
      WithKeyCons(ids[0], InsertByStart(id, ids[1..], m), m, k);
    }
  }

  /** Sorting keeps, for every key, the ids with that key in their original
      order: the sort is stable. */
  lemma {:induction false} SortStable(ids: seq<SprintId>, m: map<SprintId, Sprint>, k: Date)
    requires AllIn(ids, m)
    ensures WithKey(SortByStart(ids, m), m, k) == WithKey(ids, m, k)
    decreases |ids|
  {
    if ids != [] {
      SortStable(ids[1..], m, k);
      InsertStable(ids[0], SortByStart(ids[1..], m), m, k);
    }
  }

  /** The dictionary comprehension over the sorted items: the same id to
      Sprint entries, in order of start date. */
  function SortSprints(d: SprintDict): (r: SprintDict)
    requires d.Valid()
    ensures r.Valid() && r.entries == d.entries
    ensures multiset(r.order) == multiset(d.order)
    ensures AllIn(r.order, r.entries) && SortedByStart(r.order, r.entries)
  {
    var order := SortByStart(d.order, d.entries);
    NoDupPermutation(d.order, order);
    assert forall id :: id in order <==> id in d.order by {
      forall id ensures id in order <==> id in d.order {
        assert id in order <==> id in multiset(order);
      }
    }
    SprintDict(order, d.entries)
  }

  /** Start dates 2024-03-01, none and 2024-02-15 (days 19783, none and
      19768) sort as none, 2024-02-15, 2024-03-01. */
  lemma SortExample(a: Sprint, b: Sprint, c: Sprint)
    requires a.startDate == Some(19783) && b.startDate.None? && c.startDate == Some(19768)
    ensures SortByStart(["a", "b", "c"], map["a" := a, "b" := b, "c" := c]) == ["b", "c", "a"]
  {
    var m := map["a" := a, "b" := b, "c" := c];
    assert ["a", "b", "c"][1..] == ["b", "c"] && ["b", "c"][1..] == ["c"] && ["c"][1..] == [];
    assert SortByStart(["c"], m) == ["c"];
    assert SortByStart(["b", "c"], m) == InsertByStart("b", ["c"], m) == ["b", "c"];
    assert ["b", "c"][1..] == ["c"];
    assert InsertByStart("a", ["c"], m) == ["c", "a"];
    assert InsertByStart("a", ["b", "c"], m) == ["b", "c", "a"];
  }
}
