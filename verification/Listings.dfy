/** Ordered, limited queries over a table, as `SELECT … WHERE … ORDER BY … LIMIT …` answers them. */
module Listings {
  ghost predicate Distinct(ids: seq<nat>) { forall i, j :: 0 <= i < j < |ids| ==> ids[i] != ids[j] }

  /** What such a query may return: distinct selected rows in key order, and a selected row is missing
      only from a full result none of whose keys is larger. */
  ghost predicate IsListing<T>(rows: seq<T>, ids: seq<nat>, selected: T -> bool, key: T -> int, limit: nat) {
    && |ids| <= limit
    && Distinct(ids)
    && (forall i :: 0 <= i < |ids| ==> ids[i] < |rows| && selected(rows[ids[i]]))
    && (forall i, j :: 0 <= i < j < |ids| ==> key(rows[ids[i]]) <= key(rows[ids[j]]))
    && (forall r :: 0 <= r < |rows| && selected(rows[r]) && r !in ids ==>
          |ids| == limit && forall i :: 0 <= i < |ids| ==> key(rows[ids[i]]) <= key(rows[r]))
  }

  ghost function Elements(ids: seq<nat>): set<nat> { set i | 0 <= i < |ids| :: ids[i] }

  lemma {:induction false} DistinctCount(ids: seq<nat>)
    requires Distinct(ids)
    ensures |Elements(ids)| == |ids|
  {
    if ids != [] {
      var n := |ids| - 1;
      DistinctCount(ids[..n]);
      assert Elements(ids) == Elements(ids[..n]) + {ids[n]};
    }
  }

  ghost predicate InOrder<T>(rows: seq<T>, ids: seq<nat>, key: T -> int) {
    && Distinct(ids)
    && (forall i :: 0 <= i < |ids| ==> ids[i] < |rows|)
    && (forall i, j :: 0 <= i < j < |ids| ==> key(rows[ids[i]]) <= key(rows[ids[j]]))
  }

  function InsertAt(ids: seq<nat>, p: nat, r: nat): (out: seq<nat>)
    requires p <= |ids|
    ensures |out| == |ids| + 1
    ensures forall i :: 0 <= i < |out| ==> out[i] == if i < p then ids[i] else if i == p then r else ids[i - 1]
  {
    ids[..p] + [r] + ids[p..]
  }

  lemma InsertAtElements(ids: seq<nat>, p: nat, r: nat, x: nat)
    requires p <= |ids|
    ensures x in InsertAt(ids, p, r) <==> x in ids || x == r
  {
  }

  lemma InsertAtOrder<T>(rows: seq<T>, ids: seq<nat>, p: nat, r: nat, key: T -> int)
    requires InOrder(rows, ids, key) && r < |rows| && r !in ids && p <= |ids|
    requires forall i :: p <= i < |ids| ==> key(rows[r]) <= key(rows[ids[i]])
    requires p > 0 ==> key(rows[ids[p - 1]]) <= key(rows[r])
    ensures InOrder(rows, InsertAt(ids, p, r), key)
  {
    var out := InsertAt(ids, p, r);
    forall i, j | 0 <= i < j < |out| ensures out[i] != out[j] && key(rows[out[i]]) <= key(rows[out[j]]) {
      if i < p && p > 0 {
        assert key(rows[ids[i]]) <= key(rows[ids[p - 1]]);
      }
    }
  }

  method Insert<T>(rows: seq<T>, ids: seq<nat>, r: nat, key: T -> int) returns (out: seq<nat>)
    requires InOrder(rows, ids, key) && r < |rows| && r !in ids
    ensures InOrder(rows, out, key)
    ensures forall x :: x in out <==> x in ids || x == r
  {
    var p: nat := |ids|;
    while p > 0 && key(rows[ids[p - 1]]) > key(rows[r])
      invariant p <= |ids|
      invariant forall i :: p <= i < |ids| ==> key(rows[r]) <= key(rows[ids[i]])
    {
      p := p - 1;
    }
    InsertAtOrder(rows, ids, p, r, key);
    out := InsertAt(ids, p, r);
    forall x ensures x in out <==> x in ids || x == r { InsertAtElements(ids, p, r, x); }
  }

  /** An unlimited query: all selected rows in key order. */
  method QueryAll<T>(rows: seq<T>, selected: T -> bool, key: T -> int) returns (ids: seq<nat>)
    ensures InOrder(rows, ids, key)
    ensures forall q: nat :: q in ids <==> q < |rows| && selected(rows[q])
  {
    ids := [];
    for r := 0 to |rows|
      invariant InOrder(rows, ids, key)
      invariant forall q: nat :: q in ids <==> q < r && selected(rows[q])
    {
      if selected(rows[r]) {
        ids := Insert(rows, ids, r, key);
      }
    }
  }

  method Query<T>(rows: seq<T>, selected: T -> bool, key: T -> int, limit: nat) returns (ids: seq<nat>)
    ensures IsListing(rows, ids, selected, key, limit)
  {
    ids := QueryAll(rows, selected, key);
    if |ids| > limit {
      ghost var full := ids;
      ids := ids[..limit];
      forall r | 0 <= r < |rows| && selected(rows[r]) && r !in ids
        ensures forall i :: 0 <= i < |ids| ==> key(rows[ids[i]]) <= key(rows[r])
      {
        var j :| 0 <= j < |full| && full[j] == r;
        assert j >= limit;
      }
    }
  }
}
