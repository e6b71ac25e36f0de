/** `sorted(recommendations, key=lambda rec: rec["priority"])`: Python's sort
    is stable, so records of equal priority keep their stored order.  Modelled
    as an insertion sort whose contracts say what `sorted` promises. */
module Ordering {
  import opened Json
  import opened Records

  /** The sort key; every stored recommendation has an int priority. */
  function PriorityOf(r: Record): real
  {
    if "priority" in r && PyNumber(r["priority"]) then Num(r["priority"]) else 0.0
  }

  predicate SortedByPriority(rs: seq<Record>)
  {
    forall i, j :: 0 <= i < j < |rs| ==> PriorityOf(rs[i]) <= PriorityOf(rs[j])
  }

  /** The records of one priority, in their order in `rs`. */
  function WithPriority(rs: seq<Record>, v: real): seq<Record>
  {
    Where(rs, r => PriorityOf(r) == v)
  }

  /** Put `x` in front of the first record whose priority is not below its own. */
  function Insert(x: Record, rs: seq<Record>): (out: seq<Record>)
    ensures multiset(out) == multiset(rs) + multiset{x}
    ensures |out| == |rs| + 1
    ensures out[0] == x || (rs != [] && out[0] == rs[0])
  {
    if rs == [] || PriorityOf(x) <= PriorityOf(rs[0]) then [x] + rs
    else
      var rest := Insert(x, rs[1..]);
      assert rs == [rs[0]] + rs[1..];
      [rs[0]] + rest
  }

  /** The stable sort by priority. */
  function SortByPriority(rs: seq<Record>): (out: seq<Record>)
    ensures multiset(out) == multiset(rs)
    ensures |out| == |rs|
    ensures SortedByPriority(out)
  {
    if rs == [] then []
    else
      assert rs == [rs[0]] + rs[1..];
      var tail := SortByPriority(rs[1..]);
      InsertSorted(rs[0], tail);
      Insert(rs[0], tail)
  }

  /** Insertion keeps a sorted list sorted. */
  lemma {:induction false} InsertSorted(x: Record, rs: seq<Record>)
    requires SortedByPriority(rs)
    ensures SortedByPriority(Insert(x, rs))
  {
    if rs == [] || PriorityOf(x) <= PriorityOf(rs[0]) {
      var out := [x] + rs;
      assert forall k :: 1 <= k < |out| ==> out[k] == rs[k - 1];
    } else {
      var tail := rs[1..];
      assert forall k :: 0 <= k < |tail| ==> tail[k] == rs[k + 1];
      InsertSorted(x, tail);
      InsertBound(x, tail, PriorityOf(rs[0]));
      var rest := Insert(x, tail);
      var out := [rs[0]] + rest;
      assert forall k :: 1 <= k < |out| ==> out[k] == rest[k - 1];
    }
  }

  /** A lower bound on `x` and on every record of `rs` bounds the result of
      inserting `x` into `rs`. */
  lemma {:induction false} InsertBound(x: Record, rs: seq<Record>, bound: real)
    requires bound <= PriorityOf(x)
    requires forall k :: 0 <= k < |rs| ==> bound <= PriorityOf(rs[k])
    ensures forall k :: 0 <= k < |Insert(x, rs)| ==> bound <= PriorityOf(Insert(x, rs)[k])
  {
    if rs == [] || PriorityOf(x) <= PriorityOf(rs[0]) {
      var out := [x] + rs;
      assert forall k :: 1 <= k < |out| ==> out[k] == rs[k - 1];
    } else {
      var tail := rs[1..];
      assert forall k :: 0 <= k < |tail| ==> tail[k] == rs[k + 1];
      InsertBound(x, tail, bound);
      var rest := Insert(x, tail);
      var out := [rs[0]] + rest;
      assert forall k :: 1 <= k < |out| ==> out[k] == rest[k - 1];
    }
  }

  /** Inserting `x` adds it at the front of its own priority class and leaves
      every other class as it was. */
  lemma {:induction false} InsertClass(x: Record, rs: seq<Record>, v: real)
    ensures WithPriority(Insert(x, rs), v) ==
              if PriorityOf(x) == v then [x] + WithPriority(rs, v) else WithPriority(rs, v)
  {
    if rs == [] || PriorityOf(x) <= PriorityOf(rs[0]) {
    } else {
      InsertClass(x, rs[1..], v);
      assert Insert(x, rs) == [rs[0]] + Insert(x, rs[1..]);
    }
  }

  /** Stability: within each priority the sorted list keeps the stored order. */
  lemma {:induction false} SortIsStable(rs: seq<Record>, v: real)
    ensures WithPriority(SortByPriority(rs), v) == WithPriority(rs, v)
  {
    if rs != [] {
      SortIsStable(rs[1..], v);
      InsertClass(rs[0], SortByPriority(rs[1..]), v);
    }
  }
}
