/** Queries over a list of records, as the store writes them with Python's
    generator expressions, list comprehensions and dict comprehensions. */
module Records {
  import opened Json
  import opened Results

  /** Every record of `rs` has the key `key`. */
  predicate AllHave(rs: seq<Record>, key: string)
  {
    forall r :: r in rs ==> key in r
  }

  /** `r[key] == v` in Python's sense (false when the key is absent). */
  predicate KeyIs(r: Record, key: string, v: JValue)
  {
    key in r && PyEq(r[key], v)
  }

  /** `any(r[key] == v for r in rs)`. */
  predicate AnyWith(rs: seq<Record>, key: string, v: JValue)
  {
    exists r :: r in rs && KeyIs(r, key, v)
  }

  /** `[r for r in rs if keep(r)]`. */
  function Where(rs: seq<Record>, keep: Record -> bool): (out: seq<Record>)
    ensures |out| <= |rs|
    ensures forall r :: r in out <==> r in rs && keep(r)
  {
    if rs == [] then []
    else if keep(rs[0]) then [rs[0]] + Where(rs[1..], keep)
    else Where(rs[1..], keep)
  }

  /** The test of the comprehensions that remove a key value:
      `[r for r in rs if r[key] != v]`. */
  function KeyIsNot(key: string, v: JValue): Record -> bool
  {
    r => !KeyIs(r, key, v)
  }

  /** Filtering distributes over concatenation: it keeps the survivors in
      their original order. */
  lemma {:induction false} WhereConcat(a: seq<Record>, b: seq<Record>, keep: Record -> bool)
    ensures Where(a + b, keep) == Where(a, keep) + Where(b, keep)
  {
    if a != [] {
      assert (a + b)[1..] == a[1..] + b;
      WhereConcat(a[1..], b, keep);
    } else {
      assert a + b == b;
    }
  }

  /** A filter drops nothing exactly when every record passes it. */
  lemma {:induction false} WhereKeepsAll(rs: seq<Record>, keep: Record -> bool)
    ensures |Where(rs, keep)| == |rs| <==> forall r :: r in rs ==> keep(r)
    ensures (forall r :: r in rs ==> keep(r)) ==> Where(rs, keep) == rs
  {
    if rs != [] {
      WhereKeepsAll(rs[1..], keep);
      assert forall r :: r in rs[1..] ==> r in rs;
      assert rs == [rs[0]] + rs[1..];
      if !keep(rs[0]) {
        assert |Where(rs[1..], keep)| <= |rs[1..]| < |rs|;
      }
    }
  }

  /** Two successive filters are one filter by the conjunction. */
  lemma {:induction false} WhereWhere(rs: seq<Record>, f: Record -> bool, g: Record -> bool)
    ensures Where(Where(rs, f), g) == Where(rs, r => f(r) && g(r))
  {
    if rs != [] {
      WhereWhere(rs[1..], f, g);
    }
  }

  /** Two tests that agree on every record of `rs` keep the same records. */
  lemma {:induction false} WhereEquiv(rs: seq<Record>, f: Record -> bool, g: Record -> bool)
    requires forall r :: r in rs ==> f(r) == g(r)
    ensures Where(rs, f) == Where(rs, g)
  {
    if rs != [] {
      assert forall r :: r in rs[1..] ==> r in rs;
      WhereEquiv(rs[1..], f, g);
    }
  }

  /** Position `i` holds the first record of `rs` with `key` equal to `v`. */
  predicate FirstWith(rs: seq<Record>, key: string, v: JValue, i: int)
  {
    0 <= i < |rs| && KeyIs(rs[i], key, v) && forall j :: 0 <= j < i ==> !KeyIs(rs[j], key, v)
  }

  /** Position `i` holds the last record of `rs` with `key` equal to `v`. */
  predicate LastWith(rs: seq<Record>, key: string, v: JValue, i: int)
  {
    0 <= i < |rs| && KeyIs(rs[i], key, v) && forall j :: i < j < |rs| ==> !KeyIs(rs[j], key, v)
  }

  /** `next((i for i, r in enumerate(rs) if r[key] == v), None)`. */
  function FirstIndex(rs: seq<Record>, key: string, v: JValue): (found: Option<nat>)
    ensures found.Some? ==> found.value < |rs| && KeyIs(rs[found.value], key, v)
    ensures found.Some? ==> forall j :: 0 <= j < found.value ==> !KeyIs(rs[j], key, v)
    ensures found.None? <==> !AnyWith(rs, key, v)
  {
    if rs == [] then None
    else if KeyIs(rs[0], key, v) then Some(0)
    else match FirstIndex(rs[1..], key, v)
      case None => None
      case Some(k) => Some(k + 1)
  }

  /** The record `{r[key]: r for r in rs}.get(v)` finds: a dict keeps the
      LAST record with each key. */
  function LastIndex(rs: seq<Record>, key: string, v: JValue): (found: Option<nat>)
    ensures found.Some? ==> found.value < |rs| && KeyIs(rs[found.value], key, v)
    ensures found.Some? ==> forall j :: found.value < j < |rs| ==> !KeyIs(rs[j], key, v)
    ensures found.None? <==> !AnyWith(rs, key, v)
  {
    if rs == [] then None
    else
      var last := |rs| - 1;
      if KeyIs(rs[last], key, v) then Some(last)
      else
        assert forall r :: r in rs[..last] ==> r in rs;
        assert forall r :: r in rs ==> r in rs[..last] || r == rs[last];
        LastIndex(rs[..last], key, v)
  }

  /** No two records of `rs` have Python-equal `key` values. */
  predicate Distinct(rs: seq<Record>, key: string)
  {
    forall i, j :: 0 <= i < j < |rs| ==> !PyEq(Get(rs[i], key), Get(rs[j], key))
  }

  /** With distinct keys, a key value names at most one position. */
  lemma DistinctUnique(rs: seq<Record>, key: string, v: JValue, i: nat, j: nat)
    requires Distinct(rs, key)
    requires i < |rs| && j < |rs| && KeyIs(rs[i], key, v) && KeyIs(rs[j], key, v)
    ensures i == j
  {
  }

  /** With distinct keys the first and the last record with a key coincide. */
  lemma DistinctFirstIsLast(rs: seq<Record>, key: string, v: JValue)
    requires Distinct(rs, key)
    ensures FirstIndex(rs, key, v) == LastIndex(rs, key, v)
  {
    var f := FirstIndex(rs, key, v);
    var l := LastIndex(rs, key, v);
    if f.Some? && l.Some? {
      DistinctUnique(rs, key, v, f.value, l.value);
    }
  }

  /** Filtering keeps keys distinct. */
  lemma {:induction false} DistinctWhere(rs: seq<Record>, key: string, keep: Record -> bool)
    requires Distinct(rs, key)
    ensures Distinct(Where(rs, keep), key)
  {
    if rs != [] {
      var tail := rs[1..];
      assert Distinct(tail, key) by {
        forall i, j | 0 <= i < j < |tail|
          ensures !PyEq(Get(tail[i], key), Get(tail[j], key))
        {
          assert tail[i] == rs[i + 1] && tail[j] == rs[j + 1];
        }
      }
      DistinctWhere(tail, key, keep);
      if keep(rs[0]) {
        var w := Where(tail, keep);
        var out := [rs[0]] + w;
        forall i, j | 0 <= i < j < |out|
          ensures !PyEq(Get(out[i], key), Get(out[j], key))
        {
          if i == 0 {
            assert out[j] == w[j - 1] && w[j - 1] in tail;
            var k :| 0 <= k < |tail| && tail[k] == w[j - 1];
            assert rs[k + 1] == out[j];
          } else {
            assert out[i] == w[i - 1] && out[j] == w[j - 1];
          }
        }
      }
    }
  }

  /** Appending a record whose key is new keeps keys distinct. */
  lemma DistinctAppend(rs: seq<Record>, key: string, p: Record)
    requires Distinct(rs, key) && AllHave(rs, key)
    requires key in p && !AnyWith(rs, key, p[key])
    ensures Distinct(rs + [p], key)
  {
    var out := rs + [p];
    forall i, j | 0 <= i < j < |out|
      ensures !PyEq(Get(out[i], key), Get(out[j], key))
    {
      if j == |rs| {
        assert out[i] == rs[i] && rs[i] in rs;
        assert !KeyIs(rs[i], key, p[key]);
      }
    }
  }

  /** Replacing one record by one with a Python-equal key keeps keys distinct. */
  lemma DistinctReplace(rs: seq<Record>, key: string, i: nat, r: Record)
    requires Distinct(rs, key) && i < |rs|
    requires PyEq(Get(r, key), Get(rs[i], key))
    ensures Distinct(rs[i := r], key)
  {
  }

  /** A key value present before an append is present after it. */
  lemma AnyWithAppend(rs: seq<Record>, key: string, v: JValue, p: Record)
    requires AnyWith(rs, key, v)
    ensures AnyWith(rs + [p], key, v)
  {
    var w :| w in rs && KeyIs(w, key, v);
    assert w in rs + [p];
  }

  /** A key value survives replacing one record by one with an equal key. */
  lemma AnyWithReplace(rs: seq<Record>, key: string, v: JValue, i: nat, r: Record)
    requires i < |rs| && AnyWith(rs, key, v)
    requires key in r && (key in rs[i] ==> PyEq(r[key], rs[i][key]))
    ensures AnyWith(rs[i := r], key, v)
  {
    var w :| w in rs && KeyIs(w, key, v);
    var k :| 0 <= k < |rs| && rs[k] == w;
    var out := rs[i := r];
    if k == i {
      assert out[i] == r && KeyIs(r, key, v);
    } else {
      assert out[k] == w;
    }
  }

  /** Replacing one record by one whose key no other record shares keeps
      keys distinct. */
  lemma DistinctReplaceFresh(rs: seq<Record>, key: string, i: nat, r: Record)
    requires Distinct(rs, key) && i < |rs|
    requires forall j :: 0 <= j < |rs| && j != i ==> !PyEq(Get(rs[j], key), Get(r, key))
    ensures Distinct(rs[i := r], key)
  {
  }

  /** A record appended under a key value no earlier record has is the first
      one with it. */
  lemma {:induction false} FirstIndexAppend(rs: seq<Record>, key: string, v: JValue, p: Record)
    requires !AnyWith(rs, key, v) && KeyIs(p, key, v)
    ensures FirstIndex(rs + [p], key, v) == Some(|rs|)
  {
    if rs == [] {
      assert rs + [p] == [p];
    } else {
      assert rs[0] in rs && !KeyIs(rs[0], key, v);
      assert !AnyWith(rs[1..], key, v) by {
        assert forall r :: r in rs[1..] ==> r in rs;
      }
      FirstIndexAppend(rs[1..], key, v, p);
      assert (rs + [p])[1..] == rs[1..] + [p];
    }
  }

  /** Replacing the first record with a key value by another record with the
      same key value leaves it the first one. */
  lemma FirstIndexReplace(rs: seq<Record>, key: string, v: JValue, i: nat, r: Record)
    requires FirstIndex(rs, key, v) == Some(i) && KeyIs(r, key, v)
    ensures FirstIndex(rs[i := r], key, v) == Some(i)
  {
    var out := rs[i := r];
    assert forall k :: 0 <= k < i ==> out[k] == rs[k];
    assert out[i] == r;
  }
}
