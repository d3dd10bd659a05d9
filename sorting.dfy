/** `ORDER BY <key> DESC` over a list of row ids: a stable insertion sort on a key function. */
module Sorting {

  /** Keys never increase along s. */
  predicate SortedDesc(s: seq<int>, key: int -> int) {
    forall i, j | 0 <= i < j < |s| :: key(s[i]) >= key(s[j])
  }

  function Insert(x: int, t: seq<int>, key: int -> int): (r: seq<int>)
    ensures multiset(r) == multiset(t) + multiset{x}
  {
    if t == [] || key(x) >= key(t[0]) then [x] + t
    else
      assert t == [t[0]] + t[1..];
      [t[0]] + Insert(x, t[1..], key)
  }

  /** Rows of equal key keep their input order (SortDescStable). */
  function SortDesc(s: seq<int>, key: int -> int): (r: seq<int>)
    ensures multiset(r) == multiset(s)
  {
    if s == [] then []
    else
      assert s == [s[0]] + s[1..];
      Insert(s[0], SortDesc(s[1..], key), key)
  }

  lemma {:induction false} InsertSorted(x: int, t: seq<int>, key: int -> int)
    requires SortedDesc(t, key)
    ensures SortedDesc(Insert(x, t, key), key)
  {
    if t != [] && key(x) < key(t[0]) {
      InsertSorted(x, t[1..], key);
      var r := Insert(x, t[1..], key);
      forall k | 0 <= k < |r| ensures key(t[0]) >= key(r[k]) {
        assert r[k] in multiset(r);
        if r[k] != x {
          assert r[k] in multiset(t[1..]);
          var j :| 0 <= j < |t[1..]| && t[1..][j] == r[k];
          assert t[j + 1] == r[k];
        }
      }
      ConsSorted(t[0], r, key);
    }
  }

  /** A head whose key is at least every later key extends a sorted list. */
  lemma ConsSorted(h: int, r: seq<int>, key: int -> int)
    requires SortedDesc(r, key) && forall k | 0 <= k < |r| :: key(h) >= key(r[k])
    ensures SortedDesc([h] + r, key)
  {
    var s := [h] + r;
    forall i, j | 0 <= i < j < |s| ensures key(s[i]) >= key(s[j]) {
      assert s[j] == r[j - 1];
      if i > 0 { assert s[i] == r[i - 1]; }
    }
  }

  /** The sort puts the ids in non-increasing key order and keeps every id exactly as often. */
  lemma {:induction false} SortDescSorted(s: seq<int>, key: int -> int)
    ensures SortedDesc(SortDesc(s, key), key)
    ensures multiset(SortDesc(s, key)) == multiset(s)
  {
    if s != [] {
      SortDescSorted(s[1..], key);
      InsertSorted(s[0], SortDesc(s[1..], key), key);
    }
  }

  /** Among rows of equal key, the ids fall. */
  predicate TiesDesc(s: seq<int>, key: int -> int) {
    forall i, j | 0 <= i < j < |s| && key(s[i]) == key(s[j]) :: s[i] > s[j]
  }

  /** Inserting an id above every id of t keeps the ties of t falling. */
  lemma {:induction false} InsertTies(x: int, t: seq<int>, key: int -> int)
    requires TiesDesc(t, key) && forall k | 0 <= k < |t| :: t[k] < x
    ensures TiesDesc(Insert(x, t, key), key)
  {
    if t != [] && key(x) < key(t[0]) {
      InsertTies(x, t[1..], key);
      var r := Insert(x, t[1..], key);
      var s := [t[0]] + r;
      forall i, j | 0 <= i < j < |s| && key(s[i]) == key(s[j]) ensures s[i] > s[j] {
        assert s[j] == r[j - 1];
        if i > 0 {
          assert s[i] == r[i - 1];
        } else {
          HeadAboveTies(x, t, key, r, j - 1);
        }
      }
    } else {
      var s := [x] + t;
      forall i, j | 0 <= i < j < |s| && key(s[i]) == key(s[j]) ensures s[i] > s[j] {
        assert s[j] == t[j - 1];
        if i > 0 {
          assert s[i] == t[i - 1];
        }
      }
    }
  }

  /** An entry of the insertion into t's tail with t[0]'s key lies below t[0]. */
  lemma HeadAboveTies(x: int, t: seq<int>, key: int -> int, r: seq<int>, k: int)
    requires t != [] && TiesDesc(t, key) && key(x) < key(t[0])
    requires multiset(r) == multiset(t[1..]) + multiset{x}
    requires 0 <= k < |r| && key(r[k]) == key(t[0])
    ensures t[0] > r[k]
  {
    assert r[k] in multiset(r);
    assert r[k] != x;
    assert r[k] in multiset(t[1..]);
    var m :| 0 <= m < |t[1..]| && t[1..][m] == r[k];
    assert t[m + 1] == r[k];
  }

  /**
   * The sort is stable: over a list of falling ids, rows of equal key come out in their input
   * order, so ties stay highest id first.
   */
  lemma {:induction false} SortDescStable(s: seq<int>, key: int -> int)
    requires forall i, j | 0 <= i < j < |s| :: s[i] > s[j]
    ensures TiesDesc(SortDesc(s, key), key)
  {
    if s != [] {
      SortDescStable(s[1..], key);
      var t := SortDesc(s[1..], key);
      forall k | 0 <= k < |t| ensures t[k] < s[0] {
        assert t[k] in multiset(t);
        assert t[k] in multiset(s[1..]);
        var m :| 0 <= m < |s[1..]| && s[1..][m] == t[k];
        assert s[m + 1] == t[k];
      }
      InsertTies(s[0], t, key);
    }
  }
}
