/**
 * Python's `sorted(xs, key=f, reverse=True)` on a sequence already decorated with its keys:
 * a stable sort into non-increasing key order. Elements with equal keys keep their input
 * order, as Python guarantees for `reverse=True` too.
 */
module StableSort {
  import opened Seqs

  /** Keys never increase from left to right. */
  ghost predicate Descending<T>(s: seq<(real, T)>)
  {
    forall i, j :: 0 <= i < j < |s| ==> s[i].0 >= s[j].0
  }

  /** The entries of `s` whose key is `k`, in their order in `s`. */
  function WithKey<T>(s: seq<(real, T)>, k: real): seq<(real, T)>
  {
    Filter(s, (p: (real, T)) => p.0 == k)
  }

  /** Puts `x` in front of the first entry whose key is not greater than its own. */
  function Insert<T>(x: (real, T), s: seq<(real, T)>): (r: seq<(real, T)>)
    ensures multiset(r) == multiset(s) + multiset{x}
    decreases |s|
  {
    if s == [] then [x]
    else if s[0].0 <= x.0 then [x] + s
    else
      assert s == [s[0]] + s[1..];
      [s[0]] + Insert(x, s[1..])
  }

  /** Insertion sort, inserting each entry in front of the sorted rest. */
  function SortDescending<T>(s: seq<(real, T)>): (r: seq<(real, T)>)
    ensures multiset(r) == multiset(s)
    ensures |r| == |s|
    decreases |s|
  {
    if s == [] then []
    else
      assert s == [s[0]] + s[1..];
      Insert(s[0], SortDescending(s[1..]))
  }

  /** An entry whose key bounds every key of a descending sequence can go in front of it. */
  lemma DescendingCons<T>(h: (real, T), r: seq<(real, T)>)
    requires Descending(r)
    requires forall j :: 0 <= j < |r| ==> h.0 >= r[j].0
    ensures Descending([h] + r)
  {
    var t := [h] + r;
    forall i, j | 0 <= i < j < |t| ensures t[i].0 >= t[j].0 {
      assert t[j] == r[j - 1];
      if i > 0 {
        assert t[i] == r[i - 1];
      }
    }
  }

  lemma {:induction false} InsertKeepsOrder<T>(x: (real, T), s: seq<(real, T)>)
    requires Descending(s)
    ensures Descending(Insert(x, s))
    decreases |s|
  {
    if s != [] && s[0].0 <= x.0 {
      DescendingCons(x, s);
    } else if s != [] {
      var rest := s[1..];
      InsertKeepsOrder(x, rest);
      var r := Insert(x, rest);
      forall j | 0 <= j < |r| ensures s[0].0 >= r[j].0 {
        assert r[j] in multiset(r);
        if r[j] != x {
          var i :| 0 <= i < |rest| && rest[i] == r[j];
          assert rest[i] == s[i + 1];
        }
      }
      DescendingCons(s[0], r);
    }
  }

  /** The sorted sequence is in non-increasing key order. */
  lemma {:induction false} SortIsDescending<T>(s: seq<(real, T)>)
    ensures Descending(SortDescending(s))
    decreases |s|
  {
    if s != [] {
      SortIsDescending(s[1..]);
      InsertKeepsOrder(s[0], SortDescending(s[1..]));
    }
  }

  lemma WithKeyCons<T>(x: (real, T), s: seq<(real, T)>, k: real)
    ensures WithKey([x] + s, k) == (if x.0 == k then [x] else []) + WithKey(s, k)
  {
    FilterAppend([x], s, (p: (real, T)) => p.0 == k);
    assert [x][..0] == [];
  }

  /** Inserting `x` adds it in front of the entries with its key and leaves other keys alone. */
  lemma {:induction false} InsertWithKey<T>(x: (real, T), s: seq<(real, T)>, k: real)
    ensures WithKey(Insert(x, s), k) == (if x.0 == k then [x] else []) + WithKey(s, k)
    decreases |s|
  {
    if s == [] {
      assert [x] == [x] + [];
      WithKeyCons(x, [], k);
    } else if s[0].0 <= x.0 {
      WithKeyCons(x, s, k);
    } else {
      var rest := s[1..];
      var r := Insert(x, rest);
      var mid := if x.0 == k then [x] else [];
      assert s == [s[0]] + rest;
      InsertWithKey(x, rest, k);
      WithKeyCons(s[0], r, k);
      WithKeyCons(s[0], rest, k);
      if s[0].0 == k {
        calc {
          WithKey(Insert(x, s), k);
          WithKey([s[0]] + r, k);
          [s[0]] + WithKey(r, k);
          [s[0]] + WithKey(rest, k);
          WithKey(s, k);
        }
      } else {
        calc {
          WithKey(Insert(x, s), k);
          WithKey([s[0]] + r, k);
          WithKey(r, k);
          mid + WithKey(rest, k);
          mid + WithKey(s, k);
        }
      }
    }
  }

  /** Stability: for every key, the entries with that key appear in their input order. */
  lemma {:induction false} SortIsStable<T>(s: seq<(real, T)>, k: real)
    ensures WithKey(SortDescending(s), k) == WithKey(s, k)
    decreases |s|
  {
    if s != [] {
      SortIsStable(s[1..], k);
      InsertWithKey(s[0], SortDescending(s[1..]), k);
      WithKeyCons(s[0], s[1..], k);
      assert s == [s[0]] + s[1..];
    }
  }

  /** The payloads of a decorated sequence, with the keys dropped. */
  function Seconds<T>(s: seq<(real, T)>): (r: seq<T>)
    ensures |r| == |s|
    ensures forall i :: 0 <= i < |s| ==> r[i] == s[i].1
  {
    if s == [] then [] else [s[0].1] + Seconds(s[1..])
  }

  lemma {:induction false} InsertSeconds<T>(x: (real, T), s: seq<(real, T)>)
    ensures multiset(Seconds(Insert(x, s))) == multiset(Seconds(s)) + multiset{x.1}
    decreases |s|
  {
    if s != [] && s[0].0 > x.0 {
      InsertSeconds(x, s[1..]);
      assert Seconds(s) == [s[0].1] + Seconds(s[1..]);
      assert Seconds(Insert(x, s)) == [s[0].1] + Seconds(Insert(x, s[1..]));
    } else if s != [] {
      assert Seconds(Insert(x, s)) == [x.1] + Seconds(s);
    }
  }

  /** Sorting permutes the payloads too. */
  lemma {:induction false} SortSeconds<T>(s: seq<(real, T)>)
    ensures multiset(Seconds(SortDescending(s))) == multiset(Seconds(s))
    decreases |s|
  {
    if s != [] {
      SortSeconds(s[1..]);
      InsertSeconds(s[0], SortDescending(s[1..]));
      assert Seconds(s) == [s[0].1] + Seconds(s[1..]);
    }
  }
}
