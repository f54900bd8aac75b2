/** Sequence and string helpers: selection by flags, filtering, subsequences, substring search. */
module Seqs {

  function Min(a: int, b: int): int
  {
    if a <= b then a else b
  }

  function Max(a: int, b: int): int
  {
    if a <= b then b else a
  }

  /** The elements of `xs` whose flag in `keep` is set, in their original order. */
  function Select<T>(xs: seq<T>, keep: seq<bool>): (ys: seq<T>)
    requires |keep| == |xs|
    ensures |ys| <= |xs|
    decreases |xs|
  {
    if xs == [] then []
    else Select(xs[..|xs| - 1], keep[..|keep| - 1]) + (if keep[|keep| - 1] then [xs[|xs| - 1]] else [])
  }

  /** `a` is obtained from `b` by deleting elements, without reordering the rest. */
  ghost predicate IsSubsequence<T>(a: seq<T>, b: seq<T>)
  {
    exists keep: seq<bool> :: |keep| == |b| && Select(b, keep) == a
  }

  lemma {:induction false} SelectMembers<T>(xs: seq<T>, keep: seq<bool>, y: T)
    requires |keep| == |xs|
    ensures y in Select(xs, keep) <==> exists i :: 0 <= i < |xs| && keep[i] && xs[i] == y
    decreases |xs|
  {
    if xs != [] {
      var n := |xs| - 1;
      SelectMembers(xs[..n], keep[..n], y);
      if y in Select(xs[..n], keep[..n]) {
        var i :| 0 <= i < n && keep[..n][i] && xs[..n][i] == y;
        assert keep[i] && xs[i] == y;
      }
      if i :| 0 <= i < |xs| && keep[i] && xs[i] == y {
        if i < n {
          assert keep[..n][i] && xs[..n][i] == y;
        }
      }
    }
  }

  lemma {:induction false} SelectAll<T>(xs: seq<T>, keep: seq<bool>)
    requires |keep| == |xs|
    requires forall i :: 0 <= i < |keep| ==> keep[i]
    ensures Select(xs, keep) == xs
    decreases |xs|
  {
    if xs != [] {
      var n := |xs| - 1;
      SelectAll(xs[..n], keep[..n]);
      assert xs[..n] + [xs[n]] == xs;
    }
  }

  lemma {:induction false} SelectNone<T>(xs: seq<T>, keep: seq<bool>)
    requires |keep| == |xs|
    requires forall i :: 0 <= i < |keep| ==> !keep[i]
    ensures Select(xs, keep) == []
    decreases |xs|
  {
    if xs != [] {
      SelectNone(xs[..|xs| - 1], keep[..|keep| - 1]);
    }
  }

  /** Every element is kept, so every sequence is a subsequence of itself. */
  lemma SubsequenceOfItself<T>(xs: seq<T>)
    ensures IsSubsequence(xs, xs)
  {
    var keep := seq(|xs|, i => true);
    SelectAll(xs, keep);
  }

  /** The elements of `xs` that satisfy `p`, in their original order. */
  function Filter<T>(xs: seq<T>, p: T -> bool): (ys: seq<T>)
    ensures |ys| <= |xs|
    decreases |xs|
  {
    if xs == [] then []
    else Filter(xs[..|xs| - 1], p) + (if p(xs[|xs| - 1]) then [xs[|xs| - 1]] else [])
  }

  /** The flag of each element of `xs` under `p`. */
  function Flags<T>(xs: seq<T>, p: T -> bool): (keep: seq<bool>)
    ensures |keep| == |xs|
    ensures forall i :: 0 <= i < |xs| ==> keep[i] == p(xs[i])
  {
    seq(|xs|, i requires 0 <= i < |xs| => p(xs[i]))
  }

  lemma {:induction false} FilterIsSelect<T>(xs: seq<T>, p: T -> bool)
    ensures Filter(xs, p) == Select(xs, Flags(xs, p))
    decreases |xs|
  {
    if xs != [] {
      var n := |xs| - 1;
      FilterIsSelect(xs[..n], p);
      assert Flags(xs, p)[..n] == Flags(xs[..n], p);
    }
  }

  lemma FilterSubsequence<T>(xs: seq<T>, p: T -> bool)
    ensures IsSubsequence(Filter(xs, p), xs)
  {
    FilterIsSelect(xs, p);
  }

  lemma {:induction false} FilterMembers<T>(xs: seq<T>, p: T -> bool, y: T)
    ensures y in Filter(xs, p) <==> y in xs && p(y)
    decreases |xs|
  {
    if xs != [] {
      var n := |xs| - 1;
      FilterMembers(xs[..n], p, y);
      assert xs == xs[..n] + [xs[n]];
    }
  }

  /** Filtering changes nothing when every element passes. */
  lemma {:induction false} FilterKeepsAll<T>(xs: seq<T>, p: T -> bool)
    requires forall x :: x in xs ==> p(x)
    ensures Filter(xs, p) == xs
    decreases |xs|
  {
    if xs != [] {
      var n := |xs| - 1;
      assert xs == xs[..n] + [xs[n]];
      FilterKeepsAll(xs[..n], p);
    }
  }

  /** Filtering distributes over concatenation. */
  lemma {:induction false} FilterAppend<T>(xs: seq<T>, ys: seq<T>, p: T -> bool)
    ensures Filter(xs + ys, p) == Filter(xs, p) + Filter(ys, p)
    decreases |ys|
  {
    if ys == [] {
      assert xs + ys == xs;
    } else {
      var n := |ys| - 1;
      FilterAppend(xs, ys[..n], p);
      assert (xs + ys)[..|xs + ys| - 1] == xs + ys[..n];
    }
  }

  /** Appending one element to the longer sequence, and optionally to the shorter, keeps a subsequence. */
  lemma SubsequenceExtend<T>(a: seq<T>, b: seq<T>, x: T, both: bool)
    requires IsSubsequence(a, b)
    ensures IsSubsequence(if both then a + [x] else a, b + [x])
  {
    var k :| |k| == |b| && Select(b, k) == a;
    var xs := b + [x];
    var keep := k + [both];
    assert xs[..|xs| - 1] == b && keep[..|keep| - 1] == k;
    assert xs[|xs| - 1] == x && keep[|keep| - 1] == both;
    assert Select(xs, keep) == Select(b, k) + (if both then [x] else []);
    if both {
      assert Select(xs, keep) == a + [x];
    } else {
      assert Select(xs, keep) == a + [];
      assert a + [] == a;
    }
  }

  /** Deleting from a subsequence still gives a subsequence. */
  lemma {:induction false} SubsequenceTransitive<T>(a: seq<T>, b: seq<T>, c: seq<T>)
    requires IsSubsequence(a, b) && IsSubsequence(b, c)
    ensures IsSubsequence(a, c)
    decreases |c|
  {
    var kb :| |kb| == |c| && Select(c, kb) == b;
    var ka :| |ka| == |b| && Select(b, ka) == a;
    if c == [] {
      assert Select(c, []) == a;
    } else {
      var n := |c| - 1;
      var front := Select(c[..n], kb[..n]);
      assert IsSubsequence(front, c[..n]);
      assert c == c[..n] + [c[n]];
      if kb[n] {
        var m := |b| - 1;
        assert b[..m] == front && b[m] == c[n];
        var a' := Select(front, ka[..m]);
        assert IsSubsequence(a', front);
        SubsequenceTransitive(a', front, c[..n]);
        assert a == (if ka[m] then a' + [c[n]] else a');
        SubsequenceExtend(a', c[..n], c[n], ka[m]);
      } else {
        assert b == front;
        SubsequenceTransitive(a, front, c[..n]);
        SubsequenceExtend(a, c[..n], c[n], false);
      }
    }
  }

  /** No element before position `i` has the key of the element at `i`. */
  predicate FirstAt<T, K(==)>(xs: seq<T>, key: T -> K, i: nat)
    requires i < |xs|
  {
    forall j :: 0 <= j < i ==> key(xs[j]) != key(xs[i])
  }

  /** Flags the first element of each key. */
  function FirstMask<T, K(==)>(xs: seq<T>, key: T -> K): (m: seq<bool>)
    ensures |m| == |xs|
    ensures forall i :: 0 <= i < |xs| ==> m[i] == FirstAt(xs, key, i)
  {
    seq(|xs|, i requires 0 <= i < |xs| => FirstAt(xs, key, i))
  }

  /** pandas `drop_duplicates(keep="first")`: the first element of each key, in order. */
  function DistinctBy<T, K(==)>(xs: seq<T>, key: T -> K): (ys: seq<T>)
    ensures |ys| <= |xs|
  {
    Select(xs, FirstMask(xs, key))
  }

  lemma FirstMaskPrefix<T, K>(xs: seq<T>, key: T -> K, n: nat)
    requires n <= |xs|
    ensures FirstMask(xs, key)[..n] == FirstMask(xs[..n], key)
  {
  }

  /** An element is kept exactly when it occurs at a position that no earlier element shares the key of. */
  lemma DistinctByMembers<T, K>(xs: seq<T>, key: T -> K, y: T)
    ensures y in DistinctBy(xs, key) <==>
      exists i :: 0 <= i < |xs| && xs[i] == y && FirstAt(xs, key, i)
  {
    SelectMembers(xs, FirstMask(xs, key), y);
  }

  /** The kept elements have pairwise distinct keys. */
  lemma {:induction false} DistinctByKeys<T, K>(xs: seq<T>, key: T -> K)
    ensures var ys := DistinctBy(xs, key);
      forall i, j :: 0 <= i < j < |ys| ==> key(ys[i]) != key(ys[j])
    decreases |xs|
  {
    if xs != [] {
      var n := |xs| - 1;
      var m := FirstMask(xs, key);
      DistinctByKeys(xs[..n], key);
      FirstMaskPrefix(xs, key, n);
      var front := DistinctBy(xs[..n], key);
      if m[n] {
        var ys := front + [xs[n]];
        forall i | 0 <= i < |front| ensures key(front[i]) != key(xs[n]) {
          SelectMembers(xs[..n], m[..n], front[i]);
          var k :| 0 <= k < n && m[..n][k] && xs[..n][k] == front[i];
          assert FirstAt(xs, key, n);
        }
        assert forall i :: 0 <= i < |front| ==> ys[i] == front[i];
      }
    }
  }

  /** Every key of the input is the key of some kept element. */
  lemma {:induction false} DistinctByCovers<T, K>(xs: seq<T>, key: T -> K, i: nat)
    requires i < |xs|
    ensures exists y :: y in DistinctBy(xs, key) && key(y) == key(xs[i])
    decreases i
  {
    var m := FirstMask(xs, key);
    if m[i] {
      SelectMembers(xs, m, xs[i]);
    } else {
      assert !FirstAt(xs, key, i);
      var j :| 0 <= j < i && key(xs[j]) == key(xs[i]);
      DistinctByCovers(xs, key, j);
    }
  }

  /** How many elements of `xs` satisfy `p`. */
  function Count<T>(xs: seq<T>, p: T -> bool): (n: nat)
    ensures n <= |xs|
  {
    |Filter(xs, p)|
  }

  /** Every element goes to exactly one of two complementary filters. */
  lemma {:induction false} FilterComplement<T>(xs: seq<T>, p: T -> bool, q: T -> bool)
    requires forall x :: q(x) <==> !p(x)
    ensures |Filter(xs, p)| + |Filter(xs, q)| == |xs|
  {
    if xs != [] {
      FilterComplement(xs[..|xs| - 1], p, q);
    }
  }

  /** The distinct elements of a sequence. */
  function Elements<T>(xs: seq<T>): set<T>
  {
    set x | x in xs
  }

  /** A sequence has at least as many positions as distinct elements, and none only when empty. */
  lemma {:induction false} ElementsAtMostLength<T>(xs: seq<T>)
    ensures |Elements(xs)| <= |xs|
    ensures |Elements(xs)| == 0 <==> xs == []
  {
    if xs != [] {
      var front := xs[..|xs| - 1];
      ElementsAtMostLength(front);
      assert Elements(xs) == Elements(front) + {xs[|xs| - 1]};
      assert xs[|xs| - 1] in Elements(xs);
    }
  }

  /** Python's `s[:n]`: a negative `n` counts from the end, and the bound is clamped to the length. */
  function PyPrefix<T>(s: seq<T>, n: int): (r: seq<T>)
    ensures |r| == (if n >= 0 then Min(n, |s|) else Max(0, |s| + n))
    ensures r == s[..|r|]
  {
    if n >= 0 then s[..Min(n, |s|)] else s[..Max(0, |s| + n)]
  }

  /** Python's `s.startswith(prefix)` on strings. */
  predicate StartsWith(s: string, prefix: string)
  {
    |prefix| <= |s| && s[..|prefix|] == prefix
  }

  /** `kw` occurs in `s` at some position at or after `i`. */
  predicate ContainsFrom(s: string, kw: string, i: nat)
    decreases |s| - i
  {
    i + |kw| <= |s| && (StartsWith(s[i..], kw) || ContainsFrom(s, kw, i + 1))
  }

  /** Python's `kw in s` on strings. */
  predicate Contains(s: string, kw: string)
  {
    ContainsFrom(s, kw, 0)
  }

  /** Python's `any(kw in s for kw in keywords)`. */
  predicate ContainsAny(s: string, keywords: seq<string>)
  {
    exists k :: 0 <= k < |keywords| && Contains(s, keywords[k])
  }

  /** A keyword with a character that `s` lacks does not occur in `s` at or after `i`. */
  lemma {:induction false} MissingCharacterFrom(s: string, kw: string, c: char, i: nat)
    requires c in kw && c !in s
    ensures !ContainsFrom(s, kw, i)
    decreases |s| - i
  {
    if i + |kw| <= |s| {
      MissingCharacterFrom(s, kw, c, i + 1);
    }
  }

  /** A keyword with a character that `s` lacks does not occur in `s`. */
  lemma MissingCharacter(s: string, kw: string, c: char)
    requires c in kw && c !in s
    ensures !Contains(s, kw)
  {
    MissingCharacterFrom(s, kw, c, 0);
  }

  /** A string that equals a keyword contains it. */
  lemma ContainsItself(s: string)
    ensures Contains(s, s)
  {
    assert s[0..] == s;
    assert StartsWith(s[0..], s);
  }

  /** A non-empty keyword does not occur in the empty string. */
  lemma NothingInEmpty(kw: string)
    requires kw != ""
    ensures !Contains("", kw)
  {
  }

  /** Python's `", ".join(parts)`. */
  function Join(sep: string, parts: seq<string>): string
  {
    if parts == [] then ""
    else if |parts| == 1 then parts[0]
    else Join(sep, parts[..|parts| - 1]) + sep + parts[|parts| - 1]
  }
}
