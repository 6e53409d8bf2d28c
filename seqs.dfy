/** Order-preserving filtering, subsequences, counting and de-duplication of sequences:
    the list-building idioms (`new_lines.append(line)` under a condition, `if x not in xs`)
    that the hosts tools use. */
module Seqs {

  /** The elements of `s` that satisfy `keep`, in their original order. */
  function Filter<T>(s: seq<T>, keep: T -> bool): (r: seq<T>)
    ensures |r| <= |s|
    ensures forall x :: x in r ==> x in s && keep(x)
  {
    if s == [] then [] else
      var p := Filter(s[..|s| - 1], keep);
      if keep(s[|s| - 1]) then p + [s[|s| - 1]] else p
  }

  /** Number of elements of `s` that satisfy `p`. */
  function Count<T>(s: seq<T>, p: T -> bool): (n: nat)
    ensures n <= |s|
  {
    if s == [] then 0 else Count(s[..|s| - 1], p) + (if p(s[|s| - 1]) then 1 else 0)
  }

  /** `a` can be obtained from `b` by deleting elements. */
  predicate IsSubsequence<T(==)>(a: seq<T>, b: seq<T>)
    decreases |b|
  {
    if a == [] then true
    else if b == [] then false
    else if a[|a| - 1] == b[|b| - 1] then IsSubsequence(a[..|a| - 1], b[..|b| - 1])
    else IsSubsequence(a, b[..|b| - 1])
  }

  predicate NoDuplicates<T(==)>(s: seq<T>) {
    forall i, j :: 0 <= i < j < |s| ==> s[i] != s[j]
  }

  /** Index of the first occurrence of `x` in `s`. */
  function FirstIndex<T(==)>(s: seq<T>, x: T): (k: nat)
    requires x in s
    ensures k < |s| && s[k] == x && x !in s[..k]
  {
    if s[0] == x then 0 else
      assert x in s[1..];
      var k := 1 + FirstIndex(s[1..], x);
      assert s[..k] == [s[0]] + s[1..][..k - 1];
      k
  }

  /** The distinct elements of `s` in first-seen order (`if x not in out: out.append(x)`). */
  function Dedup<T(==)>(s: seq<T>): seq<T> {
    if s == [] then [] else
      var p := Dedup(s[..|s| - 1]);
      if s[|s| - 1] in p then p else p + [s[|s| - 1]]
  }

  lemma {:induction false} FilterAppend<T>(s: seq<T>, x: T, keep: T -> bool)
    ensures Filter(s + [x], keep) == Filter(s, keep) + (if keep(x) then [x] else [])
  {
    assert (s + [x])[..|s + [x]| - 1] == s;
  }

  lemma {:induction false} CountAppend<T>(s: seq<T>, x: T, p: T -> bool)
    ensures Count(s + [x], p) == Count(s, p) + (if p(x) then 1 else 0)
  {
    assert (s + [x])[..|s + [x]| - 1] == s;
  }

  lemma {:induction false} FilterConcat<T>(a: seq<T>, b: seq<T>, keep: T -> bool)
    ensures Filter(a + b, keep) == Filter(a, keep) + Filter(b, keep)
    decreases |b|
  {
    if b == [] {
      assert a + b == a;
    } else {
      var b' := b[..|b| - 1];
      assert a + b == (a + b') + [b[|b| - 1]];
      assert b == b' + [b[|b| - 1]];
      FilterConcat(a, b', keep);
      FilterAppend(a + b', b[|b| - 1], keep);
      FilterAppend(b', b[|b| - 1], keep);
    }
  }

  /** An element that passes the test survives the filter. */
  lemma {:induction false} FilterKeeps<T>(s: seq<T>, keep: T -> bool, i: int)
    requires 0 <= i < |s| && keep(s[i])
    ensures s[i] in Filter(s, keep)
    decreases |s|
  {
    var n := |s| - 1;
    FilterAppend(s[..n], s[n], keep);
    assert s == s[..n] + [s[n]];
    if i < n {
      assert s[..n][i] == s[i];
      FilterKeeps(s[..n], keep, i);
    }
  }

  /** Every element either survives the filter or is counted as dropped. */
  lemma {:induction false} FilterCount<T>(s: seq<T>, keep: T -> bool, drop: T -> bool)
    requires forall x :: drop(x) <==> !keep(x)
    ensures |Filter(s, keep)| + Count(s, drop) == |s|
  {
    if s != [] {
      FilterCount(s[..|s| - 1], keep, drop);
    }
  }

  /** The filter leaves `s` unchanged exactly when no element is dropped. */
  lemma {:induction false} FilterIdentity<T>(s: seq<T>, keep: T -> bool)
    ensures Filter(s, keep) == s <==> forall i :: 0 <= i < |s| ==> keep(s[i])
  {
    if s != [] {
      var s' := s[..|s| - 1];
      FilterIdentity(s', keep);
      assert s == s' + [s[|s| - 1]];
      if Filter(s, keep) == s && keep(s[|s| - 1]) {
        assert Filter(s', keep) == s';
      }
    }
  }

  /** Filtering keeps order: its result is a subsequence of its input. */
  lemma {:induction false} FilterIsSubsequence<T>(s: seq<T>, keep: T -> bool)
    ensures IsSubsequence(Filter(s, keep), s)
  {
    if s != [] {
      var s' := s[..|s| - 1];
      FilterIsSubsequence(s', keep);
      if keep(s[|s| - 1]) {
        var f := Filter(s, keep);
        assert f[..|f| - 1] == Filter(s', keep);
      } else {
        SubsequenceExtend(Filter(s', keep), s', s[|s| - 1]);
        assert s' + [s[|s| - 1]] == s;
      }
    }
  }

  lemma {:induction false} SubsequenceExtend<T>(a: seq<T>, b: seq<T>, x: T)
    requires IsSubsequence(a, b)
    ensures IsSubsequence(a, b + [x])
    decreases |b|, 1
  {
    var b' := b + [x];
    assert b'[..|b'| - 1] == b;
    if a != [] && a[|a| - 1] == x {
      // matching the last element of a against x instead
      SubsequenceDropLast(a, b);
    }
  }

  lemma {:induction false} SubsequenceDropLast<T>(a: seq<T>, b: seq<T>)
    requires a != [] && IsSubsequence(a, b)
    ensures IsSubsequence(a[..|a| - 1], b)
    decreases |b|, 0
  {
    var b' := b[..|b| - 1];
    if a[|a| - 1] == b[|b| - 1] {
      if a[..|a| - 1] != [] {
        SubsequenceExtend(a[..|a| - 1], b', b[|b| - 1]);
        assert b' + [b[|b| - 1]] == b;
      }
    } else {
      SubsequenceDropLast(a, b');
      if a[..|a| - 1] != [] {
        SubsequenceExtend(a[..|a| - 1], b', b[|b| - 1]);
        assert b' + [b[|b| - 1]] == b;
      }
    }
  }

  lemma {:induction false} DedupAppend<T>(s: seq<T>, x: T)
    ensures Dedup(s + [x]) == if x in Dedup(s) then Dedup(s) else Dedup(s) + [x]
  {
    assert (s + [x])[..|s + [x]| - 1] == s;
  }

  /** `Dedup` keeps each element once, keeps every element, and adds none. */
  lemma {:induction false} DedupSpec<T>(s: seq<T>)
    ensures NoDuplicates(Dedup(s))
    ensures forall k :: 0 <= k < |Dedup(s)| ==> Dedup(s)[k] in s
    ensures forall k :: 0 <= k < |s| ==> s[k] in Dedup(s)
  {
    if s != [] {
      var s' := s[..|s| - 1];
      DedupSpec(s');
      assert s == s' + [s[|s| - 1]];
      forall k | 0 <= k < |s'| ensures s'[k] == s[k] {}
    }
  }

  /** `Dedup` lists elements in the order of their first occurrences. */
  lemma {:induction false} DedupFirstSeenOrder<T>(s: seq<T>, i: nat, j: nat)
    requires i < j < |Dedup(s)|
    ensures Dedup(s)[i] in s && Dedup(s)[j] in s
    ensures FirstIndex(s, Dedup(s)[i]) < FirstIndex(s, Dedup(s)[j])
    decreases |s|
  {
    DedupSpec(s);
    var s' := s[..|s| - 1];
    var x := s[|s| - 1];
    assert s == s' + [x];
    DedupSpec(s');
    DedupAppend(s', x);
    assert Dedup(s) == Dedup(s') || Dedup(s) == Dedup(s') + [x];
    assert i < |Dedup(s')|;
    assert Dedup(s)[i] == Dedup(s')[i] && Dedup(s')[i] in s';
    FirstIndexPrefix(s', x, Dedup(s)[i]);
    if j < |Dedup(s')| {
      DedupFirstSeenOrder(s', i, j);
      assert Dedup(s)[j] == Dedup(s')[j] && Dedup(s')[j] in s';
      FirstIndexPrefix(s', x, Dedup(s)[j]);
    } else {
      // Dedup(s)[j] is x, seen for the first time at the end of s
      assert Dedup(s)[j] == x && x !in Dedup(s');
      assert x !in s';
      assert FirstIndex(s, x) == |s'| by {
        assert s[..|s'|] == s';
      }
    }
  }

  lemma {:induction false} FirstIndexPrefix<T>(s: seq<T>, x: T, y: T)
    requires y in s
    ensures y in s + [x] && FirstIndex(s + [x], y) == FirstIndex(s, y)
  {
    var t := s + [x];
    var k := FirstIndex(s, y);
    var k' := FirstIndex(t, y);
    forall a | 0 <= a < k ensures t[a] != y {
      assert s[..k][a] == t[a];
    }
    forall a | 0 <= a < k' ensures t[a] != y {
      assert t[..k'][a] == t[a];
    }
    assert t[k] == y;
    assert t[k'] == y;
  }

  lemma {:induction false} CountConcat<T>(a: seq<T>, b: seq<T>, p: T -> bool)
    ensures Count(a + b, p) == Count(a, p) + Count(b, p)
    decreases |b|
  {
    if b == [] {
      assert a + b == a;
    } else {
      var b' := b[..|b| - 1];
      assert a + b == (a + b') + [b[|b| - 1]];
      assert b == b' + [b[|b| - 1]];
      CountConcat(a, b', p);
      CountAppend(a + b', b[|b| - 1], p);
      CountAppend(b', b[|b| - 1], p);
    }
  }

  /** No element satisfies `p` exactly when none is counted. */
  lemma {:induction false} CountZero<T>(s: seq<T>, p: T -> bool)
    ensures Count(s, p) == 0 <==> forall i :: 0 <= i < |s| ==> !p(s[i])
  {
    if s != [] {
      var s' := s[..|s| - 1];
      CountZero(s', p);
      assert forall i :: 0 <= i < |s'| ==> s'[i] == s[i];
    }
  }

  /** A filter that keeps every element satisfying `p` keeps their number. */
  lemma {:induction false} CountFilterKept<T>(s: seq<T>, keep: T -> bool, p: T -> bool)
    requires forall x :: p(x) ==> keep(x)
    ensures Count(Filter(s, keep), p) == Count(s, p)
  {
    if s != [] {
      var s' := s[..|s| - 1];
      var x := s[|s| - 1];
      CountFilterKept(s', keep, p);
      if keep(x) {
        CountAppend(Filter(s', keep), x, p);
      }
    }
  }
  /** `s` around its element at `k`. */
  lemma SplitAt<T>(s: seq<T>, k: int)
    requires 0 <= k < |s|
    ensures s == s[..k] + [s[k]] + s[k + 1..]
  {
  }

  /** Extending a prefix by one element. */
  lemma TakeSnoc<T>(s: seq<T>, i: int)
    requires 0 <= i < |s|
    ensures s[..i + 1] == s[..i] + [s[i]]
  {
  }

  /** Extending a slice by one element. */
  lemma SliceSnoc<T>(s: seq<T>, a: int, i: int)
    requires 0 <= a <= i < |s|
    ensures s[a..i + 1] == s[a..i] + [s[i]]
  {
  }
}
