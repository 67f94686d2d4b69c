/** Sequence combinators shared by the views: the `Array.prototype.filter`
    of JavaScript, subsequences, and duplicate-free sequences. */
module Sequences {

  /** `s.filter(p)`: the elements of `s` that satisfy `p`, in their order. */
  function Filter<T>(s: seq<T>, p: T -> bool): (r: seq<T>)
    ensures |r| <= |s|
    ensures forall k :: 0 <= k < |r| ==> p(r[k])
    decreases |s|
  {
    if s == [] then []
    else if p(s[0]) then [s[0]] + Filter(s[1..], p)
    else Filter(s[1..], p)
  }

  /** `a` is obtained from `b` by deleting elements, without reordering. */
  predicate IsSubsequence<T(==)>(a: seq<T>, b: seq<T>)
    decreases |b|
  {
    a == [] ||
    (b != [] &&
     ((a[0] == b[0] && IsSubsequence(a[1..], b[1..])) || IsSubsequence(a, b[1..])))
  }

  predicate NoDuplicates<T(==)>(s: seq<T>)
  {
    forall i, j :: 0 <= i < j < |s| ==> s[i] != s[j]
  }

  /** Position of the first occurrence of `x` in `s`. */
  function IndexOf<T(==)>(s: seq<T>, x: T): (k: nat)
    requires x in s
    ensures k < |s| && s[k] == x && x !in s[..k]
    decreases |s|
  {
    if s[0] == x then 0
    else
      assert x in s[1..] by { var j :| 0 <= j < |s| && s[j] == x; assert s[1..][j - 1] == x; }
      var k := 1 + IndexOf(s[1..], x);
      assert s[..k] == [s[0]] + s[1..][..k - 1];
      k
  }

  lemma {:induction false} FilterIsSubsequence<T>(s: seq<T>, p: T -> bool)
    ensures IsSubsequence(Filter(s, p), s)
    decreases |s|
  {
    if s != [] {
      FilterIsSubsequence(s[1..], p);
      if p(s[0]) {
        assert Filter(s, p)[1..] == Filter(s[1..], p);
      }
    }
  }

  /** Filtering keeps every satisfying occurrence and drops every other one:
      nothing is added, duplicated or lost. */
  lemma {:induction false} FilterCounts<T>(s: seq<T>, p: T -> bool, x: T)
    ensures multiset(Filter(s, p))[x] == if p(x) then multiset(s)[x] else 0
    decreases |s|
  {
    if s != [] {
      FilterCounts(s[1..], p, x);
      assert s == [s[0]] + s[1..];
      assert multiset(s) == multiset{s[0]} + multiset(s[1..]);
    }
  }

  lemma FilterMembership<T>(s: seq<T>, p: T -> bool, x: T)
    ensures x in Filter(s, p) <==> x in s && p(x)
  {
    FilterCounts(s, p, x);
    assert x in Filter(s, p) <==> multiset(Filter(s, p))[x] > 0;
    assert x in s <==> multiset(s)[x] > 0;
  }

  /** Filters by predicates that agree everywhere agree. */
  lemma {:induction false} FilterAgrees<T>(s: seq<T>, p: T -> bool, q: T -> bool)
    requires forall x :: p(x) == q(x)
    ensures Filter(s, p) == Filter(s, q)
    decreases |s|
  {
    if s != [] {
      FilterAgrees(s[1..], p, q);
    }
  }

  /** Filtering by `p` and then by `q` is filtering once by their
      conjunction `pq`. */
  lemma {:induction false} FilterFusion<T>(s: seq<T>, p: T -> bool, q: T -> bool, pq: T -> bool)
    requires forall x :: pq(x) == (p(x) && q(x))
    ensures Filter(Filter(s, p), q) == Filter(s, pq)
    decreases |s|
  {
    if s != [] {
      FilterFusion(s[1..], p, q, pq);
      if p(s[0]) {
        assert Filter(s, p) == [s[0]] + Filter(s[1..], p);
        assert ([s[0]] + Filter(s[1..], p))[1..] == Filter(s[1..], p);
      }
    }
  }

  /** A filter whose predicate holds throughout changes nothing. */
  lemma {:induction false} FilterAll<T>(s: seq<T>, p: T -> bool)
    requires forall k :: 0 <= k < |s| ==> p(s[k])
    ensures Filter(s, p) == s
    decreases |s|
  {
    if s != [] {
      FilterAll(s[1..], p);
      assert s == [s[0]] + s[1..];
    }
  }

  lemma {:induction false} FilterConcat<T>(a: seq<T>, b: seq<T>, p: T -> bool)
    ensures Filter(a + b, p) == Filter(a, p) + Filter(b, p)
    decreases |a|
  {
    if a != [] {
      FilterConcat(a[1..], b, p);
      assert (a + b)[1..] == a[1..] + b;
    } else {
      assert a + b == b;
    }
  }

  /** `Array.from(new Set(s))` with `seen` already in the set: the elements
      of `s` not yet seen, each once, in order of first occurrence. */
  function Dedup<T(==)>(s: seq<T>, seen: set<T>): seq<T>
    decreases |s|
  {
    if s == [] then []
    else if s[0] in seen then Dedup(s[1..], seen)
    else [s[0]] + Dedup(s[1..], seen + {s[0]})
  }

  lemma {:induction false} DedupMembers<T>(s: seq<T>, seen: set<T>)
    ensures forall x :: x in Dedup(s, seen) ==> x in s && x !in seen
    ensures forall x :: x in s && x !in seen ==> x in Dedup(s, seen)
    decreases |s|
  {
    if s != [] {
      assert s == [s[0]] + s[1..];
      if s[0] in seen {
        DedupMembers(s[1..], seen);
      } else {
        DedupMembers(s[1..], seen + {s[0]});
      }
    }
  }

  lemma {:induction false} DedupNoDuplicates<T>(s: seq<T>, seen: set<T>)
    ensures NoDuplicates(Dedup(s, seen))
    decreases |s|
  {
    if s != [] {
      if s[0] in seen {
        DedupNoDuplicates(s[1..], seen);
      } else {
        DedupNoDuplicates(s[1..], seen + {s[0]});
        DedupMembers(s[1..], seen + {s[0]});
        var r := Dedup(s, seen);
        assert forall j :: 1 <= j < |r| ==> r[j] in Dedup(s[1..], seen + {s[0]});
      }
    }
  }

  /** Two kept elements appear in the order of their first occurrences. */
  lemma {:induction false} DedupOrder<T>(s: seq<T>, seen: set<T>)
    ensures var r := Dedup(s, seen);
      forall i, j :: 0 <= i < j < |r| ==> r[i] in s && r[j] in s && IndexOf(s, r[i]) < IndexOf(s, r[j])
    decreases |s|, 1
  {
    if s != [] {
      var r := Dedup(s, seen);
      assert s == [s[0]] + s[1..];
      if s[0] in seen {
        DedupTail(s, seen);
      } else {
        var t := Dedup(s[1..], seen + {s[0]});
        DedupTail(s, seen + {s[0]});
        assert r == [s[0]] + t;
        forall i, j | 0 <= i < j < |r| ensures r[i] in s && r[j] in s && IndexOf(s, r[i]) < IndexOf(s, r[j]) {
          assert r[j] == t[j - 1];
          if i > 0 { assert r[i] == t[i - 1]; }
        }
      }
    }
  }

  /** The step of `DedupOrder`: after the head, positions in `s` are one
      more than positions in its tail. */
  lemma {:induction false} DedupTail<T>(s: seq<T>, seen': set<T>)
    requires s != [] && s[0] in seen'
    ensures var t := Dedup(s[1..], seen');
      && (forall x :: x in t ==> x in s && x != s[0] && IndexOf(s, x) == 1 + IndexOf(s[1..], x))
      && (forall i, j :: 0 <= i < j < |t| ==> IndexOf(s, t[i]) < IndexOf(s, t[j]))
    decreases |s|, 0
  {
    var t := Dedup(s[1..], seen');
    DedupMembers(s[1..], seen');
    DedupOrder(s[1..], seen');
    assert s == [s[0]] + s[1..];
    forall x | x in t ensures x in s && x != s[0] && IndexOf(s, x) == 1 + IndexOf(s[1..], x) {
      assert x in s[1..] && x !in seen';
    }
  }

  /** `s.filter((_, i) => i !== k)` where the first element has index
      `from`. */
  function WithoutIndexFrom<T>(s: seq<T>, k: int, from: int): seq<T>
    decreases |s|
  {
    if s == [] then []
    else (if from == k then [] else [s[0]]) + WithoutIndexFrom(s[1..], k, from + 1)
  }

  /** `s.filter((_, i) => i !== k)`. */
  function WithoutIndex<T>(s: seq<T>, k: int): seq<T>
  {
    WithoutIndexFrom(s, k, 0)
  }

  lemma {:induction false} WithoutIndexFromMiss<T>(s: seq<T>, k: int, from: int)
    requires !(from <= k < from + |s|)
    ensures WithoutIndexFrom(s, k, from) == s
    decreases |s|
  {
    if s != [] {
      WithoutIndexFromMiss(s[1..], k, from + 1);
      assert s == [s[0]] + s[1..];
    }
  }

  lemma {:induction false} WithoutIndexFromHit<T>(s: seq<T>, k: int, from: int)
    requires from <= k < from + |s|
    ensures WithoutIndexFrom(s, k, from) == s[..k - from] + s[k - from + 1..]
    decreases |s|
  {
    var t := s[1..];
    if k == from {
      WithoutIndexFromMiss(t, k, from + 1);
      assert s[..0] + s[1..] == t;
    } else {
      WithoutIndexFromHit(t, k, from + 1);
      var i := k - from;
      assert WithoutIndexFrom(s, k, from) == [s[0]] + WithoutIndexFrom(t, k, from + 1);
      assert s[..i] == [s[0]] + t[..i - 1];
      assert s[i + 1..] == t[i..];
    }
  }

  /** Removing index `k` drops exactly the element at `k` when there is
      one, keeping the others in order; any other `k` changes nothing. */
  lemma WithoutIndexSpec<T>(s: seq<T>, k: int)
    ensures 0 <= k < |s| ==> WithoutIndex(s, k) == s[..k] + s[k + 1..]
    ensures 0 <= k < |s| ==> |WithoutIndex(s, k)| == |s| - 1
    ensures !(0 <= k < |s|) ==> WithoutIndex(s, k) == s
  {
    if 0 <= k < |s| {
      WithoutIndexFromHit(s, k, 0);
    } else {
      WithoutIndexFromMiss(s, k, 0);
    }
  }
}
