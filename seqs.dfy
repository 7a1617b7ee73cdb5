/** Sequence helpers shared by the constraint engine and the planner store:
    the `filter` of the source's array code, and the subsequence relation. */
module Seqs {

  /** The elements of `s` that satisfy `p`, in their original order. */
  function Filter<T>(s: seq<T>, p: T -> bool): (r: seq<T>)
    ensures |r| <= |s|
    ensures forall x :: x in r ==> x in s && p(x)
  {
    if s == [] then [] else (if p(s[0]) then [s[0]] else []) + Filter(s[1..], p)
  }

  /** No element occurs twice. */
  predicate Distinct<T(==)>(s: seq<T>) {
    forall i, j :: 0 <= i < j < |s| ==> s[i] != s[j]
  }

  /** `a` can be obtained from `b` by deleting elements. */
  predicate IsSubsequence<T(==)>(a: seq<T>, b: seq<T>)
    decreases |b|
  {
    a == [] || (b != [] && ((a[0] == b[0] && IsSubsequence(a[1..], b[1..])) || IsSubsequence(a, b[1..])))
  }

  lemma {:induction false} FilterConcat<T>(a: seq<T>, b: seq<T>, p: T -> bool)
    ensures Filter(a + b, p) == Filter(a, p) + Filter(b, p)
  {
    if a == [] {
      assert a + b == b;
    } else {
      assert (a + b)[0] == a[0];
      assert (a + b)[1..] == a[1..] + b;
      FilterConcat(a[1..], b, p);
    }
  }

  lemma FilterAppend<T>(s: seq<T>, x: T, p: T -> bool)
    ensures Filter(s + [x], p) == Filter(s, p) + (if p(x) then [x] else [])
  {
    FilterConcat(s, [x], p);
    assert [x][1..] == [];
  }

  /** Filtering keeps every occurrence of a satisfying element and drops every
      occurrence of the others. */
  lemma {:induction false} FilterCount<T>(s: seq<T>, p: T -> bool, x: T)
    ensures multiset(Filter(s, p))[x] == if p(x) then multiset(s)[x] else 0
  {
    if s != [] {
      FilterCount(s[1..], p, x);
      assert s == [s[0]] + s[1..];
    }
  }

  lemma {:induction false} FilterIsSubsequence<T>(s: seq<T>, p: T -> bool)
    ensures IsSubsequence(Filter(s, p), s)
  {
    if s != [] {
      FilterIsSubsequence(s[1..], p);
      if p(s[0]) {
        assert Filter(s, p)[0] == s[0] && Filter(s, p)[1..] == Filter(s[1..], p);
      } else {
        assert Filter(s, p) == Filter(s[1..], p);
      }
    }
  }

  /** Filtering by `p` and then by `q` is filtering once by their conjunction. */
  lemma {:induction false} FilterFilter<T>(s: seq<T>, p: T -> bool, q: T -> bool, r: T -> bool)
    requires forall x :: r(x) == (p(x) && q(x))
    ensures Filter(Filter(s, p), q) == Filter(s, r)
  {
    if s != [] {
      FilterFilter(s[1..], p, q, r);
      if p(s[0]) {
        assert Filter(s, p) == [s[0]] + Filter(s[1..], p);
        assert Filter(s, p)[0] == s[0] && Filter(s, p)[1..] == Filter(s[1..], p);
      } else {
        assert Filter(s, p) == Filter(s[1..], p);
      }
    }
  }

  /** A filter that every element passes changes nothing. */
  lemma {:induction false} FilterAll<T>(s: seq<T>, p: T -> bool)
    requires forall i :: 0 <= i < |s| ==> p(s[i])
    ensures Filter(s, p) == s
  {
    if s != [] {
      FilterAll(s[1..], p);
    }
  }

  lemma {:induction false} SubsequenceOfItself<T>(s: seq<T>)
    ensures IsSubsequence(s, s)
  {
    if s != [] {
      SubsequenceOfItself(s[1..]);
    }
  }

  lemma {:induction false} SubsequenceTransitive<T>(a: seq<T>, b: seq<T>, c: seq<T>)
    requires IsSubsequence(a, b) && IsSubsequence(b, c)
    ensures IsSubsequence(a, c)
    decreases |c|
  {
    if a != [] {
      assert b != [] && c != [];
      if IsSubsequence(b, c[1..]) {
        SubsequenceTransitive(a, b, c[1..]);
      } else {
        assert b[0] == c[0] && IsSubsequence(b[1..], c[1..]);
        if a[0] == b[0] && IsSubsequence(a[1..], b[1..]) {
          SubsequenceTransitive(a[1..], b[1..], c[1..]);
        } else {
          SubsequenceTransitive(a, b[1..], c[1..]);
        }
      }
    }
  }
  lemma DistinctPrefix<T>(s: seq<T>)
    requires Distinct(s) && s != []
    ensures Distinct(s[..|s| - 1]) && s[|s| - 1] !in s[..|s| - 1]
  {
  }

  lemma InSplit<T>(s: seq<T>, x: T)
    requires s != []
    ensures x in s <==> x in s[..|s| - 1] || x == s[|s| - 1]
  {
    assert s == s[..|s| - 1] + [s[|s| - 1]];
  }

  lemma SameCounts<T>(a: seq<T>, b: seq<T>)
    requires forall x :: multiset(a)[x] == multiset(b)[x]
    ensures multiset(a) == multiset(b)
  {
  }

  lemma NoCounts<T>(a: seq<T>)
    requires forall x :: multiset(a)[x] == 0
    ensures a == []
  {
    assert a != [] ==> multiset(a)[a[0]] > 0;
  }

  lemma ConcatWithEmpty<T>(a: seq<T>, b: seq<T>, c: seq<T>)
    ensures b == [] && c == [] ==> a + b + c == a
    ensures a == [] && c == [] ==> a + b + c == b
    ensures a == [] && b == [] ==> a + b + c == c
  {
  }

  lemma ConcatAssociative<T>(w: seq<T>, a: seq<T>, b: seq<T>, c: seq<T>)
    ensures w + a + b + c == w + (a + b + c)
  {
  }

  /** The distinct elements of `s` in the order of their first occurrence. */
  function Dedup<T(==)>(s: seq<T>): seq<T> {
    if s == [] then []
    else
      var r := Dedup(s[..|s| - 1]);
      if s[|s| - 1] in r then r else r + [s[|s| - 1]]
  }

  lemma DedupAppend<T>(s: seq<T>, x: T)
    ensures Dedup(s + [x]) == if x in Dedup(s) then Dedup(s) else Dedup(s) + [x]
  {
    assert (s + [x])[..|s|] == s;
  }

  lemma {:induction false} DedupDistinct<T>(s: seq<T>)
    ensures Distinct(Dedup(s))
  {
    if s != [] {
      DedupDistinct(s[..|s| - 1]);
    }
  }

  /** Deduplication keeps exactly the elements of `s`. */
  lemma {:induction false} DedupMember<T>(s: seq<T>, x: T)
    ensures x in Dedup(s) <==> x in s
  {
    if s != [] {
      DedupMember(s[..|s| - 1], x);
      assert s == s[..|s| - 1] + [s[|s| - 1]];
    }
  }

  /** First-occurrence order: if `Dedup(s)[i]` comes before `Dedup(s)[j]`,
      an occurrence of the former precedes every occurrence of the latter. */
  lemma {:induction false} DedupFirstSeen<T>(s: seq<T>, i: int, j: int, q: int)
    requires 0 <= i < j < |Dedup(s)|
    requires 0 <= q < |s| && s[q] == Dedup(s)[j]
    ensures exists p :: 0 <= p < q && s[p] == Dedup(s)[i]
    decreases |s|
  {
    var n := |s| - 1;
    var init := s[..n];
    var r := Dedup(init);
    DedupDistinct(s);
    if s[n] !in r {
      assert Dedup(s) == r + [s[n]];
      if q == n {
        // s[n] opened bucket j = |r|, so entry i is older
        assert Dedup(s)[|r|] == s[n];
        assert j == |r|;
        assert Dedup(s)[i] == r[i] && r[i] in r;
        DedupMember(init, r[i]);
        var p :| 0 <= p < n && init[p] == Dedup(s)[i];
        assert s[p] == init[p];
      } else {
        assert s[q] == init[q];
        DedupMember(init, s[q]);
        assert j < |r|;
        DedupFirstSeen(init, i, j, q);
        var p :| 0 <= p < q && init[p] == r[i];
        assert s[p] == init[p];
      }
    } else {
      assert Dedup(s) == r;
      if q == n {
        DedupMember(init, s[n]);
        var q' :| 0 <= q' < n && init[q'] == r[j];
        DedupFirstSeen(init, i, j, q');
        var p :| 0 <= p < q' && init[p] == r[i];
        assert s[p] == init[p];
      } else {
        assert s[q] == init[q];
        DedupFirstSeen(init, i, j, q);
        var p :| 0 <= p < q && init[p] == r[i];
        assert s[p] == init[p];
      }
    }
  }
  /** `s.map(x => p(x) ? f(x) : x)`: the elements satisfying `p` replaced by
      their image under `f`, the others kept, positions unchanged. */
  function MapWhere<T>(s: seq<T>, p: T -> bool, f: T -> T): (r: seq<T>)
    ensures |r| == |s|
    ensures forall i :: 0 <= i < |s| ==> r[i] == if p(s[i]) then f(s[i]) else s[i]
  {
    if s == [] then [] else [if p(s[0]) then f(s[0]) else s[0]] + MapWhere(s[1..], p, f)
  }

  /** Rewriting twice is rewriting once when `f` settles what it rewrites. */
  lemma MapWhereIdempotent<T>(s: seq<T>, p: T -> bool, f: T -> T)
    requires forall x :: p(x) && p(f(x)) ==> f(f(x)) == f(x)
    ensures MapWhere(MapWhere(s, p, f), p, f) == MapWhere(s, p, f)
  {
    var r := MapWhere(s, p, f);
    var rr := MapWhere(r, p, f);
    forall i | 0 <= i < |s|
      ensures rr[i] == r[i]
    {
      if p(s[i]) {
        assert r[i] == f(s[i]);
      }
    }
  }
}
