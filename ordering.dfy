/** Sequence operations behind the queries and list rewrites of the app: `filter` (SQL
    `WHERE`, `Array#filter`), `ORDER BY` as a stable insertion sort over the rows' insertion
    order, and `LIMIT`. */
module Ordering {
  import opened Results

  /** The elements of `s` satisfying `p`, in their original order. */
  function Filter<T(==,!new)>(s: seq<T>, p: T -> bool): (r: seq<T>)
    ensures |r| <= |s|
    ensures forall x :: x in r <==> x in s && p(x)
    ensures forall i :: 0 <= i < |r| ==> p(r[i])
  {
    if s == [] then []
    else if p(s[0]) then [s[0]] + Filter(s[1..], p)
    else Filter(s[1..], p)
  }

  lemma {:induction false} FilterAppend<T(!new)>(s: seq<T>, t: seq<T>, p: T -> bool)
    ensures Filter(s + t, p) == Filter(s, p) + Filter(t, p)
  {
    if s == [] {
      assert s + t == t;
    } else {
      assert (s + t)[0] == s[0];
      assert (s + t)[1..] == s[1..] + t;
      FilterAppend(s[1..], t, p);
    }
  }

  /** Filtering a sequence whose every element passes changes nothing. */
  lemma {:induction false} FilterKeepsAll<T(!new)>(s: seq<T>, p: T -> bool)
    requires forall i :: 0 <= i < |s| ==> p(s[i])
    ensures Filter(s, p) == s
  {
    if s != [] {
      FilterKeepsAll(s[1..], p);
    }
  }

  /** Two filters in a row are one filter by the conjunction. */
  lemma {:induction false} FilterTwice<T(!new)>(s: seq<T>, p: T -> bool, q: T -> bool, both: T -> bool)
    requires forall x :: both(x) == (p(x) && q(x))
    ensures Filter(Filter(s, p), q) == Filter(s, both)
  {
    if s != [] {
      FilterTwice(s[1..], p, q, both);
      var once := Filter(s[1..], p);
      if p(s[0]) {
        assert Filter(s, p) == [s[0]] + once;
        assert ([s[0]] + once)[0] == s[0] && ([s[0]] + once)[1..] == once;
        assert Filter(Filter(s, p), q) == (if q(s[0]) then [s[0]] + Filter(once, q) else Filter(once, q));
      } else {
        assert Filter(s, p) == once;
        assert !both(s[0]);
      }
    }
  }

  /** `r` can be obtained from `s` by deleting elements, keeping the order of the rest. */
  ghost predicate IsSubsequence<T>(r: seq<T>, s: seq<T>)
    decreases |s|
  {
    if r == [] then true
    else if s == [] then false
    else (r[0] == s[0] && IsSubsequence(r[1..], s[1..])) || IsSubsequence(r, s[1..])
  }

  lemma {:induction false} FilterIsSubsequence<T(!new)>(s: seq<T>, p: T -> bool)
    ensures IsSubsequence(Filter(s, p), s)
  {
    if s != [] {
      FilterIsSubsequence(s[1..], p);
      var rest := Filter(s[1..], p);
      if p(s[0]) {
        assert Filter(s, p) == [s[0]] + rest;
        assert ([s[0]] + rest)[0] == s[0] && ([s[0]] + rest)[1..] == rest;
      } else {
        assert Filter(s, p) == rest;
      }
    }
  }

  /** `le` is total and transitive, as every `ORDER BY` key comparison is. */
  ghost predicate TotalPreorder<T(!new)>(le: (T, T) -> bool) {
    && (forall a, b :: le(a, b) || le(b, a))
    && (forall a, b, c :: le(a, b) && le(b, c) ==> le(a, c))
  }

  ghost predicate SortedBy<T>(s: seq<T>, le: (T, T) -> bool) {
    forall i, j :: 0 <= i < j < |s| ==> le(s[i], s[j])
  }

  /** Puts `x` before the first element it is not after. */
  function Insert<T(==,!new)>(x: T, s: seq<T>, le: (T, T) -> bool): (r: seq<T>)
    ensures multiset(r) == multiset(s) + multiset{x}
    ensures |r| == |s| + 1
  {
    if s == [] then [x]
    else if le(x, s[0]) then [x] + s
    else
      var r := [s[0]] + Insert(x, s[1..], le);
      assert s == [s[0]] + s[1..];
      r
  }

  lemma {:induction false} InsertSorted<T(!new)>(x: T, s: seq<T>, le: (T, T) -> bool)
    requires TotalPreorder(le) && SortedBy(s, le)
    ensures SortedBy(Insert(x, s, le), le)
  {
    if s == [] {
    } else if le(x, s[0]) {
      var r := Insert(x, s, le);
      forall i, j | 0 <= i < j < |r| ensures le(r[i], r[j]) {
        if i == 0 && j > 1 {
          assert le(s[0], s[j - 1]);
        }
      }
    } else {
      var tail := Insert(x, s[1..], le);
      InsertSorted(x, s[1..], le);
      var r := Insert(x, s, le);
      assert r == [s[0]] + tail;
      forall j | 0 < j < |r| ensures le(s[0], r[j]) {
        assert r[j] in multiset(tail);
        if r[j] != x {
          assert r[j] in s[1..];
          var k :| 0 <= k < |s[1..]| && s[1..][k] == r[j];
          assert s[k + 1] == r[j];
        }
      }
    }
  }

  lemma InsertKeepsSorted<T(!new)>(x: T, s: seq<T>, le: (T, T) -> bool)
    ensures TotalPreorder(le) && SortedBy(s, le) ==> SortedBy(Insert(x, s, le), le)
  {
    if TotalPreorder(le) && SortedBy(s, le) {
      InsertSorted(x, s, le);
    }
  }

  /** `ORDER BY le`: a sorted permutation of `s`; rows with equal keys keep their order. */
  function SortBy<T(==,!new)>(s: seq<T>, le: (T, T) -> bool): (r: seq<T>)
    ensures multiset(r) == multiset(s) && |r| == |s|
    ensures TotalPreorder(le) ==> SortedBy(r, le)
  {
    if s == [] then []
    else
      var rest := SortBy(s[1..], le);
      assert s == [s[0]] + s[1..];
      InsertKeepsSorted(s[0], rest, le);
      Insert(s[0], rest, le)
  }

  /** Sorting keeps exactly the elements of the input. */
  lemma SortByMembers<T(!new)>(s: seq<T>, le: (T, T) -> bool, x: T)
    ensures x in SortBy(s, le) <==> x in s
  {
    assert x in SortBy(s, le) <==> x in multiset(SortBy(s, le));
  }

  /** `s.map(f)` for an element rewrite. */
  function MapSeq<T>(s: seq<T>, f: T -> T): (r: seq<T>)
    ensures |r| == |s|
    ensures forall i :: 0 <= i < |s| ==> r[i] == f(s[i])
  {
    seq(|s|, i requires 0 <= i < |s| => f(s[i]))
  }

  /** A rewrite that keeps every sort key commutes with insertion ... */
  lemma {:induction false} InsertMap<T(!new)>(x: T, s: seq<T>, le: (T, T) -> bool, f: T -> T)
    requires forall a, b :: le(f(a), f(b)) == le(a, b)
    ensures Insert(f(x), MapSeq(s, f), le) == MapSeq(Insert(x, s, le), f)
  {
    if s == [] {
    } else if le(x, s[0]) {
      assert MapSeq(s, f)[0] == f(s[0]);
      assert MapSeq([x] + s, f) == [f(x)] + MapSeq(s, f);
    } else {
      assert MapSeq(s, f)[0] == f(s[0]);
      assert MapSeq(s, f)[1..] == MapSeq(s[1..], f);
      InsertMap(x, s[1..], le, f);
      assert MapSeq([s[0]] + Insert(x, s[1..], le), f) == [f(s[0])] + MapSeq(Insert(x, s[1..], le), f);
    }
  }

  /** ... and so with sorting: rewriting then sorting is sorting then rewriting. */
  lemma {:induction false} SortByMap<T(!new)>(s: seq<T>, le: (T, T) -> bool, f: T -> T)
    requires forall a, b :: le(f(a), f(b)) == le(a, b)
    ensures SortBy(MapSeq(s, f), le) == MapSeq(SortBy(s, le), f)
  {
    if s != [] {
      var m := MapSeq(s, f);
      assert m[0] == f(s[0]);
      assert m[1..] == MapSeq(s[1..], f);
      SortByMap(s[1..], le, f);
      InsertMap(s[0], SortBy(s[1..], le), le, f);
    }
  }

  /** SQL `LIMIT n`: at most the first `n` rows; a negative limit means no limit (SQLite). */
  function Limit<T>(s: seq<T>, n: int): (r: seq<T>)
    ensures n < 0 ==> r == s
    ensures 0 <= n ==> |r| == if n < |s| then n else |s|
    ensures r == s[..|r|]
  {
    if n < 0 || |s| <= n then s else s[..n]
  }

  /** A prefix keeps the order and takes nothing the whole does not hold. */
  lemma LimitKeeps<T>(s: seq<T>, n: int, le: (T, T) -> bool)
    ensures SortedBy(s, le) ==> SortedBy(Limit(s, n), le)
    ensures multiset(Limit(s, n)) <= multiset(s)
  {
    var r := Limit(s, n);
    assert s == r + s[|r|..];
  }

  /** `LIMIT` on a sorted listing keeps the least rows: every kept row is ordered before
      every dropped one. */
  lemma LimitKeepsLeast<T>(s: seq<T>, n: int, le: (T, T) -> bool, x: T, h: T)
    requires SortedBy(s, le)
    requires x in Limit(s, n) && h in multiset(s) - multiset(Limit(s, n))
    ensures le(x, h)
  {
    var r := Limit(s, n);
    var t := s[|r|..];
    assert s == r + t;
    assert multiset(s) - multiset(r) == multiset(t);
    var i :| 0 <= i < |r| && r[i] == x;
    var j :| 0 <= j < |t| && t[j] == h;
    assert s[i] == x && s[|r| + j] == h;
  }

  /** Appending one element to a concatenation appends it to the second part. */
  lemma AppendOne<T>(a: seq<T>, b: seq<T>, x: T)
    ensures (a + b) + [x] == a + (b + [x])
  {
  }

  /** `Array.prototype.find`: the first element satisfying `p`, if any. */
  function FirstWhere<T>(s: seq<T>, p: T -> bool): (r: Option<T>)
    ensures r.Some? ==> r.value in s && p(r.value)
    ensures r.None? <==> forall x :: x in s ==> !p(x)
  {
    if s == [] then None
    else if p(s[0]) then Some(s[0])
    else FirstWhere(s[1..], p)
  }

  /** What `find` returns comes before every other element satisfying `p`. */
  lemma {:induction false} FirstWhereIsFirst<T>(s: seq<T>, p: T -> bool) returns (k: nat)
    requires FirstWhere(s, p).Some?
    ensures k < |s| && s[k] == FirstWhere(s, p).value
    ensures forall j :: 0 <= j < k ==> !p(s[j])
  {
    if p(s[0]) {
      k := 0;
    } else {
      var k' := FirstWhereIsFirst(s[1..], p);
      k := k' + 1;
      assert forall j :: 1 <= j < k ==> s[j] == s[1..][j - 1];
    }
  }
}
