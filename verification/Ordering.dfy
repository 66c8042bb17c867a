/** Counting and sorting, shared by the statistics of the performance gate and
    by the sweep over start and end events. */
module Ordering {
  /** How many elements of `s` satisfy `p`. */
  function Count<T>(s: seq<T>, p: T -> bool): nat {
    if s == [] then 0 else (if p(s[0]) then 1 else 0) + Count(s[1..], p)
  }

  lemma {:induction false} CountConcat<T>(a: seq<T>, b: seq<T>, p: T -> bool)
    ensures Count(a + b, p) == Count(a, p) + Count(b, p)
  {
    if a == [] {
      assert a + b == b;
    } else {
      CountConcat(a[1..], b, p);
      assert (a + b)[1..] == a[1..] + b;
    }
  }

  /** A pointwise implication, possibly between two sequences, orders the counts. */
  lemma {:induction false} CountMonotone<T>(a: seq<T>, b: seq<T>, p: T -> bool, q: T -> bool)
    requires |a| == |b| && forall i :: 0 <= i < |a| ==> p(a[i]) ==> q(b[i])
    ensures Count(a, p) <= Count(b, q)
  {
    if a != [] {
      CountMonotone(a[1..], b[1..], p, q);
    }
  }

  lemma {:induction false} CountBounds<T>(s: seq<T>, p: T -> bool)
    ensures Count(s, p) <= |s|
    ensures (forall i :: 0 <= i < |s| ==> p(s[i])) ==> Count(s, p) == |s|
    ensures (forall i :: 0 <= i < |s| ==> !p(s[i])) ==> Count(s, p) == 0
  {
    if s != [] {
      CountBounds(s[1..], p);
    }
  }

  function Insert<T>(x: T, s: seq<T>, le: (T, T) -> bool): seq<T> {
    if s == [] || le(x, s[0]) then [x] + s else [s[0]] + Insert(x, s[1..], le)
  }

  /** Python's stable `sorted`. */
  function Sort<T>(s: seq<T>, le: (T, T) -> bool): seq<T> {
    if s == [] then [] else Insert(s[0], Sort(s[1..], le), le)
  }

  ghost predicate Sorted<T>(s: seq<T>, le: (T, T) -> bool) {
    forall i, j :: 0 <= i < j < |s| ==> le(s[i], s[j])
  }

  ghost predicate TotalOrder<T(!new)>(le: (T, T) -> bool) {
    && (forall x, y :: le(x, y) || le(y, x))
    && (forall x, y, z :: le(x, y) && le(y, z) ==> le(x, z))
  }

  lemma {:induction false} InsertCounts<T>(x: T, s: seq<T>, le: (T, T) -> bool, p: T -> bool)
    ensures Count(Insert(x, s, le), p) == (if p(x) then 1 else 0) + Count(s, p)
    ensures |Insert(x, s, le)| == |s| + 1
  {
    if s != [] && !le(x, s[0]) {
      InsertCounts(x, s[1..], le, p);
      assert Insert(x, s, le)[1..] == Insert(x, s[1..], le);
    } else {
      assert ([x] + s)[1..] == s;
    }
  }

  /** Sorting rearranges: it changes no count. */
  lemma {:induction false} SortCounts<T>(s: seq<T>, le: (T, T) -> bool, p: T -> bool)
    ensures Count(Sort(s, le), p) == Count(s, p) && |Sort(s, le)| == |s|
  {
    if s != [] {
      SortCounts(s[1..], le, p);
      InsertCounts(s[0], Sort(s[1..], le), le, p);
    }
  }

  lemma {:induction false} InsertSorted<T(!new)>(x: T, s: seq<T>, le: (T, T) -> bool)
    requires TotalOrder(le) && Sorted(s, le)
    ensures Sorted(Insert(x, s, le), le)
    ensures forall y :: y in Insert(x, s, le) ==> y == x || y in s
  {
    if s != [] && !le(x, s[0]) {
      InsertSorted(x, s[1..], le);
      var rest := Insert(x, s[1..], le);
      forall j | 0 <= j < |rest| ensures le(s[0], rest[j]) {
        assert rest[j] in rest;
      }
    }
  }

  lemma {:induction false} SortSorted<T(!new)>(s: seq<T>, le: (T, T) -> bool)
    requires TotalOrder(le)
    ensures Sorted(Sort(s, le), le)
  {
    if s != [] {
      SortSorted(s[1..], le);
      InsertSorted(s[0], Sort(s[1..], le), le);
    }
  }

  lemma {:induction false} CountWithout<T>(s: seq<T>, i: nat, p: T -> bool)
    requires i < |s|
    ensures Count(s, p) == (if p(s[i]) then 1 else 0) + Count(s[..i] + s[i + 1..], p)
  {
    var tail := s[i..];
    assert s == s[..i] + tail && tail[1..] == s[i + 1..];
    CountConcat(s[..i], tail, p);
    CountConcat(s[..i], s[i + 1..], p);
  }

  lemma {:induction false} SameElement<T>(a: seq<T>, b: seq<T>) returns (i: nat)
    requires a != [] && multiset(a) == multiset(b)
    ensures i < |b| && b[i] == a[0] && multiset(a[1..]) == multiset(b[..i] + b[i + 1..])
  {
    assert a[0] in multiset(b);
    i :| i < |b| && b[i] == a[0];
    assert a == [a[0]] + a[1..];
    assert b == b[..i] + [b[i]] + b[i + 1..];
    assert multiset(a[1..]) == multiset(a) - multiset{a[0]};
  }

  /** A count depends on the elements alone, not on their order. */
  lemma {:induction false} CountMultiset<T>(a: seq<T>, b: seq<T>, p: T -> bool)
    requires multiset(a) == multiset(b)
    ensures |a| == |b| && Count(a, p) == Count(b, p)
  {
    assert |multiset(a)| == |a| && |multiset(b)| == |b|;
    if a != [] {
      var i := SameElement(a, b);
      CountMultiset(a[1..], b[..i] + b[i + 1..], p);
      CountWithout(b, i, p);
    }
  }

  lemma {:induction false} Associative<T>(a: seq<T>, b: seq<T>, c: seq<T>)
    ensures (a + b) + c == a + (b + c)
  {
  }

  lemma {:induction false} PrefixStep<T>(s: seq<T>, n: nat)
    requires n < |s|
    ensures s[..n + 1] == s[..n] + [s[n]] && s[..n + 1][..n] == s[..n]
  {
  }
}
