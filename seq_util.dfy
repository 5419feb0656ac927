/** Sequence operations shared by the components: the array methods the
    source relies on (`filter`, `find`, a stable `sort`, `slice`), each
    with the properties the components need stated once. */
module SeqUtil {

  datatype Option<T> = None | Some(value: T)

  /** `b` contains the elements of `a` in the same relative order
      (greedy matching, which is complete for subsequences). */
  predicate IsSubseq<T(==)>(a: seq<T>, b: seq<T>)
    decreases |b|
  {
    if a == [] then true
    else if b == [] then false
    else if a[0] == b[0] then IsSubseq(a[1..], b[1..])
    else IsSubseq(a, b[1..])
  }

  /** `r` is what filtering `s` by `p` must give: elements of `s` that
      satisfy `p`, in their order, each as often as in `s`. */
  predicate FiltersTo<T(==)>(s: seq<T>, p: T -> bool, r: seq<T>)
  {
    && (forall x | x in r :: p(x) && x in s)
    && multiset(r) <= multiset(s)
    && (forall x | x in s && p(x) :: multiset(r)[x] == multiset(s)[x])
    && |r| <= |s|
  }

  /** Filtering keeps a head that satisfies `p`. */
  lemma FilterKeep<T>(s: seq<T>, p: T -> bool, rest: seq<T>)
    requires s != [] && p(s[0]) && FiltersTo(s[1..], p, rest)
    ensures FiltersTo(s, p, [s[0]] + rest)
  {
    var r := [s[0]] + rest;
    assert s == [s[0]] + s[1..];
    assert multiset(s) == multiset([s[0]]) + multiset(s[1..]);
  }

  /** Filtering drops a head that does not satisfy `p`. */
  lemma FilterDrop<T>(s: seq<T>, p: T -> bool, rest: seq<T>)
    requires s != [] && !p(s[0]) && FiltersTo(s[1..], p, rest)
    ensures FiltersTo(s, p, rest)
  {
    assert s == [s[0]] + s[1..];
    assert multiset(s) == multiset([s[0]]) + multiset(s[1..]);
  }

  /** `Array.prototype.filter`: the order-preserving sublist of the
      elements that satisfy `p`, each kept exactly as often as it occurs. */
  function Filter<T(==)>(s: seq<T>, p: T -> bool): (r: seq<T>)
    ensures forall x | x in r :: p(x) && x in s
    ensures multiset(r) <= multiset(s)
    ensures forall x | x in s && p(x) :: multiset(r)[x] == multiset(s)[x]
    ensures |r| <= |s|
  {
    if s == [] then []
    else
      var rest := Filter(s[1..], p);
      if p(s[0]) then
        FilterKeep(s, p, rest);
        [s[0]] + rest
      else
        FilterDrop(s, p, rest);
        rest
  }

  /** The filtered elements keep their relative order. */
  lemma {:induction false} FilterSubseq<T>(s: seq<T>, p: T -> bool)
    ensures IsSubseq(Filter(s, p), s)
  {
    if s != [] {
      var rest := Filter(s[1..], p);
      FilterSubseq(s[1..], p);
      if p(s[0]) {
        assert ([s[0]] + rest)[1..] == rest;
      } else if rest != [] {
        assert rest[0] in rest;
      }
    }
  }

  /** When every element satisfies `p`, filtering keeps the sequence whole. */
  lemma {:induction false} FilterAll<T>(s: seq<T>, p: T -> bool)
    requires forall x | x in s :: p(x)
    ensures Filter(s, p) == s
  {
    if s != [] {
      assert forall x | x in s[1..] :: x in s;
      FilterAll(s[1..], p);
    }
  }

  /** The filtered sequence is empty exactly when no element satisfies `p`. */
  lemma FilterEmptyIff<T>(s: seq<T>, p: T -> bool)
    ensures Filter(s, p) == [] <==> forall x | x in s :: !p(x)
  {
    var r := Filter(s, p);
    if r == [] {
      forall x | x in s ensures !p(x) {
        assert multiset(s)[x] > 0;
        assert multiset(r)[x] == 0;
      }
    } else {
      assert r[0] in r;
      assert multiset(r)[r[0]] > 0;
      assert r[0] in multiset(s);
    }
  }

  /** `Array.prototype.find`: the first element satisfying `p`. */
  function Find<T>(s: seq<T>, p: T -> bool): (r: Option<T>)
    ensures r.None? <==> forall i | 0 <= i < |s| :: !p(s[i])
    ensures r.Some? ==> exists i | 0 <= i < |s| :: s[i] == r.value && p(s[i]) && forall j | 0 <= j < i :: !p(s[j])
  {
    if s == [] then None
    else if p(s[0]) then Some(s[0])
    else
      var r := Find(s[1..], p);
      assert forall i | 1 <= i < |s| :: s[i] == s[1..][i - 1];
      if r.Some? then
        ghost var i :| 0 <= i < |s[1..]| && s[1..][i] == r.value && p(s[1..][i]) && forall j | 0 <= j < i :: !p(s[1..][j]);
        assert s[i + 1] == r.value && forall j | 0 <= j < i + 1 :: !p(s[j]);
        r
      else r
  }

  /** A comparison `le` is total: any two elements are related one way or the other. */
  ghost predicate Total<T(!new)>(le: (T, T) -> bool)
  {
    forall a, b :: le(a, b) || le(b, a)
  }

  /** A comparison `le` is transitive. */
  ghost predicate Transitive<T(!new)>(le: (T, T) -> bool)
  {
    forall a, b, c :: le(a, b) && le(b, c) ==> le(a, c)
  }

  /** Each element is `le`-related to its successor. */
  predicate Sorted<T>(s: seq<T>, le: (T, T) -> bool)
  {
    forall i | 0 <= i < |s| - 1 :: le(s[i], s[i + 1])
  }

  /** For a transitive comparison, order between neighbours is order
      between every earlier and later element. */
  lemma {:induction false} SortedPairwise<T(!new)>(s: seq<T>, le: (T, T) -> bool)
    requires Transitive(le)
    requires Sorted(s, le)
    ensures forall i, j | 0 <= i < j < |s| :: le(s[i], s[j])
  {
    forall i, j | 0 <= i < j < |s| ensures le(s[i], s[j]) {
      var k := i + 1;
      while k < j
        invariant i < k <= j
        invariant le(s[i], s[k])
      {
        k := k + 1;
      }
    }
  }

  /** Inserts `x` before the first element it is `le` to: elements that
      compare equal to `x` and came later stay behind it. */
  function Insert<T>(x: T, s: seq<T>, le: (T, T) -> bool): (r: seq<T>)
    ensures multiset(r) == multiset(s) + multiset{x}
    ensures |r| == |s| + 1
  {
    if s == [] then [x]
    else if le(x, s[0]) then [x] + s
    else
      assert s == [s[0]] + s[1..];
      [s[0]] + Insert(x, s[1..], le)
  }

  /** A stable sort by the comparator `le`, modelling `Array.prototype.sort`
      (stable since ECMAScript 2019) with `le(a, b)` meaning `cmp(a, b) <= 0`. */
  function Sort<T>(s: seq<T>, le: (T, T) -> bool): (r: seq<T>)
    ensures multiset(r) == multiset(s)
    ensures |r| == |s|
  {
    if s == [] then []
    else
      assert s == [s[0]] + s[1..];
      Insert(s[0], Sort(s[1..], le), le)
  }

  /** Dropping the head of a sorted sequence leaves it sorted. */
  lemma TailSorted<T>(s: seq<T>, le: (T, T) -> bool)
    requires s != [] && Sorted(s, le)
    ensures Sorted(s[1..], le)
  {
    forall i | 0 <= i < |s[1..]| - 1 ensures le(s[1..][i], s[1..][i + 1]) {
      assert s[1..][i] == s[i + 1] && s[1..][i + 1] == s[i + 2];
    }
  }

  /** A head that is `le` to the first element of a sorted sequence keeps it sorted. */
  lemma ConsSorted<T>(a: T, t: seq<T>, le: (T, T) -> bool)
    requires Sorted(t, le) && (t != [] ==> le(a, t[0]))
    ensures Sorted([a] + t, le)
  {
    var r := [a] + t;
    forall i | 0 <= i < |r| - 1 ensures le(r[i], r[i + 1]) {
      if i > 0 { assert r[i] == t[i - 1] && r[i + 1] == t[i]; }
    }
  }

  lemma {:induction false} InsertSorted<T(!new)>(x: T, s: seq<T>, le: (T, T) -> bool)
    requires Total(le)
    requires Sorted(s, le)
    ensures Sorted(Insert(x, s, le), le)
    ensures Insert(x, s, le)[0] == x || (s != [] && Insert(x, s, le)[0] == s[0])
  {
    if s == [] {
    } else if le(x, s[0]) {
      ConsSorted(x, s, le);
    } else {
      TailSorted(s, le);
      InsertSorted(x, s[1..], le);
      var t := Insert(x, s[1..], le);
      assert le(s[0], t[0]) by {
        assert le(s[0], x);
        if s[1..] != [] { assert s[1..][0] == s[1]; }
      }
      ConsSorted(s[0], t, le);
    }
  }

  /** A total comparison sorts its input. */
  lemma {:induction false} SortSorted<T(!new)>(s: seq<T>, le: (T, T) -> bool)
    requires Total(le)
    ensures Sorted(Sort(s, le), le)
  {
    if s != [] {
      SortSorted(s[1..], le);
      InsertSorted(s[0], Sort(s[1..], le), le);
    }
  }

  /** Filtering a sequence with a given head. */
  lemma FilterCons<T>(x: T, t: seq<T>, p: T -> bool)
    ensures Filter([x] + t, p) == (if p(x) then [x] else []) + Filter(t, p)
  {
    assert ([x] + t)[1..] == t;
  }

  /** Filtering a non-empty sequence: its head, if it satisfies `p`, then
      the filtered rest. */
  lemma FilterHead<T>(s: seq<T>, p: T -> bool)
    requires s != []
    ensures Filter(s, p) == (if p(s[0]) then [s[0]] else []) + Filter(s[1..], p)
  {
    assert [] + Filter(s[1..], p) == Filter(s[1..], p);
  }

  /** The elements that `le` ties with `k`: each is `le` to `k` and `k` to it. */
  function TiedWith<T>(le: (T, T) -> bool, k: T): T -> bool
  {
    (e: T) => le(e, k) && le(k, e)
  }

  /** Two blocks of which one is empty can be swapped in front of a third. */
  lemma SwapEmpty<T>(a: seq<T>, b: seq<T>, f: seq<T>)
    requires a == [] || b == []
    ensures b + (a + f) == a + (b + f)
  {
    if a == [] {
      assert a + f == f && a + (b + f) == b + f;
    } else {
      assert b + (a + f) == a + f && b + f == f;
    }
  }

  /** Filtering a sequence whose head is not `le`-below `x`, after inserting `x`. */
  lemma FilterInsertHead<T>(x: T, t: seq<T>, le: (T, T) -> bool, p: T -> bool)
    requires t != [] && !le(x, t[0])
    ensures Filter(Insert(x, t, le), p) ==
      (if p(t[0]) then [t[0]] else []) + Filter(Insert(x, t[1..], le), p)
  {
    FilterCons(t[0], Insert(x, t[1..], le), p);
  }

  /** The step of `FilterInsertFirst` past a head that `x` is not `le` to. */
  lemma FilterInsertStep<T>(x: T, t: seq<T>, le: (T, T) -> bool, p: T -> bool)
    requires t != [] && !le(x, t[0]) && (p(x) ==> !p(t[0]))
    requires Filter(Insert(x, t[1..], le), p) == (if p(x) then [x] else []) + Filter(t[1..], p)
    ensures Filter(Insert(x, t, le), p) == (if p(x) then [x] else []) + Filter(t, p)
  {
    var a := if p(x) then [x] else [];
    var b := if p(t[0]) then [t[0]] else [];
    var f := Filter(t[1..], p);
    FilterInsertHead(x, t, le, p);
    assert Filter(t, p) == b + f;
    SwapEmpty(a, b, f);
  }

  /** Inserting `x` puts it before the first element it is `le` to. So when
      `x` is `le` to every later element satisfying `p`, filtering by `p`
      after the insertion puts `x` first, if it satisfies `p` at all. */
  lemma {:induction false} FilterInsertFirst<T>(x: T, t: seq<T>, le: (T, T) -> bool, p: T -> bool)
    requires p(x) ==> forall y | y in t && p(y) :: le(x, y)
    ensures Filter(Insert(x, t, le), p) == (if p(x) then [x] else []) + Filter(t, p)
    decreases |t|
  {
    if t == [] {
      FilterCons(x, [], p);
      assert [x] + [] == [x];
    } else if le(x, t[0]) {
      FilterCons(x, t, p);
    } else {
      assert forall y | y in t[1..] :: y in t;
      FilterInsertFirst(x, t[1..], le, p);
      assert t[0] in t;
      FilterInsertStep(x, t, le, p);
    }
  }

  /** When the elements satisfying `p` are all `le` to one another, the
      sort keeps them in their input order. */
  lemma {:induction false} SortKeepsOrderOf<T>(s: seq<T>, le: (T, T) -> bool, p: T -> bool)
    requires forall x, y | p(x) && p(y) :: le(x, y)
    ensures Filter(Sort(s, le), p) == Filter(s, p)
  {
    if s != [] {
      var a := if p(s[0]) then [s[0]] else [];
      var sorted := Sort(s[1..], le);
      SortKeepsOrderOf(s[1..], le, p);
      FilterInsertFirst(s[0], sorted, le, p);
      FilterHead(s, p);
      assert Sort(s, le) == Insert(s[0], sorted, le);
      assert Filter(Sort(s, le), p) == a + Filter(sorted, p);
    }
  }

  /** The sort is stable: for any `k`, the elements tied with `k` appear in
      the result in the order they had in the input. */
  lemma SortStable<T(!new)>(s: seq<T>, le: (T, T) -> bool, k: T)
    requires Transitive(le)
    ensures Filter(Sort(s, le), TiedWith(le, k)) == Filter(s, TiedWith(le, k))
  {
    var p := TiedWith(le, k);
    forall x, y | p(x) && p(y) ensures le(x, y) {
      assert le(x, k) && le(k, y);
    }
    SortKeepsOrderOf(s, le, p);
  }

  /** A comparator that reports every pair as equal leaves the order alone
      (the sort is stable). */
  lemma {:induction false} SortAllEqual<T>(s: seq<T>, le: (T, T) -> bool)
    requires forall a, b :: le(a, b)
    ensures Sort(s, le) == s
  {
    if s != [] {
      SortAllEqual(s[1..], le);
      assert s == [s[0]] + s[1..];
    }
  }

  /** Clamps a relative index as `Array.prototype.slice` does: a negative
      index counts from the end, and the result lies in `0..len`. */
  function SliceIndex(i: int, len: nat): (r: nat)
    ensures r <= len
    ensures 0 <= i <= len ==> r == i
    ensures i > len ==> r == len
    ensures i < 0 ==> r == if len + i < 0 then 0 else len + i
  {
    if i < 0 then (if len + i < 0 then 0 else len + i)
    else if i > len then len
    else i
  }

  /** `Array.prototype.slice(start, end)`. */
  function Slice<T>(s: seq<T>, start: int, end: int): (r: seq<T>)
  {
    var a := SliceIndex(start, |s|);
    var b := SliceIndex(end, |s|);
    if a < b then s[a..b] else []
  }

  /** A slice never holds more than `end - start` elements, for any
      (possibly negative) indices. */
  lemma SliceLength<T>(s: seq<T>, start: int, end: int)
    requires start <= end
    ensures |Slice(s, start, end)| <= end - start
  {
  }

  /** With non-negative indices a slice is the plain sub-sequence, cut at the end. */
  lemma SliceInRange<T>(s: seq<T>, start: int, end: int)
    requires 0 <= start <= end
    ensures Slice(s, start, end) ==
      if start >= |s| then [] else s[start..if end < |s| then end else |s|]
  {
  }
}
