/** A stable sort by an integer key, standing in for `Array.prototype.sort`
    with a comparator that subtracts two keys (a stable sort in every
    current engine). Defined as insertion sort on values. */
module StableSort {

  predicate SortedBy<T>(s: seq<T>, key: T -> int)
  {
    forall i, j :: 0 <= i < j < |s| ==> key(s[i]) <= key(s[j])
  }

  /** The elements of `s` that satisfy `p`, in order. */
  function Filter<T>(s: seq<T>, p: T -> bool): seq<T>
  {
    if s == [] then [] else (if p(s[0]) then [s[0]] else []) + Filter(s[1..], p)
  }

  /** Places `x` in front of the first element whose key is not below `x`'s. */
  function Insert<T>(x: T, s: seq<T>, key: T -> int): seq<T>
  {
    if s == [] || key(x) <= key(s[0]) then [x] + s else [s[0]] + Insert(x, s[1..], key)
  }

  function SortBy<T>(s: seq<T>, key: T -> int): seq<T>
  {
    if s == [] then [] else Insert(s[0], SortBy(s[1..], key), key)
  }

  lemma {:induction false} FilterMember<T>(s: seq<T>, p: T -> bool, y: T)
    requires y in Filter(s, p)
    ensures y in s && p(y)
  {
    if s != [] && !(p(s[0]) && y == s[0]) {
      FilterMember(s[1..], p, y);
    }
  }

  lemma {:induction false} FilterAppend<T>(a: seq<T>, b: seq<T>, p: T -> bool)
    ensures Filter(a + b, p) == Filter(a, p) + Filter(b, p)
  {
    if a == [] {
      assert a + b == b;
    } else {
      var head := if p(a[0]) then [a[0]] else [];
      assert (a + b)[0] == a[0] && (a + b)[1..] == a[1..] + b;
      FilterAppend(a[1..], b, p);
      calc {
        Filter(a + b, p);
        head + Filter(a[1..] + b, p);
        head + (Filter(a[1..], p) + Filter(b, p));
        (head + Filter(a[1..], p)) + Filter(b, p);
      }
    }
  }

  lemma {:induction false} InsertPermutation<T>(x: T, s: seq<T>, key: T -> int)
    ensures multiset(Insert(x, s, key)) == multiset([x] + s)
  {
    if s != [] && key(x) > key(s[0]) {
      InsertPermutation(x, s[1..], key);
      assert s == [s[0]] + s[1..];
    }
  }

  lemma {:induction false} InsertSorted<T>(x: T, s: seq<T>, key: T -> int)
    requires SortedBy(s, key)
    ensures SortedBy(Insert(x, s, key), key)
  {
    if s != [] && key(x) > key(s[0]) {
      InsertSorted(x, s[1..], key);
      var t := Insert(x, s[1..], key);
      InsertPermutation(x, s[1..], key);
      forall j | 0 < j < |t| + 1
        ensures key(s[0]) <= key(([s[0]] + t)[j])
      {
        var y := t[j - 1];
        assert y in multiset([x] + s[1..]);
      }
    }
  }

  /** The sort returns a permutation of its input. */
  lemma {:induction false} SortByPermutation<T>(s: seq<T>, key: T -> int)
    ensures multiset(SortBy(s, key)) == multiset(s)
  {
    if s != [] {
      SortByPermutation(s[1..], key);
      InsertPermutation(s[0], SortBy(s[1..], key), key);
      assert s == [s[0]] + s[1..];
    }
  }

  /** The sort returns its input ordered by key. */
  lemma {:induction false} SortBySorted<T>(s: seq<T>, key: T -> int)
    ensures SortedBy(SortBy(s, key), key)
  {
    if s != [] {
      SortBySorted(s[1..], key);
      InsertSorted(s[0], SortBy(s[1..], key), key);
    }
  }

  lemma {:induction false} FilterInsert<T>(x: T, s: seq<T>, key: T -> int, p: T -> bool)
    requires SortedBy(s, key)
    ensures Filter(Insert(x, s, key), p)
         == if p(x) then Insert(x, Filter(s, p), key) else Filter(s, p)
  {
    if s == [] {
    } else if key(x) <= key(s[0]) {
      assert ([x] + s)[1..] == s;
      var fs := Filter(s, p);
      if fs != [] {
        FilterMember(s, p, fs[0]);
      }
    } else {
      var t := Insert(x, s[1..], key);
      assert ([s[0]] + t)[0] == s[0] && ([s[0]] + t)[1..] == t;
      FilterInsert(x, s[1..], key, p);
      var f := Filter(s[1..], p);
      assert Filter(s, p) == (if p(s[0]) then [s[0]] else []) + f;
      if p(s[0]) {
        assert ([s[0]] + f)[0] == s[0] && ([s[0]] + f)[1..] == f;
        if p(x) {
          calc {
            Filter(Insert(x, s, key), p);
            [s[0]] + Filter(t, p);
            [s[0]] + Insert(x, f, key);
            Insert(x, [s[0]] + f, key);
          }
        }
      } else {
        assert [] + f == f;
        assert Filter(Insert(x, s, key), p) == Filter(t, p);
      }
    }
  }

  /** Stability: keeping only the elements that satisfy `p` commutes with
      sorting, so elements the sort cannot tell apart keep their input order. */
  lemma {:induction false} FilterSortBy<T>(s: seq<T>, key: T -> int, p: T -> bool)
    ensures Filter(SortBy(s, key), p) == SortBy(Filter(s, p), key)
  {
    if s != [] {
      SortBySorted(s[1..], key);
      FilterInsert(s[0], SortBy(s[1..], key), key, p);
      FilterSortBy(s[1..], key, p);
      var f := Filter(s[1..], p);
      assert Filter(s, p) == (if p(s[0]) then [s[0]] else []) + f;
      if p(s[0]) {
        assert ([s[0]] + f)[0] == s[0] && ([s[0]] + f)[1..] == f;
        assert SortBy([s[0]] + f, key) == Insert(s[0], SortBy(f, key), key);
      } else {
        assert [] + f == f;
      }
    }
  }

  /** An input already ordered by key comes back unchanged. */
  lemma {:induction false} SortBySortedIdentity<T>(s: seq<T>, key: T -> int)
    requires SortedBy(s, key)
    ensures SortBy(s, key) == s
  {
    if s != [] {
      SortBySortedIdentity(s[1..], key);
      assert s == [s[0]] + s[1..];
    }
  }

  /** A subsequence of elements whose keys rise along `s` is ordered by key. */
  lemma {:induction false} FilterSortedWhereRising<T>(s: seq<T>, key: T -> int, p: T -> bool)
    requires forall i, j :: 0 <= i < j < |s| && p(s[i]) && p(s[j]) ==> key(s[i]) <= key(s[j])
    ensures SortedBy(Filter(s, p), key)
  {
    if s != [] {
      var tail := s[1..];
      FilterSortedWhereRising(tail, key, p);
      if p(s[0]) {
        forall y | y in Filter(tail, p)
          ensures key(s[0]) <= key(y)
        {
          FilterMember(tail, p, y);
          var j :| 0 <= j < |tail| && tail[j] == y;
          assert s[j + 1] == y;
        }
        var f := Filter(s, p);
        forall i, j | 0 <= i < j < |f|
          ensures key(f[i]) <= key(f[j])
        {
          if i == 0 {
            assert f[j] in Filter(tail, p);
          }
        }
      }
    }
  }
}
