/** Filter, stable sort and paging of row sequences: the part of SQL that eager loading uses. */
module Relational {
  import opened Wrappers

  function Filter<T>(p: T -> bool, xs: seq<T>): seq<T> {
    if xs == [] then [] else (if p(xs[0]) then [xs[0]] else []) + Filter(p, xs[1..])
  }

  lemma {:induction false} FilterMember<T>(p: T -> bool, xs: seq<T>, x: T)
    ensures x in Filter(p, xs) <==> x in xs && p(x)
  {
    if xs != [] {
      FilterMember(p, xs[1..], x);
      assert x in xs <==> x == xs[0] || x in xs[1..];
    }
  }

  function Map<A(!new), B(!new)>(f: A -> B, xs: seq<A>): (r: seq<B>)
    ensures |r| == |xs| && forall i :: 0 <= i < |xs| ==> r[i] == f(xs[i])
  {
    if xs == [] then [] else [f(xs[0])] + Map(f, xs[1..])
  }

  lemma {:induction false} FilterAppend<T(!new)>(p: T -> bool, a: seq<T>, b: seq<T>)
    ensures Filter(p, a + b) == Filter(p, a) + Filter(p, b)
  {
    if a == [] {
      assert a + b == b;
    } else {
      var first := if p(a[0]) then [a[0]] else [];
      assert (a + b)[0] == a[0] && (a + b)[1..] == a[1..] + b;
      FilterAppend(p, a[1..], b);
      assert Filter(p, a + b) == first + Filter(p, a[1..] + b);
      assert Filter(p, a) == first + Filter(p, a[1..]);
    }
  }

  lemma {:induction false} FilterAgree<T(!new)>(p: T -> bool, q: T -> bool, xs: seq<T>)
    requires forall x :: x in xs ==> p(x) == q(x)
    ensures Filter(p, xs) == Filter(q, xs)
  {
    if xs != [] {
      FilterAgree(p, q, xs[1..]);
    }
  }

  function Both<T(!new)>(p: T -> bool, q: T -> bool): T -> bool {
    x => p(x) && q(x)
  }

  function After<A(!new), B(!new)>(p: B -> bool, f: A -> B): A -> bool {
    x => p(f(x))
  }

  lemma {:induction false} FilterTwice<T(!new)>(p: T -> bool, q: T -> bool, xs: seq<T>)
    ensures Filter(p, Filter(q, xs)) == Filter(Both(p, q), xs)
  {
    if xs != [] {
      FilterTwice(p, q, xs[1..]);
      if q(xs[0]) {
        FilterAppend(p, [xs[0]], Filter(q, xs[1..]));
        assert Filter(p, [xs[0]]) == if p(xs[0]) then [xs[0]] else [];
      } else {
        assert Filter(q, xs) == Filter(q, xs[1..]);
      }
    }
  }

  lemma {:induction false} FilterMap<A(!new), B(!new)>(p: B -> bool, f: A -> B, xs: seq<A>)
    ensures Filter(p, Map(f, xs)) == Map(f, Filter(After(p, f), xs))
  {
    if xs != [] {
      FilterMap(p, f, xs[1..]);
      assert Map(f, xs)[0] == f(xs[0]) && Map(f, xs)[1..] == Map(f, xs[1..]);
      MapAppend(f, if p(f(xs[0])) then [xs[0]] else [], Filter(After(p, f), xs[1..]));
      assert Map(f, [xs[0]]) == [f(xs[0])];
    }
  }

  lemma {:induction false} MapAppend<A(!new), B(!new)>(f: A -> B, a: seq<A>, b: seq<A>)
    ensures Map(f, a + b) == Map(f, a) + Map(f, b)
  {
    if a == [] {
      assert a + b == b;
    } else {
      assert (a + b)[0] == a[0] && (a + b)[1..] == a[1..] + b;
      MapAppend(f, a[1..], b);
    }
  }

  // ----- ORDER BY -----

  function Insert<T(!new)>(key: T -> int, x: T, sorted: seq<T>): seq<T> {
    if sorted == [] || key(x) <= key(sorted[0]) then [x] + sorted
    else [sorted[0]] + Insert(key, x, sorted[1..])
  }

  /** Stable sort: rows with equal keys stay in the order they came. */
  function SortBy<T(!new)>(key: T -> int, xs: seq<T>): seq<T> {
    if xs == [] then [] else Insert(key, xs[0], SortBy(key, xs[1..]))
  }

  predicate Sorted<T(!new)>(key: T -> int, xs: seq<T>) {
    forall i, j :: 0 <= i < j < |xs| ==> key(xs[i]) <= key(xs[j])
  }

  lemma {:induction false} InsertMembers<T(!new)>(key: T -> int, x: T, xs: seq<T>)
    ensures multiset(Insert(key, x, xs)) == multiset{x} + multiset(xs)
  {
    if xs != [] {
      assert xs == [xs[0]] + xs[1..];
      if key(x) > key(xs[0]) {
        InsertMembers(key, x, xs[1..]);
      }
    }
  }

  lemma {:induction false} InsertSorted<T(!new)>(key: T -> int, x: T, xs: seq<T>)
    requires Sorted(key, xs)
    ensures Sorted(key, Insert(key, x, xs))
    ensures multiset(Insert(key, x, xs)) == multiset{x} + multiset(xs)
  {
    InsertMembers(key, x, xs);
    if xs != [] && key(x) > key(xs[0]) {
      var tail := Insert(key, x, xs[1..]);
      InsertSorted(key, x, xs[1..]);
      forall i | 0 <= i < |tail| ensures key(xs[0]) <= key(tail[i]) {
        assert tail[i] in multiset(tail);
      }
    }
  }

  lemma {:induction false} SortByCorrect<T(!new)>(key: T -> int, xs: seq<T>)
    ensures Sorted(key, SortBy(key, xs)) && multiset(SortBy(key, xs)) == multiset(xs)
  {
    if xs != [] {
      SortByCorrect(key, xs[1..]);
      InsertSorted(key, xs[0], SortBy(key, xs[1..]));
      assert xs == [xs[0]] + xs[1..];
    }
  }

  lemma {:induction false} FilterInsert<T(!new)>(p: T -> bool, key: T -> int, x: T, xs: seq<T>)
    requires Sorted(key, xs)
    ensures Filter(p, Insert(key, x, xs)) == if p(x) then Insert(key, x, Filter(p, xs)) else Filter(p, xs)
  {
    if xs == [] || key(x) <= key(xs[0]) {
      assert Insert(key, x, xs)[0] == x && Insert(key, x, xs)[1..] == xs;
      if p(x) {
        InsertSmallest(p, key, x, xs);
      }
    } else {
      var tail := Insert(key, x, xs[1..]);
      FilterInsert(p, key, x, xs[1..]);
      assert Insert(key, x, xs)[0] == xs[0] && Insert(key, x, xs)[1..] == tail;
      if p(xs[0]) {
        assert Filter(p, xs)[0] == xs[0] && Filter(p, xs)[1..] == Filter(p, xs[1..]);
      } else {
        assert Filter(p, xs) == Filter(p, xs[1..]);
        assert Filter(p, Insert(key, x, xs)) == Filter(p, tail);
      }
    }
  }

  lemma InsertSmallest<T(!new)>(p: T -> bool, key: T -> int, x: T, xs: seq<T>)
    requires Sorted(key, xs) && (xs != [] ==> key(x) <= key(xs[0]))
    ensures Insert(key, x, Filter(p, xs)) == [x] + Filter(p, xs)
  {
    var part := Filter(p, xs);
    if part != [] {
      var y := part[0];
      FilterMember(p, xs, y);
      var i :| 0 <= i < |xs| && xs[i] == y;
      assert i > 0 ==> key(xs[0]) <= key(xs[i]);
    }
  }

  /** A filter may be taken before or after a stable sort. */
  lemma {:induction false} FilterSort<T(!new)>(p: T -> bool, key: T -> int, xs: seq<T>)
    ensures Filter(p, SortBy(key, xs)) == SortBy(key, Filter(p, xs))
  {
    if xs != [] {
      var x, rest := xs[0], xs[1..];
      FilterSort(p, key, rest);
      SortByCorrect(key, rest);
      FilterInsert(p, key, x, SortBy(key, rest));
      if p(x) {
        assert Filter(p, xs)[0] == x && Filter(p, xs)[1..] == Filter(p, rest);
      } else {
        assert Filter(p, xs) == Filter(p, rest);
      }
    }
  }

  // ----- LIMIT and OFFSET -----

  /** A limit of zero cannot be told from none. */
  predicate Limits(limit: Option<nat>) {
    limit.Some? && limit.value > 0
  }

  function Page<T(!new)>(limit: Option<nat>, offset: nat, xs: seq<T>): seq<T> {
    var rest := if offset <= |xs| then xs[offset..] else [];
    if Limits(limit) && limit.value < |rest| then rest[..limit.value] else rest
  }
}
