/** Values every other module needs: optional values, exact sums and a stable sort. */
module Wrappers {
  datatype Option<+T> = None | Some(value: T)

  function Max(a: real, b: real): real { if a < b then b else a }

  function Min(a: real, b: real): real { if b < a then b else a }

  lemma SomeMember<T>(s: set<T>) returns (x: T)
    requires s != {}
    ensures x in s
  {
    x :| x in s;
  }
}

/** `SumBy(s, f)` is the sum of `f` over a sequence: a ledger column total. */
module Sums {
  function SumBy<T>(s: seq<T>, f: T -> real): real
  {
    if s == [] then 0.0 else SumBy(s[..|s| - 1], f) + f(s[|s| - 1])
  }

  lemma SumByAppend<T>(s: seq<T>, x: T, f: T -> real)
    ensures SumBy(s + [x], f) == SumBy(s, f) + f(x)
  {
    assert (s + [x])[..|s|] == s;
  }

  lemma {:induction false} SumByConcat<T>(s: seq<T>, t: seq<T>, f: T -> real)
    ensures SumBy(s + t, f) == SumBy(s, f) + SumBy(t, f)
  {
    if t == [] {
      assert s + t == s;
    } else {
      SumByConcat(s, t[..|t| - 1], f);
      assert s + t == (s + t[..|t| - 1]) + [t[|t| - 1]];
      SumByAppend(s + t[..|t| - 1], t[|t| - 1], f);
    }
  }

  lemma SumByPair<T>(x: T, y: T, f: T -> real)
    ensures SumBy([x, y], f) == f(x) + f(y)
  {
    SumByAppend([], x, f);
    SumByAppend([x], y, f);
    assert [] + [x] == [x] && [x] + [y] == [x, y];
  }

  lemma SumByHead<T>(s: seq<T>, f: T -> real)
    requires s != []
    ensures SumBy(s, f) == f(s[0]) + SumBy(s[1..], f)
  {
    assert s == [s[0]] + s[1..];
    SumByConcat([s[0]], s[1..], f);
    SumByAppend([], s[0], f);
    assert [] + [s[0]] == [s[0]];
  }

  lemma {:induction false} SumByUpdate<T>(s: seq<T>, i: nat, x: T, f: T -> real)
    requires i < |s|
    ensures SumBy(s[i := x], f) == SumBy(s, f) - f(s[i]) + f(x)
  {
    if i == |s| - 1 {
      assert s[i := x][..|s| - 1] == s[..|s| - 1];
    } else {
      assert s[i := x][..|s| - 1] == s[..|s| - 1][i := x];
      SumByUpdate(s[..|s| - 1], i, x, f);
    }
  }

  /** A bound that holds row by row holds for the totals. */
  lemma {:induction false} SumByAtMost<T(!new)>(s: seq<T>, f: T -> real, g: T -> real)
    requires forall x :: x in s ==> f(x) <= g(x)
    ensures SumBy(s, f) <= SumBy(s, g)
  {
    if s != [] {
      SumByAtMost(s[..|s| - 1], f, g);
    }
  }

  lemma {:induction false} SumByEqual<T(!new)>(s: seq<T>, f: T -> real, g: T -> real)
    requires forall x :: x in s ==> f(x) == g(x)
    ensures SumBy(s, f) == SumBy(s, g)
  {
    if s != [] {
      SumByEqual(s[..|s| - 1], f, g);
    }
  }

  lemma {:induction false} SumByNonnegative<T(!new)>(s: seq<T>, f: T -> real)
    requires forall x :: x in s ==> 0.0 <= f(x)
    ensures 0.0 <= SumBy(s, f)
    ensures forall x :: x in s ==> f(x) <= SumBy(s, f)
  {
    if s != [] {
      SumByNonnegative(s[..|s| - 1], f);
      assert s == s[..|s| - 1] + [s[|s| - 1]];
    }
  }

  lemma {:induction false} SumByDifference<T(!new)>(s: seq<T>, f: T -> real, g: T -> real, h: T -> real)
    requires forall x :: x in s ==> f(x) == g(x) - h(x)
    ensures SumBy(s, f) == SumBy(s, g) - SumBy(s, h)
  {
    if s != [] {
      SumByDifference(s[..|s| - 1], f, g, h);
    }
  }

  /** Dollars for a number of shares at a price. Naming the product keeps totals linear. */
  function Amount(shares: real, price: real): real
  {
    shares * price
  }

  lemma AmountAdds(a: real, b: real, price: real)
    ensures Amount(a + b, price) == Amount(a, price) + Amount(b, price)
    ensures Amount(a - b, price) == Amount(a, price) - Amount(b, price)
  {
  }

  /** Multiplying by a positive rate keeps order. */
  lemma WithinQuotient(room: real, rate: real, x: real)
    requires rate > 0.0
    ensures x <= room <==> x * rate <= room * rate
  {
    if x <= room {
      assert (room - x) * rate >= 0.0;
    } else {
      assert (x - room) * rate > 0.0;
    }
  }

  lemma {:induction false} SumByScaled<T(!new)>(s: seq<T>, f: T -> real, g: T -> real, rate: real)
    requires forall x :: x in s ==> f(x) == Amount(g(x), rate)
    ensures SumBy(s, f) == Amount(SumBy(s, g), rate)
  {
    if s != [] {
      SumByScaled(s[..|s| - 1], f, g, rate);
      var x := s[|s| - 1];
      AmountAdds(SumBy(s[..|s| - 1], g), g(x), rate);
    }
  }

  lemma Reassociates<T>(a: seq<T>, b: seq<T>, c: seq<T>)
    ensures (a + b) + c == a + (b + c)
  {
  }

  predicate Distinct<T(==)>(s: seq<T>)
  {
    forall i, j :: 0 <= i < j < |s| ==> s[i] != s[j]
  }

  /** `x` counted once among distinct names. */
  function OnlyFor<T(==)>(name: T, x: real): T -> real
  {
    (c: T) => if c == name then x else 0.0
  }

  lemma {:induction false} CountedOnce<T>(names: seq<T>, name: T, x: real)
    requires Distinct(names)
    ensures SumBy(names, OnlyFor(name, x)) == if name in names then x else 0.0
  {
    if names != [] {
      var init, last := names[..|names| - 1], names[|names| - 1];
      assert names == init + [last];
      CountedOnce(init, name, x);
    }
  }

  lemma {:induction false} SumByAdds<T(!new)>(s: seq<T>, f: T -> real, g: T -> real, h: T -> real)
    requires forall x :: x in s ==> f(x) == g(x) + h(x)
    ensures SumBy(s, f) == SumBy(s, g) + SumBy(s, h)
  {
    if s != [] {
      SumByAdds(s[..|s| - 1], f, g, h);
    }
  }

  lemma {:induction false} SumByZero<T(!new)>(s: seq<T>, f: T -> real)
    requires forall x :: x in s ==> f(x) == 0.0
    ensures SumBy(s, f) == 0.0
  {
    if s != [] {
      SumByZero(s[..|s| - 1], f);
    }
  }
}

/** Python's `sorted(key=...)`: a stable ascending sort on a two-level key. */
module Ordering {
  import opened Sums

  datatype Rank = Rank(group: int, value: real)

  predicate Leq(a: Rank, b: Rank)
  {
    a.group < b.group || (a.group == b.group && a.value <= b.value)
  }

  predicate Sorted<T>(s: seq<T>, key: T -> Rank)
  {
    forall i, j :: 0 <= i < j < |s| ==> Leq(key(s[i]), key(s[j]))
  }

  function Insert<T>(x: T, s: seq<T>, key: T -> Rank): seq<T>
  {
    if s == [] then [x]
    else if Leq(key(x), key(s[0])) then [x] + s
    else [s[0]] + Insert(x, s[1..], key)
  }

  function StableSort<T>(s: seq<T>, key: T -> Rank): seq<T>
  {
    if s == [] then [] else Insert(s[0], StableSort(s[1..], key), key)
  }

  lemma {:induction false} InsertMembers<T(!new)>(x: T, s: seq<T>, key: T -> Rank)
    ensures forall y :: y in Insert(x, s, key) <==> y == x || y in s
    ensures |Insert(x, s, key)| == |s| + 1
  {
    if s != [] && !Leq(key(x), key(s[0])) {
      InsertMembers(x, s[1..], key);
      assert s == [s[0]] + s[1..];
    }
  }

  lemma {:induction false} InsertSum<T>(x: T, s: seq<T>, key: T -> Rank, f: T -> real)
    ensures SumBy(Insert(x, s, key), f) == SumBy(s, f) + f(x)
  {
    SumByHead(Insert(x, s, key), f);
    if s != [] {
      if Leq(key(x), key(s[0])) {
        assert ([x] + s)[1..] == s;
      } else {
        InsertSum(x, s[1..], key, f);
        SumByHead(s, f);
      }
    }
  }

  lemma {:induction false} InsertSorted<T(!new)>(x: T, s: seq<T>, key: T -> Rank)
    requires Sorted(s, key)
    ensures Sorted(Insert(x, s, key), key)
  {
    if s != [] {
      if Leq(key(x), key(s[0])) {
        SortedCons(x, s, key);
      } else {
        InsertSorted(x, s[1..], key);
        var rest := Insert(x, s[1..], key);
        InsertMembers(x, s[1..], key);
        forall y | y in rest ensures Leq(key(s[0]), key(y)) {
          if y != x {
            var k :| 0 <= k < |s[1..]| && s[1..][k] == y;
            assert y == s[k + 1];
          }
        }
        SortedCons(s[0], rest, key);
      }
    }
  }

  lemma SortedCons<T(!new)>(x: T, s: seq<T>, key: T -> Rank)
    requires Sorted(s, key)
    requires forall y :: y in s ==> Leq(key(x), key(y))
    ensures Sorted([x] + s, key)
  {
    var r := [x] + s;
    forall i, j | 0 <= i < j < |r| ensures Leq(key(r[i]), key(r[j])) {
      assert r[j] == s[j - 1];
    }
  }

  /** Sorting orders by key, keeps exactly the same rows and every column total. */
  lemma {:induction false} StableSortSpec<T(!new)>(s: seq<T>, key: T -> Rank)
    ensures Sorted(StableSort(s, key), key)
    ensures forall x :: x in StableSort(s, key) <==> x in s
    ensures |StableSort(s, key)| == |s|
  {
    if s != [] {
      StableSortSpec(s[1..], key);
      InsertSorted(s[0], StableSort(s[1..], key), key);
      InsertMembers(s[0], StableSort(s[1..], key), key);
      assert s == [s[0]] + s[1..];
    }
  }

  lemma {:induction false} StableSortSum<T>(s: seq<T>, key: T -> Rank, f: T -> real)
    ensures SumBy(StableSort(s, key), f) == SumBy(s, f)
  {
    if s != [] {
      StableSortSum(s[1..], key, f);
      InsertSum(s[0], StableSort(s[1..], key), key, f);
      SumByHead(s, f);
    }
  }
}
