// Stable sorting by an integer key, and sums over sequences, as the backtest uses them.
module StableSorting {

  function Last<T>(s: seq<T>): T
    requires s != []
  {
    s[|s| - 1]
  }

  function Front<T>(s: seq<T>): seq<T>
    requires s != []
  {
    s[..|s| - 1]
  }

  predicate Ordered<T>(s: seq<T>, key: T -> int) {
    forall i, j :: 0 <= i < j < |s| ==> key(s[i]) <= key(s[j])
  }

  // Places x behind every element whose key is not greater.
  function InsertSorted<T>(x: T, s: seq<T>, key: T -> int): seq<T> {
    if s == [] || key(Last(s)) <= key(x) then s + [x]
    else InsertSorted(x, Front(s), key) + [Last(s)]
  }

  function Sorted<T>(s: seq<T>, key: T -> int): seq<T> {
    if s == [] then [] else InsertSorted(Last(s), Sorted(Front(s), key), key)
  }

  lemma {:induction false} InsertKeepsElements<T>(x: T, s: seq<T>, key: T -> int)
    ensures multiset(InsertSorted(x, s, key)) == multiset(s) + multiset{x}
  {
    if s != [] && key(x) < key(Last(s)) {
      InsertKeepsElements(x, Front(s), key);
      assert s == Front(s) + [Last(s)];
    }
  }

  lemma InsertMembers<T(!new)>(x: T, s: seq<T>, key: T -> int)
    ensures forall y :: y in InsertSorted(x, s, key) <==> y in s || y == x
  {
    InsertKeepsElements(x, s, key);
    forall y: T
      ensures y in InsertSorted(x, s, key) <==> y in s || y == x
    {
      assert y in InsertSorted(x, s, key) <==> y in multiset(InsertSorted(x, s, key));
    }
  }

  lemma {:induction false} InsertKeepsOrder<T(!new)>(x: T, s: seq<T>, key: T -> int)
    requires Ordered(s, key)
    ensures Ordered(InsertSorted(x, s, key), key)
  {
    if s != [] && key(x) < key(Last(s)) {
      var r := InsertSorted(x, Front(s), key);
      InsertKeepsOrder(x, Front(s), key);
      InsertMembers(x, Front(s), key);
      forall i | 0 <= i < |r|
        ensures key(r[i]) <= key(Last(s))
      {
        assert r[i] in r;
      }
      assert InsertSorted(x, s, key) == r + [Last(s)];
    }
  }

  lemma {:induction false} SortedIsOrderedPermutation<T(!new)>(s: seq<T>, key: T -> int)
    ensures Ordered(Sorted(s, key), key)
    ensures multiset(Sorted(s, key)) == multiset(s)
    ensures |Sorted(s, key)| == |s|
  {
    if s != [] {
      SortedIsOrderedPermutation(Front(s), key);
      InsertKeepsOrder(Last(s), Sorted(Front(s), key), key);
      InsertKeepsElements(Last(s), Sorted(Front(s), key), key);
      assert s == Front(s) + [Last(s)];
    }
    assert |multiset(Sorted(s, key))| == |multiset(s)|;
  }

  // ---------------------------------------------------------------------------------------------
  // Stability
  // ---------------------------------------------------------------------------------------------

  // The elements with key k, in the order they occur.
  function AtKey<T>(s: seq<T>, key: T -> int, k: int): seq<T> {
    if s == [] then []
    else AtKey(Front(s), key, k) + if key(Last(s)) == k then [Last(s)] else []
  }

  lemma AtKeyOfExtension<T>(s: seq<T>, x: T, key: T -> int, k: int)
    ensures AtKey(s + [x], key, k) == AtKey(s, key, k) + if key(x) == k then [x] else []
  {
    assert Front(s + [x]) == s;
  }

  lemma {:induction false} InsertIsStable<T>(x: T, s: seq<T>, key: T -> int, k: int)
    ensures AtKey(InsertSorted(x, s, key), key, k) == AtKey(s + [x], key, k)
  {
    AtKeyOfExtension(s, x, key, k);
    if s != [] && key(x) < key(Last(s)) {
      InsertIsStable(x, Front(s), key, k);
      AtKeyOfExtension(Front(s), x, key, k);
      AtKeyOfExtension(InsertSorted(x, Front(s), key), Last(s), key, k);
    }
  }

  // Elements with equal keys keep their relative order.
  lemma {:induction false} SortIsStable<T>(s: seq<T>, key: T -> int, k: int)
    ensures AtKey(Sorted(s, key), key, k) == AtKey(s, key, k)
  {
    if s != [] {
      SortIsStable(Front(s), key, k);
      InsertIsStable(Last(s), Sorted(Front(s), key), key, k);
      AtKeyOfExtension(Sorted(Front(s), key), Last(s), key, k);
    }
  }

  // Every pair of equal keys is related by R, earlier element first.
  ghost predicate TiesRelated<T(!new)>(s: seq<T>, key: T -> int, R: (T, T) -> bool) {
    forall i, j :: 0 <= i < j < |s| && key(s[i]) == key(s[j]) ==> R(s[i], s[j])
  }

  lemma {:induction false} InsertKeepsTies<T(!new)>(x: T, s: seq<T>, key: T -> int, R: (T, T) -> bool)
    requires Ordered(s, key) && TiesRelated(s, key, R)
    requires forall y :: y in s && key(y) == key(x) ==> R(y, x)
    ensures TiesRelated(InsertSorted(x, s, key), key, R)
  {
    if s != [] && key(x) < key(Last(s)) {
      var front, r := Front(s), InsertSorted(x, Front(s), key);
      InsertKeepsTies(x, front, key, R);
      InsertMembers(x, front, key);
      forall i | 0 <= i < |r| && key(r[i]) == key(Last(s))
        ensures R(r[i], Last(s))
      {
        assert r[i] in r;
        var j :| 0 <= j < |front| && front[j] == r[i];
        assert s[j] == r[i];
      }
    }
  }

  lemma {:induction false} SortKeepsTies<T(!new)>(s: seq<T>, key: T -> int, R: (T, T) -> bool)
    requires TiesRelated(s, key, R)
    ensures TiesRelated(Sorted(s, key), key, R)
  {
    if s != [] {
      var front, r := Front(s), Sorted(Front(s), key);
      SortKeepsTies(front, key, R);
      SortedIsOrderedPermutation(front, key);
      forall y | y in r && key(y) == key(Last(s))
        ensures R(y, Last(s))
      {
        assert y in multiset(r);
        assert y in front;
        var j :| 0 <= j < |front| && front[j] == y;
        assert s[j] == y;
      }
      InsertKeepsTies(Last(s), r, key, R);
    }
  }

  // ---------------------------------------------------------------------------------------------
  // Sums
  // ---------------------------------------------------------------------------------------------

  function Sum<T>(s: seq<T>, w: T -> real): real {
    if s == [] then 0.0 else Sum(Front(s), w) + w(Last(s))
  }

  lemma SumOfExtension<T>(s: seq<T>, x: T, w: T -> real)
    ensures Sum(s + [x], w) == Sum(s, w) + w(x)
  {
    assert Front(s + [x]) == s;
  }

  lemma {:induction false} SumOfConcat<T>(a: seq<T>, b: seq<T>, w: T -> real)
    ensures Sum(a + b, w) == Sum(a, w) + Sum(b, w)
  {
    if b == [] {
      assert a + b == a;
    } else {
      SumOfConcat(a, Front(b), w);
      assert Front(a + b) == a + Front(b);
    }
  }

  lemma {:induction false} SumOfInsert<T>(x: T, s: seq<T>, key: T -> int, w: T -> real)
    ensures Sum(InsertSorted(x, s, key), w) == Sum(s, w) + w(x)
  {
    if s == [] || key(Last(s)) <= key(x) {
      SumOfExtension(s, x, w);
    } else {
      SumOfInsert(x, Front(s), key, w);
      SumOfExtension(InsertSorted(x, Front(s), key), Last(s), w);
    }
  }

  // Sorting does not change a sum.
  lemma {:induction false} SumOfSorted<T>(s: seq<T>, key: T -> int, w: T -> real)
    ensures Sum(Sorted(s, key), w) == Sum(s, w)
  {
    if s != [] {
      SumOfSorted(Front(s), key, w);
      SumOfInsert(Last(s), Sorted(Front(s), key), key, w);
    }
  }

  lemma {:induction false} SumMonotone<T>(s: seq<T>, v: T -> real, w: T -> real)
    requires forall i :: 0 <= i < |s| ==> v(s[i]) <= w(s[i])
    ensures Sum(s, v) <= Sum(s, w)
  {
    if s != [] {
      SumMonotone(Front(s), v, w);
    }
  }

  lemma {:induction false} SumsAgree<T>(s: seq<T>, v: T -> real, w: T -> real)
    requires forall i :: 0 <= i < |s| ==> v(s[i]) == w(s[i])
    ensures Sum(s, v) == Sum(s, w)
  {
    if s != [] {
      SumsAgree(Front(s), v, w);
    }
  }

  lemma {:induction false} SumNonNegative<T>(s: seq<T>, w: T -> real)
    requires forall i :: 0 <= i < |s| ==> 0.0 <= w(s[i])
    ensures 0.0 <= Sum(s, w)
  {
    if s != [] {
      SumNonNegative(Front(s), w);
    }
  }

  lemma {:induction false} SumZero<T>(s: seq<T>, w: T -> real)
    requires forall i :: 0 <= i < |s| ==> w(s[i]) == 0.0
    ensures Sum(s, w) == 0.0
  {
    if s != [] {
      SumZero(Front(s), w);
    }
  }
}
