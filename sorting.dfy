/** Python's `sorted(..., key=value, reverse=True)` on (key, value) pairs: a stable sort
    by non-increasing value, so pairs with equal values keep their original order. */
module Sorting {

  predicate SortedDesc<K>(s: seq<(K, real)>) {
    forall i, j :: 0 <= i < j < |s| ==> s[i].1 >= s[j].1
  }

  /** Places `x` right after every pair whose value is at least its own. */
  function Insert<K>(s: seq<(K, real)>, x: (K, real)): (r: seq<(K, real)>)
    requires SortedDesc(s)
    ensures |r| == |s| + 1
    ensures forall i :: 0 <= i < |r| ==> r[i] == x || r[i] in s
    ensures SortedDesc(r)
  {
    if s == [] then [x]
    else
      var init, last := s[..|s| - 1], s[|s| - 1];
      assert s == init + [last];
      if last.1 >= x.1 then s + [x]
      else
        var r' := Insert(init, x);
        assert forall i :: 0 <= i < |r'| ==> r'[i].1 >= last.1;
        r' + [last]
  }

  /** The sorted list, built by inserting the pairs one at a time in their order. */
  function SortDesc<K>(xs: seq<(K, real)>): (r: seq<(K, real)>)
    ensures |r| == |xs|
    ensures SortedDesc(r)
  {
    if xs == [] then []
    else
      assert xs == xs[..|xs| - 1] + [xs[|xs| - 1]];
      Insert(SortDesc(xs[..|xs| - 1]), xs[|xs| - 1])
  }

  /** The pairs whose value is `v`, in order. */
  function WithValue<K>(s: seq<(K, real)>, v: real): seq<(K, real)> {
    if s == [] then []
    else WithValue(s[..|s| - 1], v) + (if s[|s| - 1].1 == v then [s[|s| - 1]] else [])
  }

  lemma {:induction false} WithValueAppend<K>(a: seq<(K, real)>, b: seq<(K, real)>, v: real)
    ensures WithValue(a + b, v) == WithValue(a, v) + WithValue(b, v)
    decreases |b|
  {
    if b == [] {
      assert a + b == a;
    } else {
      var b' := b[..|b| - 1];
      assert (a + b)[..|a + b| - 1] == a + b';
      WithValueAppend(a, b', v);
    }
  }

  lemma WithValueSnoc<K>(s: seq<(K, real)>, y: (K, real), v: real)
    ensures WithValue(s + [y], v) == WithValue(s, v) + (if y.1 == v then [y] else [])
  {
    assert (s + [y])[..|s|] == s;
  }

  lemma {:induction false} InsertWithValue<K>(s: seq<(K, real)>, x: (K, real), v: real)
    requires SortedDesc(s)
    ensures WithValue(Insert(s, x), v) == WithValue(s, v) + (if x.1 == v then [x] else [])
    decreases |s|
  {
    if s == [] {
      WithValueSnoc(s, x, v);
      assert s + [x] == [x];
    } else {
      var init, last := s[..|s| - 1], s[|s| - 1];
      if last.1 >= x.1 {
        assert Insert(s, x) == s + [x];
        WithValueSnoc(s, x, v);
      } else {
        var r' := Insert(init, x);
        assert Insert(s, x) == r' + [last];
        InsertWithValue(init, x, v);
        WithValueSnoc(init, last, v);
        WithValueSnoc(r', last, v);
        var w := WithValue(init, v);
        if x.1 == v {
          assert WithValue(r', v) == w + [x] && WithValue(s, v) == w;
          assert WithValue(Insert(s, x), v) == w + [x];
        } else {
          assert WithValue(r', v) == w;
        }
      }
    }
  }

  /** Stability: among pairs with the same value, the sorted list keeps the original
      order. */
  lemma {:induction false} SortDescStable<K>(xs: seq<(K, real)>, v: real)
    ensures WithValue(SortDesc(xs), v) == WithValue(xs, v)
  {
    if xs != [] {
      var init := xs[..|xs| - 1];
      SortDescStable(init, v);
      InsertWithValue(SortDesc(init), xs[|xs| - 1], v);
    }
  }

  function Sum<K>(s: seq<(K, real)>): real {
    if s == [] then 0.0 else Sum(s[..|s| - 1]) + s[|s| - 1].1
  }

  lemma {:induction false} SumAppend<K>(a: seq<(K, real)>, b: seq<(K, real)>)
    ensures Sum(a + b) == Sum(a) + Sum(b)
    decreases |b|
  {
    if b == [] {
      assert a + b == a;
    } else {
      assert (a + b)[..|a + b| - 1] == a + b[..|b| - 1];
      SumAppend(a, b[..|b| - 1]);
    }
  }

  lemma {:induction false} InsertSum<K>(s: seq<(K, real)>, x: (K, real))
    requires SortedDesc(s)
    ensures Sum(Insert(s, x)) == Sum(s) + x.1
    decreases |s|
  {
    if s != [] {
      var init, last := s[..|s| - 1], s[|s| - 1];
      if last.1 >= x.1 {
        assert (s + [x])[..|s|] == s;
      } else {
        InsertSum(init, x);
        var r := Insert(init, x) + [last];
        assert r[..|r| - 1] == Insert(init, x);
      }
    }
  }

  /** Sorting keeps the sum of the values. */
  lemma {:induction false} SortDescSum<K>(xs: seq<(K, real)>)
    ensures Sum(SortDesc(xs)) == Sum(xs)
  {
    if xs != [] {
      SortDescSum(xs[..|xs| - 1]);
      InsertSum(SortDesc(xs[..|xs| - 1]), xs[|xs| - 1]);
    }
  }

  lemma {:induction false} InsertPermutes<K>(s: seq<(K, real)>, x: (K, real))
    requires SortedDesc(s)
    ensures multiset(Insert(s, x)) == multiset(s) + multiset{x}
    decreases |s|
  {
    if s != [] {
      var init, last := s[..|s| - 1], s[|s| - 1];
      assert s == init + [last];
      assert multiset(s) == multiset(init) + multiset{last};
      if last.1 >= x.1 {
        assert Insert(s, x) == s + [x];
      } else {
        var r' := Insert(init, x);
        assert Insert(s, x) == r' + [last];
        InsertPermutes(init, x);
        assert multiset(r' + [last]) == multiset(r') + multiset{last};
      }
    }
  }

  /** The sorted list is a permutation of the input. */
  lemma {:induction false} SortDescPermutes<K>(xs: seq<(K, real)>)
    ensures multiset(SortDesc(xs)) == multiset(xs)
  {
    if xs != [] {
      var init, last := xs[..|xs| - 1], xs[|xs| - 1];
      assert SortDesc(xs) == Insert(SortDesc(init), last);
      SortDescPermutes(init);
      InsertPermutes(SortDesc(init), last);
      assert xs == init + [last];
      assert multiset(xs) == multiset(init) + multiset{last};
    }
  }

  /** Hence every pair of the sorted list comes from the input and every pair of the
      input appears in the sorted list. */
  lemma SortDescSameEntries<K>(xs: seq<(K, real)>)
    ensures forall i :: 0 <= i < |xs| ==> xs[i] in SortDesc(xs)
    ensures forall i :: 0 <= i < |SortDesc(xs)| ==> SortDesc(xs)[i] in xs
  {
    var r := SortDesc(xs);
    SortDescPermutes(xs);
    forall i | 0 <= i < |xs| ensures xs[i] in r {
      assert xs[i] in multiset(xs);
    }
    forall i | 0 <= i < |r| ensures r[i] in xs {
      assert r[i] in multiset(r);
    }
  }

  /** The keys of a list of pairs. */
  function Keys<K>(s: seq<(K, real)>): set<K> {
    set i | 0 <= i < |s| :: s[i].0
  }

  /** The keys of the sorted list are those of the input. */
  lemma SortDescKeys<K>(xs: seq<(K, real)>)
    ensures Keys(SortDesc(xs)) == Keys(xs)
  {
    var r := SortDesc(xs);
    SortDescSameEntries(xs);
    forall key | key in Keys(xs) ensures key in Keys(r) {
      var k :| 0 <= k < |xs| && xs[k].0 == key;
      var i :| 0 <= i < |r| && r[i] == xs[k];
    }
    forall key | key in Keys(r) ensures key in Keys(xs) {
      var i :| 0 <= i < |r| && r[i].0 == key;
      var k :| 0 <= k < |xs| && xs[k] == r[i];
    }
  }

  /** Among pairs with equal values, the keys increase. */
  predicate TiesByKey(s: seq<(int, real)>) {
    forall i, j :: 0 <= i < j < |s| && s[i].1 == s[j].1 ==> s[i].0 < s[j].0
  }

  lemma TiesSnoc(s: seq<(int, real)>, y: (int, real))
    requires TiesByKey(s)
    requires forall i :: 0 <= i < |s| && s[i].1 == y.1 ==> s[i].0 < y.0
    ensures TiesByKey(s + [y])
  {
  }

  lemma {:induction false} InsertTies(s: seq<(int, real)>, x: (int, real))
    requires SortedDesc(s) && TiesByKey(s)
    requires forall k :: 0 <= k < |s| ==> s[k].0 < x.0
    ensures TiesByKey(Insert(s, x))
    decreases |s|
  {
    if s == [] {
      assert Insert(s, x) == [x];
    } else {
      var init, last := s[..|s| - 1], s[|s| - 1];
      if last.1 >= x.1 {
        assert Insert(s, x) == s + [x];
        TiesSnoc(s, x);
      } else {
        var r' := Insert(init, x);
        InsertTies(init, x);
        assert Insert(s, x) == r' + [last];
        forall i | 0 <= i < |r'| && r'[i].1 == last.1
          ensures r'[i].0 < last.0
        {
          assert r'[i] != x;
          var k :| 0 <= k < |init| && init[k] == r'[i];
          assert s[k] == r'[i];
        }
        TiesSnoc(r', last);
      }
    }
  }

  /** Sorting pairs whose keys increase keeps equal values in key order. */
  lemma {:induction false} SortDescTies(xs: seq<(int, real)>)
    requires forall i, j :: 0 <= i < j < |xs| ==> xs[i].0 < xs[j].0
    ensures TiesByKey(SortDesc(xs))
  {
    if xs != [] {
      var init, last := xs[..|xs| - 1], xs[|xs| - 1];
      SortDescTies(init);
      SortDescSameEntries(init);
      var sorted := SortDesc(init);
      forall k | 0 <= k < |sorted| ensures sorted[k].0 < last.0 {
        var i :| 0 <= i < |init| && init[i] == sorted[k];
      }
      InsertTies(sorted, last);
    }
  }
}
