/** An ordered counter: the Python idiom `d[k] = d.get(k, 0) + 1` over a dict, whose keys
    keep their first-insertion order. It is a sequence of (key, count) entries. */
module Tally {

  type Counts<T> = seq<(T, nat)>

  predicate DistinctKeys<T(==)>(c: Counts<T>) {
    forall i, j :: 0 <= i < j < |c| ==> c[i].0 != c[j].0
  }

  predicate PositiveCounts<T>(c: Counts<T>) {
    forall i :: 0 <= i < |c| ==> c[i].1 > 0
  }

  /** `list(d.keys())` */
  function Keys<T>(c: Counts<T>): (r: seq<T>)
    ensures |r| == |c|
  {
    seq(|c|, i requires 0 <= i < |c| => c[i].0)
  }

  /** `d.get(x, 0)` */
  function Get<T(==)>(c: Counts<T>, x: T): nat {
    if c == [] then 0
    else if c[0].0 == x then c[0].1
    else Get(c[1..], x)
  }

  /** `sum(d.values())` */
  function Total<T>(c: Counts<T>): nat {
    if c == [] then 0 else c[0].1 + Total(c[1..])
  }

  /** `max(d.values())`, 0 for an empty counter. */
  function MaxCount<T>(c: Counts<T>): (m: nat)
    ensures forall i :: 0 <= i < |c| ==> c[i].1 <= m
    ensures c != [] ==> exists i :: 0 <= i < |c| && c[i].1 == m
  {
    if c == [] then 0
    else
      var rest := MaxCount(c[1..]);
      assert forall i :: 1 <= i < |c| ==> c[i] == c[1..][i - 1];
      if c[0].1 >= rest then c[0].1 else rest
  }

  /** `max(d, key=d.get)`: the first key whose count is the largest. */
  function Dominant<T>(c: Counts<T>): T
    requires c != []
  {
    if |c| == 1 || c[0].1 >= MaxCount(c[1..]) then c[0].0 else Dominant(c[1..])
  }

  /** `d[x] = d.get(x, 0) + 1` */
  function Bump<T(==)>(c: Counts<T>, x: T): (r: Counts<T>)
  {
    if c == [] then [(x, 1)]
    else if c[0].0 == x then [(x, c[0].1 + 1)] + c[1..]
    else [c[0]] + Bump(c[1..], x)
  }

  /** The counter built by bumping every element of `xs`, in order. */
  function Of<T(==)>(xs: seq<T>): Counts<T> {
    if xs == [] then [] else Bump(Of(xs[..|xs| - 1]), xs[|xs| - 1])
  }

  /** The loop `for x in xs: d[x] = d.get(x, 0) + 1`, starting from an empty dict. */
  method Count<T(==)>(xs: seq<T>) returns (c: Counts<T>)
    ensures c == Of(xs)
  {
    c := [];
    for k := 0 to |xs|
      invariant c == Of(xs[..k])
    {
      assert xs[..k + 1][..k] == xs[..k];
      c := Bump(c, xs[k]);
    }
    assert xs[..|xs|] == xs;
  }

  /** The distinct elements of `xs` in order of first appearance (`pd.unique`). */
  function Distinct<T(==)>(xs: seq<T>): (r: seq<T>)
    ensures forall i, j :: 0 <= i < j < |r| ==> r[i] != r[j]
    ensures forall i :: 0 <= i < |r| ==> r[i] in xs
    ensures forall i :: 0 <= i < |xs| ==> xs[i] in r
  {
    if xs == [] then []
    else
      var init := xs[..|xs| - 1];
      var last := xs[|xs| - 1];
      assert xs == init + [last];
      var d := Distinct(init);
      if last in d then d else d + [last]
  }

  /** The number of positions holding an element seen earlier: `duplicated().sum()`. */
  function Repeats<T(==)>(xs: seq<T>): nat {
    if xs == [] then 0
    else
      var init := xs[..|xs| - 1];
      Repeats(init) + (if xs[|xs| - 1] in init then 1 else 0)
  }

  /** How many times `x` occurs in `xs`. */
  function Occurrences<T(==)>(xs: seq<T>, x: T): nat {
    if xs == [] then 0
    else Occurrences(xs[..|xs| - 1], x) + (if xs[|xs| - 1] == x then 1 else 0)
  }

  /** The entries whose count is above one: `vc[vc > 1]`. */
  function Repeated<T>(c: Counts<T>): (r: Counts<T>)
    ensures |r| <= |c|
  {
    if c == [] then []
    else (if c[0].1 > 1 then [c[0]] else []) + Repeated(c[1..])
  }

  // ---- facts about one Bump ----

  lemma {:induction false} BumpGet<T>(c: Counts<T>, x: T, y: T)
    ensures Get(Bump(c, x), y) == Get(c, y) + (if y == x then 1 else 0)
  {
    if c != [] && c[0].0 != x {
      BumpGet(c[1..], x, y);
    }
  }

  lemma {:induction false} BumpTotal<T>(c: Counts<T>, x: T)
    ensures Total(Bump(c, x)) == Total(c) + 1
  {
    if c != [] && c[0].0 != x {
      BumpTotal(c[1..], x);
      assert Bump(c, x)[1..] == Bump(c[1..], x);
    }
  }

  lemma {:induction false} BumpKeySeq<T>(c: Counts<T>, x: T)
    ensures Keys(Bump(c, x)) == if x in Keys(c) then Keys(c) else Keys(c) + [x]
  {
    if c == [] {
    } else if c[0].0 == x {
      assert x in Keys(c) by { assert Keys(c)[0] == x; }
      assert Keys(Bump(c, x)) == Keys(c);
    } else {
      BumpKeySeq(c[1..], x);
      assert Keys(c) == [c[0].0] + Keys(c[1..]);
      assert x in Keys(c) <==> x in Keys(c[1..]);
      assert Keys(Bump(c, x)) == [c[0].0] + Keys(Bump(c[1..], x));
    }
  }

  lemma {:induction false} BumpPositive<T>(c: Counts<T>, x: T)
    requires PositiveCounts(c)
    ensures PositiveCounts(Bump(c, x))
  {
    if c != [] && c[0].0 != x {
      assert PositiveCounts(c[1..]) by {
        forall i | 0 <= i < |c[1..]| ensures c[1..][i].1 > 0 { assert c[1..][i] == c[i + 1]; }
      }
      BumpPositive(c[1..], x);
    }
  }

  lemma BumpKeys<T>(c: Counts<T>, x: T)
    requires DistinctKeys(c) && PositiveCounts(c)
    ensures DistinctKeys(Bump(c, x)) && PositiveCounts(Bump(c, x))
    ensures forall y :: y in Keys(Bump(c, x)) <==> y in Keys(c) || y == x
  {
    BumpKeySeq(c, x);
    BumpPositive(c, x);
    var r := Bump(c, x);
    assert forall i :: 0 <= i < |r| ==> Keys(r)[i] == r[i].0;
  }

  // ---- facts about a whole tally ----

  /** The counts of a tally add up to the number of elements counted. */
  lemma {:induction false} TotalOf<T>(xs: seq<T>)
    ensures Total(Of(xs)) == |xs|
  {
    if xs != [] {
      TotalOf(xs[..|xs| - 1]);
      BumpTotal(Of(xs[..|xs| - 1]), xs[|xs| - 1]);
    }
  }

  /** A tally has each element of `xs` as a key exactly once, with a positive count. */
  lemma {:induction false} KeysOf<T>(xs: seq<T>)
    ensures DistinctKeys(Of(xs)) && PositiveCounts(Of(xs))
    ensures forall y :: y in Keys(Of(xs)) <==> y in xs
  {
    if xs != [] {
      var init := xs[..|xs| - 1];
      KeysOf(init);
      BumpKeys(Of(init), xs[|xs| - 1]);
      assert xs == init + [xs[|xs| - 1]];
      forall y ensures y in xs <==> y in init || y == xs[|xs| - 1] { }
    }
  }

  /** Each key's count in a tally is its number of occurrences. */
  lemma {:induction false} GetOf<T>(xs: seq<T>, y: T)
    ensures Get(Of(xs), y) == Occurrences(xs, y)
  {
    if xs != [] {
      GetOf(xs[..|xs| - 1], y);
      BumpGet(Of(xs[..|xs| - 1]), xs[|xs| - 1], y);
    }
  }

  lemma {:induction false} GetAt<T>(c: Counts<T>, i: nat)
    requires DistinctKeys(c) && i < |c|
    ensures Get(c, c[i].0) == c[i].1
  {
    if i > 0 {
      assert DistinctKeys(c[1..]) by {
        forall a, b | 0 <= a < b < |c[1..]| ensures c[1..][a].0 != c[1..][b].0 {
          assert c[1..][a] == c[a + 1] && c[1..][b] == c[b + 1];
        }
      }
      GetAt(c[1..], i - 1);
    }
  }

  /** `max(d, key=d.get)` names a key whose count is the largest. */
  lemma {:induction false} DominantIsMax<T>(c: Counts<T>)
    requires c != [] && DistinctKeys(c)
    ensures Dominant(c) in Keys(c)
    ensures Get(c, Dominant(c)) == MaxCount(c)
  {
    if |c| == 1 || c[0].1 >= MaxCount(c[1..]) {
      assert Keys(c)[0] == c[0].0;
      assert c[0].1 == MaxCount(c) by {
        if |c| > 1 {
          var i :| 0 <= i < |c[1..]| && c[1..][i].1 == MaxCount(c[1..]);
        }
      }
    } else {
      assert DistinctKeys(c[1..]) by {
        forall a, b | 0 <= a < b < |c[1..]| ensures c[1..][a].0 != c[1..][b].0 {
          assert c[1..][a] == c[a + 1] && c[1..][b] == c[b + 1];
        }
      }
      DominantIsMax(c[1..]);
      var d := Dominant(c[1..]);
      var i :| 0 <= i < |c[1..]| && Keys(c[1..])[i] == d;
      assert c[i + 1].0 == d && Keys(c)[i + 1] == d;
      assert c[0].0 != d;
    }
  }

  /** With two or more positive counts, the largest is strictly below the sum. */
  lemma {:induction false} MaxBelowTotal<T>(c: Counts<T>)
    requires |c| >= 2 && PositiveCounts(c)
    ensures 0 < MaxCount(c) < Total(c)
  {
    var t := c[1..];
    assert PositiveCounts(t) by { forall i | 0 <= i < |t| ensures t[i].1 > 0 { assert t[i] == c[i + 1]; } }
    assert c[1] == t[0];
    if |t| >= 2 {
      MaxBelowTotal(t);
    } else {
      assert t == [c[1]] && Total(t) == c[1].1;
    }
  }

  lemma {:induction false} GetOfEntry<T>(c: Counts<T>, x: T)
    requires Get(c, x) > 0
    ensures exists i :: 0 <= i < |c| && c[i] == (x, Get(c, x))
  {
    if c[0].0 != x {
      GetOfEntry(c[1..], x);
      var i :| 0 <= i < |c[1..]| && c[1..][i] == (x, Get(c[1..], x));
      assert c[i + 1] == c[1..][i];
    }
  }

  lemma {:induction false} RepeatedHas<T>(c: Counts<T>, i: nat)
    requires i < |c| && c[i].1 > 1
    ensures Repeated(c) != []
  {
    if i > 0 && c[0].1 <= 1 {
      RepeatedHas(c[1..], i - 1);
    }
  }

  lemma {:induction false} RepeatedEntry<T>(c: Counts<T>)
    requires Repeated(c) != []
    ensures exists i :: 0 <= i < |c| && c[i].1 > 1
  {
    if c[0].1 <= 1 {
      RepeatedEntry(c[1..]);
      var i :| 0 <= i < |c[1..]| && c[1..][i].1 > 1;
      assert c[i + 1] == c[1..][i];
    }
  }

  lemma {:induction false} TwiceWitness<T>(xs: seq<T>, x: T)
    requires Occurrences(xs, x) > 1
    ensures exists i, j :: 0 <= i < j < |xs| && xs[i] == x && xs[j] == x
  {
    var init := xs[..|xs| - 1];
    if Occurrences(init, x) > 1 {
      TwiceWitness(init, x);
      var i, j :| 0 <= i < j < |init| && init[i] == x && init[j] == x;
      assert xs[i] == x && xs[j] == x;
    } else {
      assert xs[|xs| - 1] == x && Occurrences(init, x) == 1;
      OccursIn(init, x);
      var i :| 0 <= i < |init| && init[i] == x;
      assert xs[i] == x;
    }
  }

  lemma {:induction false} OccursIn<T>(xs: seq<T>, x: T)
    requires Occurrences(xs, x) > 0
    ensures exists i :: 0 <= i < |xs| && xs[i] == x
  {
    var init := xs[..|xs| - 1];
    if xs[|xs| - 1] != x {
      OccursIn(init, x);
      var i :| 0 <= i < |init| && init[i] == x;
      assert xs[i] == x;
    }
  }

  lemma {:induction false} OccurrencesAtLeast<T>(xs: seq<T>, i: nat)
    requires i < |xs|
    ensures Occurrences(xs, xs[i]) >= 1
    ensures forall j :: i < j < |xs| && xs[j] == xs[i] ==> Occurrences(xs, xs[i]) >= 2
  {
    var init := xs[..|xs| - 1];
    if i < |xs| - 1 {
      OccurrencesAtLeast(init, i);
      assert init[i] == xs[i];
      forall j | i < j < |xs| && xs[j] == xs[i] ensures Occurrences(xs, xs[i]) >= 2 {
        if j < |xs| - 1 { assert init[j] == xs[j]; }
      }
    }
  }

  /** Some value is counted more than once iff it occurs twice in the input:
      `value_counts()[value_counts() > 1]` is non-empty exactly for repeated values. */
  lemma RepeatedOfIff<T>(xs: seq<T>)
    ensures Repeated(Of(xs)) != [] <==> exists i, j :: 0 <= i < j < |xs| && xs[i] == xs[j]
  {
    var c := Of(xs);
    KeysOf(xs);
    if Repeated(c) != [] {
      RepeatedEntry(c);
      var k :| 0 <= k < |c| && c[k].1 > 1;
      GetAt(c, k);
      GetOf(xs, c[k].0);
      TwiceWitness(xs, c[k].0);
    }
    if exists i, j :: 0 <= i < j < |xs| && xs[i] == xs[j] {
      var i, j :| 0 <= i < j < |xs| && xs[i] == xs[j];
      OccurrencesAtLeast(xs, i);
      GetOf(xs, xs[i]);
      GetOfEntry(c, xs[i]);
      var k :| 0 <= k < |c| && c[k] == (xs[i], Get(c, xs[i]));
      RepeatedHas(c, k);
    }
  }

  // ---- distinct elements and repeats ----

  /** Every element is either the first of its value or a repeat. */
  lemma {:induction false} DistinctPlusRepeats<T>(xs: seq<T>)
    ensures |Distinct(xs)| + Repeats(xs) == |xs|
  {
    if xs != [] {
      DistinctPlusRepeats(xs[..|xs| - 1]);
    }
  }

  /** There is a repeat exactly when some value occurs at two positions. */
  lemma {:induction false} RepeatsIff<T>(xs: seq<T>)
    ensures Repeats(xs) > 0 <==> exists i, j :: 0 <= i < j < |xs| && xs[i] == xs[j]
  {
    if xs != [] {
      var init := xs[..|xs| - 1];
      var last := |xs| - 1;
      RepeatsIff(init);
      if Repeats(xs) > 0 {
        if xs[last] in init {
          var i :| 0 <= i < |init| && init[i] == xs[last];
          assert xs[i] == xs[last];
        } else {
          var i, j :| 0 <= i < j < |init| && init[i] == init[j];
          assert xs[i] == xs[j];
        }
      }
      if exists i, j :: 0 <= i < j < |xs| && xs[i] == xs[j] {
        var i, j :| 0 <= i < j < |xs| && xs[i] == xs[j];
        if j == last {
          assert init[i] == xs[last];
        } else {
          assert init[i] == init[j];
        }
      }
    }
  }

  /** The keys of a tally are the distinct elements, in order of first appearance. */
  lemma {:induction false} KeysOfDistinct<T>(xs: seq<T>)
    ensures Keys(Of(xs)) == Distinct(xs)
  {
    if xs != [] {
      var init := xs[..|xs| - 1];
      KeysOfDistinct(init);
      BumpKeySeq(Of(init), xs[|xs| - 1]);
    }
  }

  /** The repeated entries account for at least two occurrences each, and for no more
      occurrences than the whole tally. */
  lemma {:induction false} RepeatedTotal<T>(c: Counts<T>)
    ensures 2 * |Repeated(c)| <= Total(Repeated(c)) <= Total(c)
  {
    if c != [] {
      RepeatedTotal(c[1..]);
      var head := if c[0].1 > 1 then [c[0]] else [];
      assert Repeated(c) == head + Repeated(c[1..]);
      TotalAppend(head, Repeated(c[1..]));
    }
  }

  // ---- values occurring more than once ----

  /** The elements of `ds` that occur more than once in `xs`, in the order of `ds`. */
  function MoreThanOnceIn<T(==)>(xs: seq<T>, ds: seq<T>): (r: seq<T>)
    ensures |r| <= |ds|
  {
    if ds == [] then []
    else (if Occurrences(xs, ds[0]) > 1 then [ds[0]] else []) + MoreThanOnceIn(xs, ds[1..])
  }

  /** An element is kept exactly when it is in `ds` and occurs more than once in `xs`. */
  lemma {:induction false} MoreThanOnceInHas<T>(xs: seq<T>, ds: seq<T>)
    ensures forall v :: v in MoreThanOnceIn(xs, ds) <==> v in ds && Occurrences(xs, v) > 1
  {
    if ds != [] {
      MoreThanOnceInHas(xs, ds[1..]);
      assert forall v :: v in ds <==> v == ds[0] || v in ds[1..];
    }
  }

  /** No element occurs twice. */
  predicate NoRepeats<T(==)>(s: seq<T>) {
    forall i, j :: 0 <= i < j < |s| ==> s[i] != s[j]
  }

  /** Distinct elements stay distinct. */
  lemma {:induction false} MoreThanOnceInDistinct<T>(xs: seq<T>, ds: seq<T>)
    requires NoRepeats(ds)
    ensures NoRepeats(MoreThanOnceIn(xs, ds))
  {
    if ds != [] {
      var t := ds[1..];
      assert NoRepeats(t) by {
        forall i, j | 0 <= i < j < |t| ensures t[i] != t[j] {
          assert t[i] == ds[i + 1] && t[j] == ds[j + 1];
        }
      }
      MoreThanOnceInDistinct(xs, t);
      var rest := MoreThanOnceIn(xs, t);
      if Occurrences(xs, ds[0]) > 1 {
        MoreThanOnceInHas(xs, t);
        assert ds[0] !in t by {
          forall k | 0 <= k < |t| ensures t[k] != ds[0] {
            assert t[k] == ds[k + 1];
          }
        }
        var r := [ds[0]] + rest;
        assert MoreThanOnceIn(xs, ds) == r;
        forall i, j | 0 <= i < j < |r| ensures r[i] != r[j] {
          assert r[j] == rest[j - 1] && rest[j - 1] in rest;
          if i > 0 {
            assert r[i] == rest[i - 1];
          }
        }
      } else {
        assert MoreThanOnceIn(xs, ds) == rest;
      }
    }
  }

  /** The distinct values of `xs` that occur more than once, in order of first appearance. */
  function MoreThanOnce<T(==)>(xs: seq<T>): (r: seq<T>)
    ensures NoRepeats(r)
  {
    MoreThanOnceInDistinct(xs, Distinct(xs));
    MoreThanOnceIn(xs, Distinct(xs))
  }

  /** The occurrences in `xs` of the elements of `vs`, added up. */
  function OccurrenceSum<T(==)>(xs: seq<T>, vs: seq<T>): nat {
    if vs == [] then 0 else Occurrences(xs, vs[0]) + OccurrenceSum(xs, vs[1..])
  }

  /** Every entry kept by `Repeated` is an entry of the counter. */
  lemma {:induction false} RepeatedSub<T>(c: Counts<T>)
    ensures forall i :: 0 <= i < |Repeated(c)| ==> Repeated(c)[i] in c
  {
    if c != [] {
      RepeatedSub(c[1..]);
    }
  }

  /** A counter whose counts are occurrences in `xs` totals the occurrences of its keys. */
  lemma {:induction false} TotalIsOccurrenceSum<T>(xs: seq<T>, c: Counts<T>)
    requires forall i :: 0 <= i < |c| ==> c[i].1 == Occurrences(xs, c[i].0)
    ensures Total(c) == OccurrenceSum(xs, Keys(c))
  {
    if c != [] {
      var t := c[1..];
      assert forall i :: 0 <= i < |t| ==> t[i] == c[i + 1];
      TotalIsOccurrenceSum(xs, t);
      assert Keys(c)[1..] == Keys(t);
    }
  }

  /** Keeping the entries above one of a counter whose counts are occurrences in `xs`
      keeps the keys that occur more than once, in order. */
  lemma {:induction false} RepeatedKeys<T>(xs: seq<T>, c: Counts<T>)
    requires forall i :: 0 <= i < |c| ==> c[i].1 == Occurrences(xs, c[i].0)
    ensures Keys(Repeated(c)) == MoreThanOnceIn(xs, Keys(c))
  {
    if c != [] {
      var t, k := c[1..], Keys(c);
      assert forall i :: 0 <= i < |t| ==> t[i].1 == Occurrences(xs, t[i].0) by {
        forall i | 0 <= i < |t| ensures t[i].1 == Occurrences(xs, t[i].0) {
          assert t[i] == c[i + 1];
        }
      }
      RepeatedKeys(xs, t);
      var head := if c[0].1 > 1 then [c[0]] else [];
      var rt := Repeated(t);
      calc {
        Keys(Repeated(c));
        { assert Repeated(c) == head + rt; }
        Keys(head + rt);
        { assert Keys(head + rt) == Keys(head) + Keys(rt); }
        Keys(head) + MoreThanOnceIn(xs, Keys(t));
        { assert k[1..] == Keys(t); assert Occurrences(xs, k[0]) == c[0].1; }
        (if Occurrences(xs, k[0]) > 1 then [k[0]] else []) + MoreThanOnceIn(xs, k[1..]);
      }
    }
  }

  /** `vc[vc > 1]` on a tally of `xs`: its keys are exactly the values occurring more than
      once, in order of first appearance, each counted with its number of occurrences, so
      its length is the number of such values and its total the sum of their occurrences. */
  lemma RepeatedOfExact<T>(xs: seq<T>)
    ensures Keys(Repeated(Of(xs))) == MoreThanOnce(xs)
    ensures forall v :: v in MoreThanOnce(xs) <==> Occurrences(xs, v) > 1
    ensures forall i :: 0 <= i < |Repeated(Of(xs))| ==>
      Repeated(Of(xs))[i].1 == Occurrences(xs, Repeated(Of(xs))[i].0)
    ensures Total(Repeated(Of(xs))) == OccurrenceSum(xs, MoreThanOnce(xs))
  {
    var c := Of(xs);
    KeysOf(xs);
    KeysOfDistinct(xs);
    forall i | 0 <= i < |c| ensures c[i].1 == Occurrences(xs, c[i].0) {
      GetAt(c, i);
      GetOf(xs, c[i].0);
    }
    RepeatedKeys(xs, c);
    MoreThanOnceInHas(xs, Distinct(xs));
    RepeatedSub(c);
    TotalIsOccurrenceSum(xs, Repeated(c));
    forall v | Occurrences(xs, v) > 1 ensures v in Distinct(xs) {
      OccursIn(xs, v);
    }
  }

  lemma {:induction false} TotalAppend<T>(a: Counts<T>, b: Counts<T>)
    ensures Total(a + b) == Total(a) + Total(b)
  {
    if a != [] {
      assert (a + b)[1..] == a[1..] + b;
      TotalAppend(a[1..], b);
    } else {
      assert a + b == b;
    }
  }
}
