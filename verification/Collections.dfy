/** Counting facts about sequences and sets. */
module Collections {

  function ToSet<T>(xs: seq<T>): set<T> {
    set x | x in xs
  }

  predicate NoRepeats<T(==)>(xs: seq<T>) {
    forall i, j :: 0 <= i < j < |xs| ==> xs[i] != xs[j]
  }

  lemma {:induction false} ToSetSize<T>(xs: seq<T>)
    ensures |ToSet(xs)| <= |xs|
    ensures |ToSet(xs)| == |xs| <==> NoRepeats(xs)
  {
    if xs != [] {
      var init, last := xs[..|xs| - 1], xs[|xs| - 1];
      ToSetSize(init);
      assert xs == init + [last];
      assert ToSet(xs) == ToSet(init) + {last};
      if last in init {
        var i :| 0 <= i < |init| && init[i] == last;
        assert xs[i] == xs[|xs| - 1];
        assert ToSet(xs) == ToSet(init);
      }
    }
  }

  predicate PairwiseDisjoint(sets: seq<set<int>>) {
    forall i, j :: 0 <= i < j < |sets| ==> sets[i] !! sets[j]
  }

  function Union(sets: seq<set<int>>): (u: set<int>)
    ensures forall x :: x in u <==> exists i :: 0 <= i < |sets| && x in sets[i]
  {
    if sets == [] then {} else
      assert forall i :: 1 <= i < |sets| ==> sets[i] == sets[1..][i - 1];
      sets[0] + Union(sets[1..])
  }

  function SumOfSizes(sets: seq<set<int>>): nat {
    if sets == [] then 0 else |sets[0]| + SumOfSizes(sets[1..])
  }

  /** Sets that do not overlap lose nothing in their union. */
  lemma {:induction false} DisjointSizesAdd(sets: seq<set<int>>)
    requires PairwiseDisjoint(sets)
    ensures |Union(sets)| == SumOfSizes(sets)
  {
    if sets != [] {
      DisjointSizesAdd(sets[1..]);
      assert sets[0] !! Union(sets[1..]);
    }
  }

  /** A map that is injective on s and reaches all of t shows that s and t have the same size. */
  lemma {:induction false} BijectionSize<A, B>(s: set<A>, t: set<B>, f: map<A, B>)
    requires f.Keys == s
    requires forall x, y :: x in s && y in s && f[x] == f[y] ==> x == y
    requires forall x :: x in s ==> f[x] in t
    requires forall z :: z in t ==> exists x :: x in s && f[x] == z
    ensures |s| == |t|
    decreases s
  {
    if s == {} {
      assert t == {};
    } else {
      var x :| x in s;
      forall z | z in t - {f[x]} ensures exists y :: y in s - {x} && (f - {x})[y] == z {
        var y :| y in s && f[y] == z;
        assert y in s - {x};
      }
      BijectionSize(s - {x}, t - {f[x]}, f - {x});
    }
  }

  ghost predicate TotalOrder<T(!new)>(leq: (T, T) -> bool) {
    && (forall x, y :: leq(x, y) || leq(y, x))
    && (forall x, y, z :: leq(x, y) && leq(y, z) ==> leq(x, z))
  }

  ghost predicate IsLeast<T>(m: T, s: set<T>, leq: (T, T) -> bool) {
    m in s && forall x :: x in s ==> leq(m, x)
  }

  /** A finite nonempty set has a least element. */
  lemma {:induction false} LeastExists<T(!new)>(s: set<T>, leq: (T, T) -> bool) returns (m: T)
    requires s != {} && TotalOrder(leq)
    ensures IsLeast(m, s, leq)
    decreases s
  {
    var e :| e in s;
    if s == {e} {
      m := e;
    } else {
      var rest := LeastExists(s - {e}, leq);
      m := if leq(rest, e) then rest else e;
      forall x | x in s ensures leq(m, x) {
        assert x == e || x in s - {e};
      }
    }
  }

  /** The last write to a key is the one that stays. */
  lemma Overwrite<K, V>(m: map<K, V>, k: K, first: V, last: V)
    ensures m[k := first][k := last] == m[k := last]
  {
  }
}
