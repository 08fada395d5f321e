/** Comprehension-style list operations. */
module Lists {

  function Filter<T(==, !new)>(keep: T -> bool, xs: seq<T>): (r: seq<T>)
    ensures forall x :: x in r <==> x in xs && keep(x)
    ensures |r| <= |xs|
  {
    if xs == [] then []
    else (if keep(xs[0]) then [xs[0]] else []) + Filter(keep, xs[1..])
  }

  /** Filtering keeps how often each wanted element occurs. */
  lemma {:induction false} FilterCounts<T(!new)>(keep: T -> bool, xs: seq<T>, x: T)
    ensures multiset(Filter(keep, xs))[x] == if keep(x) then multiset(xs)[x] else 0
  {
    if xs != [] {
      FilterCounts(keep, xs[1..], x);
      assert xs == [xs[0]] + xs[1..];
    }
  }

  lemma {:induction false} FilterInit<T(!new)>(keep: T -> bool, xs: seq<T>)
    requires xs != []
    ensures var n := |xs| - 1; Filter(keep, xs) == Filter(keep, xs[..n]) + if keep(xs[n]) then [xs[n]] else []
  {
    if |xs| > 1 {
      FilterInit(keep, xs[1..]);
      assert xs[1..][..|xs| - 2] == xs[..|xs| - 1][1..];
    }
  }

  /** The positions of the wanted elements. */
  ghost function Where<T>(keep: T -> bool, xs: seq<T>): set<int> {
    set i | 0 <= i < |xs| && keep(xs[i])
  }

  lemma WhereInit<T>(keep: T -> bool, xs: seq<T>, n: nat)
    requires |xs| == n + 1
    ensures |Where(keep, xs)| == |Where(keep, xs[..n])| + if keep(xs[n]) then 1 else 0
  {
    var init := xs[..n];
    forall i ensures i in Where(keep, xs) <==> i in Where(keep, init) || (i == n && keep(xs[n])) {
      assert 0 <= i < n ==> init[i] == xs[i];
    }
    assert Where(keep, xs) == Where(keep, init) + if keep(xs[n]) then {n} else {};
  }

  lemma {:induction false} FilterCount<T(!new)>(keep: T -> bool, xs: seq<T>)
    ensures |Filter(keep, xs)| == |Where(keep, xs)|
  {
    if xs != [] {
      var n := |xs| - 1;
      FilterInit(keep, xs);
      WhereInit(keep, xs, n);
      FilterCount(keep, xs[..n]);
    }
  }

  function Elements<T(==, !new)>(xs: seq<T>): (s: set<T>)
    ensures forall x :: x in s <==> x in xs
  {
    set x | x in xs
  }

  function Clamp(x: int, low: nat, high: nat): (r: nat)
    requires low <= high
    ensures low <= r <= high
    ensures low <= x <= high ==> r == x
  {
    if x < low then low else if x > high then high else x
  }

  lemma TailOfConcat<T>(a: seq<T>, b: seq<T>)
    requires a != []
    ensures (a + b)[0] == a[0] && (a + b)[1..] == a[1..] + b
  {
  }

  lemma InitOfConcat<T>(a: seq<T>, b: seq<T>)
    requires b != []
    ensures (a + b)[|a + b| - 1] == b[|b| - 1] && (a + b)[..|a + b| - 1] == a + b[..|b| - 1]
  {
  }
}
