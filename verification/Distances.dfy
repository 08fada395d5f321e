/** Walks, distances and balls in an adjacency map: the reference notions that every breadth-first search
    of the repository is measured against. */
module Distances {

  type Adjacency = map<string, set<string>>

  /** `adjacency.get(node, set())` */
  function Succ(adj: Adjacency, v: string): set<string> {
    if v in adj then adj[v] else {}
  }

  /** A walk is a non-empty sequence of nodes in which each is a successor of the one before. */
  ghost predicate IsWalk(adj: Adjacency, p: seq<string>) {
    p != [] && forall i, j :: 0 <= i < j < |p| && j == i + 1 ==> p[j] in Succ(adj, p[i])
  }

  ghost predicate WalkBetween(adj: Adjacency, a: string, b: string, p: seq<string>) {
    IsWalk(adj, p) && p[0] == a && p[|p| - 1] == b
  }

  /** `b` can be reached from `a` in at most `n` steps. */
  ghost predicate Within(adj: Adjacency, a: string, b: string, n: nat) {
    exists p :: WalkBetween(adj, a, b, p) && |p| - 1 <= n
  }

  /** The shortest walk from `a` to `b` has `n` steps. */
  ghost predicate Distance(adj: Adjacency, a: string, b: string, n: nat) {
    Within(adj, a, b, n) && forall m: nat :: m < n ==> !Within(adj, a, b, m)
  }

  ghost predicate Reaches(adj: Adjacency, a: string, b: string) {
    exists p :: WalkBetween(adj, a, b, p)
  }

  /** The nodes at most `n` steps away, computed level by level. */
  function Ball(adj: Adjacency, c: string, n: nat): set<string> {
    if n == 0 then {c} else Ball(adj, c, n - 1) + Frontier(adj, Ball(adj, c, n - 1))
  }

  function Frontier(adj: Adjacency, s: set<string>): set<string> {
    set v, w | v in s && w in Succ(adj, v) :: w
  }

  lemma {:induction false} BallGrows(adj: Adjacency, c: string, m: nat, n: nat)
    requires m <= n
    ensures Ball(adj, c, m) <= Ball(adj, c, n)
    decreases n - m
  {
    if m < n {
      BallGrows(adj, c, m + 1, n);
    }
  }

  lemma BallStep(adj: Adjacency, c: string, n: nat, v: string, w: string)
    requires v in Ball(adj, c, n) && w in Succ(adj, v)
    ensures w in Ball(adj, c, n + 1)
  {
    assert w in Frontier(adj, Ball(adj, c, n));
  }

  lemma {:induction false} WalkStaysInBall(adj: Adjacency, c: string, p: seq<string>)
    requires IsWalk(adj, p) && p[0] == c
    ensures p[|p| - 1] in Ball(adj, c, |p| - 1)
  {
    if |p| > 1 {
      var q := p[..|p| - 1];
      assert IsWalk(adj, q);
      WalkStaysInBall(adj, c, q);
      BallStep(adj, c, |q| - 1, q[|q| - 1], p[|p| - 1]);
    }
  }

  lemma {:induction false} BallHasWalk(adj: Adjacency, c: string, n: nat, v: string) returns (p: seq<string>)
    requires v in Ball(adj, c, n)
    ensures WalkBetween(adj, c, v, p) && |p| - 1 <= n
  {
    if n == 0 {
      p := [c];
    } else if v in Ball(adj, c, n - 1) {
      p := BallHasWalk(adj, c, n - 1, v);
    } else {
      var u :| u in Ball(adj, c, n - 1) && v in Succ(adj, u);
      var q := BallHasWalk(adj, c, n - 1, u);
      p := q + [v];
    }
  }

  /** The level-by-level ball is exactly the set of nodes within `n` steps. */
  lemma BallIsWithin(adj: Adjacency, c: string, n: nat, v: string)
    ensures v in Ball(adj, c, n) <==> Within(adj, c, v, n)
  {
    if v in Ball(adj, c, n) {
      var p := BallHasWalk(adj, c, n, v);
    }
    if Within(adj, c, v, n) {
      var p :| WalkBetween(adj, c, v, p) && |p| - 1 <= n;
      WalkStaysInBall(adj, c, p);
      BallGrows(adj, c, |p| - 1, n);
    }
  }

  lemma FiniteReach(adj: Adjacency, c: string, n: nat) returns (reach: set<string>)
    ensures forall v :: Within(adj, c, v, n) ==> v in reach
  {
    reach := Ball(adj, c, n);
    forall v ensures v in reach <==> Within(adj, c, v, n) { BallIsWithin(adj, c, n, v); }
  }

  lemma WithinGrows(adj: Adjacency, a: string, b: string, m: nat, n: nat)
    requires Within(adj, a, b, m) && m <= n
    ensures Within(adj, a, b, n)
  {
    var p :| WalkBetween(adj, a, b, p) && |p| - 1 <= m;
  }

  lemma WithinZero(adj: Adjacency, a: string, b: string)
    ensures Within(adj, a, b, 0) <==> a == b
  {
    if a == b {
      assert WalkBetween(adj, a, b, [a]);
    }
  }

  lemma WithinStep(adj: Adjacency, a: string, u: string, w: string, n: nat)
    requires Within(adj, a, u, n) && w in Succ(adj, u)
    ensures Within(adj, a, w, n + 1)
  {
    var p :| WalkBetween(adj, a, u, p) && |p| - 1 <= n;
    assert WalkBetween(adj, a, w, p + [w]);
  }

  lemma WithinLast(adj: Adjacency, a: string, w: string, n: nat) returns (u: string)
    requires n > 0 && Within(adj, a, w, n) && !Within(adj, a, w, n - 1)
    ensures Within(adj, a, u, n - 1) && w in Succ(adj, u)
  {
    var p :| WalkBetween(adj, a, w, p) && |p| - 1 <= n;
    var q := p[..|p| - 1];
    u := q[|q| - 1];
    assert WalkBetween(adj, a, u, q);
  }

  lemma DistanceUnique(adj: Adjacency, c: string, v: string, m: nat, n: nat)
    requires Distance(adj, c, v, m) && Distance(adj, c, v, n)
    ensures m == n
  {
    assert m < n || n < m || m == n;
  }

  ghost predicate Converse(adj: Adjacency, rev: Adjacency) {
    forall u, v :: v in Succ(adj, u) <==> u in Succ(rev, v)
  }

  function Reversed(p: seq<string>): (r: seq<string>)
    ensures |r| == |p| && forall i :: 0 <= i < |p| ==> r[i] == p[|p| - 1 - i]
  {
    if p == [] then [] else Reversed(p[1..]) + [p[0]]
  }

  lemma WithinConverse(adj: Adjacency, rev: Adjacency, a: string, b: string, n: nat)
    requires Converse(adj, rev)
    ensures Within(adj, a, b, n) ==> Within(rev, b, a, n)
  {
    if Within(adj, a, b, n) {
      var p :| WalkBetween(adj, a, b, p) && |p| - 1 <= n;
      var q := Reversed(p);
      forall i, j | 0 <= i < j < |q| && j == i + 1 ensures q[j] in Succ(rev, q[i]) {
        assert p[|p| - 1 - i] in Succ(adj, p[|p| - 1 - j]);
      }
      assert WalkBetween(rev, b, a, q);
    }
  }

  /** Reversing every step turns the distance from `a` to `b` into the distance from `b` to `a`. */
  lemma DistanceConverse(adj: Adjacency, rev: Adjacency, a: string, b: string, n: nat)
    requires Converse(adj, rev)
    ensures Distance(adj, a, b, n) <==> Distance(rev, b, a, n)
  {
    forall m: nat ensures Within(adj, a, b, m) <==> Within(rev, b, a, m) {
      WithinConverse(adj, rev, a, b, m);
      WithinConverse(rev, adj, b, a, m);
    }
  }

  lemma WithinDependsOnSteps(adj: Adjacency, same: Adjacency, a: string, b: string, n: nat)
    requires forall u, v :: v in Succ(adj, u) <==> v in Succ(same, u)
    ensures Within(adj, a, b, n) ==> Within(same, a, b, n)
  {
    if Within(adj, a, b, n) {
      var p :| WalkBetween(adj, a, b, p) && |p| - 1 <= n;
      assert WalkBetween(same, a, b, p);
    }
  }

  /** Distances depend on which steps exist, not on how the map stores them. */
  lemma DistanceDependsOnSteps(adj: Adjacency, same: Adjacency, a: string, b: string, n: nat)
    requires forall u, v :: v in Succ(adj, u) <==> v in Succ(same, u)
    ensures Distance(adj, a, b, n) <==> Distance(same, a, b, n)
  {
    forall m: nat ensures Within(adj, a, b, m) <==> Within(same, a, b, m) {
      WithinDependsOnSteps(adj, same, a, b, m);
      WithinDependsOnSteps(same, adj, a, b, m);
    }
  }
}
