/** Paths in a finite directed graph given by its successor sets. */
module Reachability {

  predicate Edge<T(==)>(succ: map<T, set<T>>, a: T, b: T) {
    a in succ && b in succ[a]
  }

  ghost predicate IsPath<T>(succ: map<T, set<T>>, p: seq<T>) {
    forall i, j | 0 <= i < j < |p| && j == i + 1 :: Edge(succ, p[i], p[j])
  }

  /** `n` is one of `roots` or the end of a path that starts in one of them. */
  ghost predicate Reach<T(!new)>(succ: map<T, set<T>>, roots: set<T>, n: T) {
    exists p: seq<T> :: |p| > 0 && p[0] in roots && p[|p| - 1] == n && IsPath(succ, p)
  }

  ghost predicate Closed<T(!new)>(succ: map<T, set<T>>, s: set<T>) {
    forall a, b | a in s && Edge(succ, a, b) :: b in s
  }

  lemma ReachRoot<T(!new)>(succ: map<T, set<T>>, roots: set<T>, n: T)
    requires n in roots
    ensures Reach(succ, roots, n)
  {
    var p := [n];
    assert p[0] in roots && p[|p| - 1] == n && IsPath(succ, p);
  }

  lemma ReachStep<T(!new)>(succ: map<T, set<T>>, roots: set<T>, a: T, b: T)
    requires Reach(succ, roots, a) && Edge(succ, a, b)
    ensures Reach(succ, roots, b)
  {
    var p: seq<T> :| |p| > 0 && p[0] in roots && p[|p| - 1] == a && IsPath(succ, p);
    var q := p + [b];
    assert q[0] in roots && q[|q| - 1] == b && IsPath(succ, q);
  }

  /** Everything reachable lies in any closed set that holds the roots. */
  lemma {:induction false} PathStaysInside<T(!new)>(succ: map<T, set<T>>, s: set<T>, p: seq<T>)
    requires |p| > 0 && p[0] in s && IsPath(succ, p) && Closed(succ, s)
    ensures p[|p| - 1] in s
  {
    if |p| > 1 {
      PathStaysInside(succ, s, p[..|p| - 1]);
      assert Edge(succ, p[|p| - 2], p[|p| - 1]);
    }
  }

  lemma ReachInClosed<T(!new)>(succ: map<T, set<T>>, roots: set<T>, s: set<T>, n: T)
    requires roots <= s && Closed(succ, s) && Reach(succ, roots, n)
    ensures n in s
  {
    var p: seq<T> :| |p| > 0 && p[0] in roots && p[|p| - 1] == n && IsPath(succ, p);
    PathStaysInside(succ, s, p);
  }

  /** What is reachable from a successor is reachable. */
  lemma ReachVia<T(!new)>(succ: map<T, set<T>>, a: T, b: T, n: T)
    requires Edge(succ, a, b) && Reach(succ, {b}, n)
    ensures Reach(succ, {a}, n)
  {
    ReachRoot(succ, {a}, a);
    ReachStep(succ, {a}, a, b);
    ReachTransitive(succ, {a}, {b}, n);
  }

  /** Another node is reached through one of the successors. */
  lemma ReachFirst<T(!new)>(succ: map<T, set<T>>, a: T, n: T) returns (b: T)
    requires Reach(succ, {a}, n) && n != a
    ensures Edge(succ, a, b) && Reach(succ, {b}, n)
  {
    var p: seq<T> :| |p| > 0 && p[0] in {a} && p[|p| - 1] == n && IsPath(succ, p);
    b := p[1];
    var rest := p[1..];
    assert Edge(succ, p[0], p[1]);
    forall i, j | 0 <= i < j < |rest| && j == i + 1
      ensures Edge(succ, rest[i], rest[j])
    {
      assert Edge(succ, p[i + 1], p[j + 1]);
    }
    assert rest[0] in {b} && rest[|rest| - 1] == n && IsPath(succ, rest);
  }

  /** What is no root is reached over a last edge. */
  lemma ReachLast<T(!new)>(succ: map<T, set<T>>, roots: set<T>, n: T) returns (a: T)
    requires Reach(succ, roots, n) && n !in roots
    ensures Reach(succ, roots, a) && Edge(succ, a, n)
  {
    var p: seq<T> :| |p| > 0 && p[0] in roots && p[|p| - 1] == n && IsPath(succ, p);
    var front := p[..|p| - 1];
    a := front[|front| - 1];
    assert Edge(succ, p[|p| - 2], p[|p| - 1]);
    assert front[0] in roots && IsPath(succ, front);
  }

  /** Reachability composes: what a reachable node reaches is reachable. */
  lemma ReachTransitive<T(!new)>(succ: map<T, set<T>>, roots: set<T>, mid: set<T>, n: T)
    requires forall m | m in mid :: Reach(succ, roots, m)
    requires Reach(succ, mid, n)
    ensures Reach(succ, roots, n)
  {
    var p: seq<T> :| |p| > 0 && p[0] in mid && p[|p| - 1] == n && IsPath(succ, p);
    var q: seq<T> :| |q| > 0 && q[0] in roots && q[|q| - 1] == p[0] && IsPath(succ, q);
    var r := q + p[1..];
    forall i, j | 0 <= i < j < |r| && j == i + 1
      ensures Edge(succ, r[i], r[j])
    {
      if i >= |q| - 1 {
        assert r[i] == p[i - |q| + 1] && r[j] == p[j - |q| + 1];
      }
    }
    assert r[0] in roots && r[|r| - 1] == n && IsPath(succ, r);
  }
}
