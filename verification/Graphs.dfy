/** Finite directed graphs as the kernel holds them: an adjacency mapping whose
    missing keys have no successors. Paths, reachability and directed cycles. */
module Graphs {

  type Graph<T(==)> = map<T, set<T>>

  /** `edges.get(node, ())` */
  function Succ<T(==)>(g: Graph<T>, v: T): set<T> {
    if v in g then g[v] else {}
  }

  function Targets<T(==)>(g: Graph<T>): set<T> {
    set v, w | v in g && w in g[v] :: w
  }

  function Nodes<T(==)>(g: Graph<T>): set<T> {
    g.Keys + Targets(g)
  }

  ghost predicate IsPath<T(!new)>(g: Graph<T>, p: seq<T>) {
    |p| > 0 && forall i :: 0 <= i < |p| - 1 ==> p[i + 1] in Succ(g, p[i])
  }

  ghost predicate PathFromTo<T(!new)>(g: Graph<T>, p: seq<T>, v: T, w: T) {
    IsPath(g, p) && p[0] == v && p[|p| - 1] == w
  }

  ghost predicate Reach<T(!new)>(g: Graph<T>, v: T, w: T) {
    exists p :: PathFromTo(g, p, v, w)
  }

  /** A closed walk with at least one edge. */
  ghost predicate IsCycle<T(!new)>(g: Graph<T>, p: seq<T>) {
    IsPath(g, p) && |p| > 1 && p[0] == p[|p| - 1]
  }

  ghost predicate Acyclic<T(!new)>(g: Graph<T>) {
    forall p :: !IsCycle(g, p)
  }

  ghost predicate Closed<T(!new)>(g: Graph<T>, s: set<T>) {
    forall v :: v in s ==> Succ(g, v) <= s
  }

  lemma ReachRefl<T(!new)>(g: Graph<T>, v: T)
    ensures Reach(g, v, v)
  {
    assert PathFromTo(g, [v], v, v);
  }

  lemma ReachEdge<T(!new)>(g: Graph<T>, v: T, w: T)
    requires w in Succ(g, v)
    ensures Reach(g, v, w)
  {
    assert PathFromTo(g, [v, w], v, w);
  }

  lemma ReachTrans<T(!new)>(g: Graph<T>, u: T, v: T, w: T)
    requires Reach(g, u, v) && Reach(g, v, w)
    ensures Reach(g, u, w)
  {
    var p :| PathFromTo(g, p, u, v);
    var q :| PathFromTo(g, q, v, w);
    var r := p + q[1..];
    forall i | 0 <= i < |r| - 1
      ensures r[i + 1] in Succ(g, r[i])
    {
      if i >= |p| - 1 {
        var j := i - (|p| - 1);
        assert r[i] == q[j] && r[i + 1] == q[j + 1];
      }
    }
    assert PathFromTo(g, r, u, w);
  }

  lemma {:induction false} PathStaysInside<T(!new)>(g: Graph<T>, s: set<T>, p: seq<T>, i: nat)
    requires Closed(g, s) && IsPath(g, p) && p[0] in s && i < |p|
    ensures p[i] in s
  {
    if i > 0 {
      PathStaysInside(g, s, p, i - 1);
      assert p[i - 1 + 1] in Succ(g, p[i - 1]);
    }
  }

  /** Nothing outside a closed set is reachable from inside it. */
  lemma ReachClosed<T(!new)>(g: Graph<T>, s: set<T>, v: T, w: T)
    requires Closed(g, s) && v in s && Reach(g, v, w)
    ensures w in s
  {
    var p :| PathFromTo(g, p, v, w);
    PathStaysInside(g, s, p, |p| - 1);
  }

  lemma SubPath<T(!new)>(g: Graph<T>, p: seq<T>, i: nat, j: nat)
    requires IsPath(g, p) && i <= j < |p|
    ensures Reach(g, p[i], p[j])
  {
    var q := p[i..j + 1];
    forall k | 0 <= k < |q| - 1
      ensures q[k + 1] in Succ(g, q[k])
    {
      assert p[i + k + 1] in Succ(g, p[i + k]);
    }
    assert PathFromTo(g, q, p[i], p[j]);
  }

  /** A closed walk exists exactly when some edge can be travelled back. */
  lemma CycleIffReturningEdge<T(!new)>(g: Graph<T>)
    ensures Acyclic(g) <==> forall v, w :: w in Succ(g, v) ==> !Reach(g, w, v)
  {
    if !Acyclic(g) {
      var p :| IsCycle(g, p);
      assert p[0 + 1] in Succ(g, p[0]);
      SubPath(g, p, 1, |p| - 1);
    }
    if v, w :| w in Succ(g, v) && Reach(g, w, v) {
      var q :| PathFromTo(g, q, w, v);
      var p := [v] + q;
      forall i | 0 <= i < |p| - 1
        ensures p[i + 1] in Succ(g, p[i])
      {
        if i > 0 { assert q[i - 1 + 1] in Succ(g, q[i - 1]); }
      }
      assert IsCycle(g, p);
    }
  }

  /** A node reaches itself and whatever its successors reach. */
  lemma ReachUnfold<T(!new)>(g: Graph<T>, v: T, x: T)
    ensures Reach(g, v, x) <==> x == v || exists w :: w in Succ(g, v) && Reach(g, w, x)
  {
    if Reach(g, v, x) && x != v {
      var p :| PathFromTo(g, p, v, x);
      assert p[0 + 1] in Succ(g, p[0]);
      SubPath(g, p, 1, |p| - 1);
    }
    if x == v {
      ReachRefl(g, v);
    }
    if w :| w in Succ(g, v) && Reach(g, w, x) {
      ReachEdge(g, v, w);
      ReachTrans(g, v, w, x);
    }
  }

  /** Every edge of `g` is one of `h`. */
  lemma ReachMonotone<T(!new)>(g: Graph<T>, h: Graph<T>, v: T, w: T)
    requires forall x :: Succ(g, x) <= Succ(h, x)
    requires Reach(g, v, w)
    ensures Reach(h, v, w)
  {
    var p :| PathFromTo(g, p, v, w);
    forall i | 0 <= i < |p| - 1
      ensures p[i + 1] in Succ(h, p[i])
    {
      assert p[i + 1] in Succ(g, p[i]) && Succ(g, p[i]) <= Succ(h, p[i]);
    }
    assert PathFromTo(h, p, v, w);
  }
}
