/** The import-cycle counter of the boundary analysis: Tarjan's algorithm over mutable
    numbering, low-link and stack state, proved to count exactly the cyclic
    mutual-reachability classes of any finite graph. */
module ImportCycles {
  import opened Graphs
  import opened Wrappers

  /** A source path. */
  type Node = string

  // ---- what is counted -------------------------------------------------------------

  ghost predicate Mutual(g: Graph<Node>, v: Node, w: Node) {
    Reach(g, v, w) && Reach(g, w, v)
  }

  /** The mutual-reachability class of a node. */
  ghost function Class(g: Graph<Node>, v: Node): (c: set<Node>) {
    set w | w in Nodes(g) && Mutual(g, v, w)
  }

  /** A class that stands for an import cycle: several nodes, or one importing itself. */
  ghost predicate Cyclic(g: Graph<Node>, c: set<Node>) {
    |c| > 1 || exists v :: v in c && v in Succ(g, v)
  }

  ghost function Classes(g: Graph<Node>, s: set<Node>): set<set<Node>> {
    set v | v in s :: Class(g, v)
  }

  ghost function CyclicClasses(g: Graph<Node>, s: set<Node>): set<set<Node>> {
    set c | c in Classes(g, s) && Cyclic(g, c)
  }

  // ---- the search state and its invariant ------------------------------------------

  /** Numbers given so far, the nodes still stacked, the next number, and the nodes whose
      visit has not returned. */
  datatype Search = Search(index: map<Node, nat>, onStack: set<Node>, count: nat, gray: set<Node>) {
    ghost function Finished(): set<Node> {
      index.Keys - onStack
    }
  }

  ghost predicate Numbered(g: Graph<Node>, s: Search) {
    && s.gray <= s.onStack <= s.index.Keys <= Nodes(g)
    && (forall v :: v in s.index ==> s.index[v] < s.count)
    && (forall v, w :: v in s.index && w in s.index && s.index[v] == s.index[w] ==> v == w)
  }

  /** A node whose visit returned has only numbered successors; a finished one only
      finished successors. */
  ghost predicate Explored(g: Graph<Node>, s: Search) {
    && (forall v :: v in s.index && v !in s.gray ==> Succ(g, v) <= s.index.Keys)
    && Closed(g, s.Finished())
  }

  /** `y` reaches an open node numbered no higher. */
  ghost predicate Anchored(g: Graph<Node>, s: Search, y: Node)
    requires y in s.index && s.gray <= s.index.Keys
  {
    exists x :: x in s.gray && s.index[x] <= s.index[y] && Reach(g, y, x)
  }

  /** Open nodes reach everything stacked after them, and every stacked node is anchored. */
  ghost predicate Linked(g: Graph<Node>, s: Search)
    requires Numbered(g, s)
  {
    && (forall x, y :: x in s.gray && y in s.onStack && s.index[x] <= s.index[y] ==> Reach(g, x, y))
    && (forall y {:trigger Anchored(g, s, y)} :: y in s.onStack ==> Anchored(g, s, y))
  }

  ghost predicate Wf(g: Graph<Node>, s: Search) {
    Numbered(g, s) && Explored(g, s) && Linked(g, s)
  }

  /** `t` continues `s`: numbers are kept, later numbers are larger, no earlier node entered
      or left the stack, and the same visits are open. */
  ghost predicate Extends(s: Search, t: Search) {
    && s.index.Keys <= t.index.Keys
    && (forall v :: v in s.index ==> t.index[v] == s.index[v])
    && (forall v :: v in t.index && v !in s.index ==> s.count <= t.index[v])
    && t.onStack * s.index.Keys == s.onStack
    && s.count <= t.count
    && s.gray == t.gray
  }

  /** No edge leads from a node of `from` to a node of `base` numbered below `n`. */
  ghost predicate LowCovers(g: Graph<Node>, index: map<Node, nat>, from: set<Node>, base: set<Node>, n: nat)
    requires base <= index.Keys
  {
    forall u, w :: u in from && w in Succ(g, u) && w in base ==> n <= index[w]
  }

  /** `n` is the number of a node of `base` reachable from `v`. */
  ghost predicate LowWitness(g: Graph<Node>, index: map<Node, nat>, base: set<Node>, v: Node, n: nat)
    requires base <= index.Keys
  {
    exists y :: y in base && index[y] == n && Reach(g, v, y)
  }

  /** What one visit of `v` leaves behind, `n` being its low link. */
  ghost predicate Visited(g: Graph<Node>, s: Search, t: Search, v: Node, n: nat) {
    && Wf(g, s) && Wf(g, t) && Extends(s, t)
    && v !in s.index && v in t.index
    && (if v in t.onStack then n < t.index[v] && LowWitness(g, t.index, s.onStack, v, n)
        else n == t.index[v] && t.onStack == s.onStack)
    && LowCovers(g, t.index, t.onStack - s.onStack, s.onStack, n)
  }

  ghost function Pushed(s: Search, v: Node): Search {
    Search(s.index[v := s.count], s.onStack + {v}, s.count + 1, s.gray + {v})
  }

  /** The successor loop of the visit of `v`, entered from `s`, once the successors in `seen`
      are done. */
  ghost predicate Scanning(g: Graph<Node>, s: Search, t: Search, v: Node, seen: set<Node>, n: nat) {
    && Wf(g, s) && Wf(g, t)
    && v !in s.index
    && Extends(Pushed(s, v), t)
    && seen <= Succ(g, v) && seen <= t.index.Keys
    && n <= t.index[v]
    && LowWitness(g, t.index, s.onStack + {v}, v, n)
    && LowCovers(g, t.index, t.onStack - s.onStack - {v}, s.onStack, n)
    && (forall w :: w in seen && w in s.onStack ==> n <= t.index[w])
  }

  lemma PushStarts(g: Graph<Node>, s: Search, v: Node)
    requires Wf(g, s) && v in Nodes(g) && v !in s.index
    requires forall x :: x in s.gray ==> Reach(g, x, v)
    ensures Scanning(g, s, Pushed(s, v), v, {}, s.count)
  {
    WfPushed(g, s, v);
    ReachRefl(g, v);
    assert v in s.onStack + {v} && Pushed(s, v).index[v] == s.count;
  }

  lemma WfPushed(g: Graph<Node>, s: Search, v: Node)
    requires Wf(g, s) && v in Nodes(g) && v !in s.index
    requires forall x :: x in s.gray ==> Reach(g, x, v)
    ensures Wf(g, Pushed(s, v))
  {
    var t := Pushed(s, v);
    assert t.Finished() == s.Finished();
    assert Numbered(g, t);
    assert Explored(g, t);
    ReachRefl(g, v);
    forall x, y | x in t.gray && y in t.onStack && t.index[x] <= t.index[y]
      ensures Reach(g, x, y)
    {
    }
    forall y | y in t.onStack
      ensures Anchored(g, t, y)
    {
      if y in s.onStack {
        assert Anchored(g, s, y);
        var x :| x in s.gray && s.index[x] <= s.index[y] && Reach(g, y, x);
        assert x in t.gray && t.index[x] <= t.index[y];
      } else {
        assert v in t.gray && t.index[v] <= t.index[v];
      }
    }
    assert Linked(g, t);
  }

  /** Every open node reaches a successor of the node being visited. */
  lemma OpenReachSuccessor(g: Graph<Node>, s: Search, t: Search, v: Node, seen: set<Node>, n: nat, x: Node, w: Node)
    requires Scanning(g, s, t, v, seen, n) && w in Succ(g, v) && x in t.gray
    ensures Reach(g, x, w) && w in Nodes(g)
  {
    assert Pushed(s, v).index[v] == s.count && v in t.onStack;
    if x != v {
      assert t.index[x] == s.index[x] < s.count == t.index[v];
    }
    assert Reach(g, x, v);
    ReachEdge(g, v, w);
    ReachTrans(g, x, v, w);
  }

  /** An already finished successor leaves the low link alone. */
  lemma ScanFinished(g: Graph<Node>, s: Search, t: Search, v: Node, seen: set<Node>, n: nat, w: Node)
    requires Scanning(g, s, t, v, seen, n) && w in Succ(g, v) && w in t.index && w !in t.onStack
    ensures Scanning(g, s, t, v, seen + {w}, n)
  {
    assert s.onStack <= t.onStack;
  }

  /** A stacked successor offers its number. */
  lemma ScanStacked(g: Graph<Node>, s: Search, t: Search, v: Node, seen: set<Node>, n: nat, w: Node)
    requires Scanning(g, s, t, v, seen, n) && w in Succ(g, v) && w in t.onStack
    ensures Scanning(g, s, t, v, seen + {w}, Min(n, t.index[w]))
  {
    var m := Min(n, t.index[w]);
    assert Pushed(s, v).index[v] == s.count == t.index[v];
    ReachEdge(g, v, w);
    if t.index[w] < n {
      assert w in Pushed(s, v).index;
      assert w in s.onStack + {v} && t.index[w] == m && Reach(g, v, w);
    }
    assert LowWitness(g, t.index, s.onStack + {v}, v, m);
    assert LowCovers(g, t.index, t.onStack - s.onStack - {v}, s.onStack, m);
  }

  lemma ExtendsTrans(s: Search, t: Search, u: Search)
    requires Extends(s, t) && Extends(t, u)
    ensures Extends(s, u)
  {
  }

  /** A successor visited on the way offers its low link. */
  lemma ScanVisited(g: Graph<Node>, s: Search, t: Search, u: Search, v: Node, seen: set<Node>, n: nat, w: Node, m: nat)
    requires Scanning(g, s, t, v, seen, n) && w in Succ(g, v)
    requires Visited(g, t, u, w, m)
    ensures Scanning(g, s, u, v, seen + {w}, Min(n, m))
  {
    ExtendsTrans(Pushed(s, v), t, u);
    ScanVisitedWitness(g, s, t, u, v, n, w, m);
    ScanVisitedCovers(g, s, t, u, v, n, m);
    VisitedSeen(g, s, t, u, v, seen, n, w, m);
    hide Wf, Extends, LowWitness, LowCovers;
  }

  /** The low link stays below the node's own number and those of the stacked successors seen. */
  lemma VisitedSeen(g: Graph<Node>, s: Search, t: Search, u: Search, v: Node, seen: set<Node>, n: nat, w: Node, m: nat)
    requires Numbered(g, s) && v !in s.index && w !in t.index && w in u.index
    requires Extends(Pushed(s, v), t) && Extends(t, u)
    requires seen <= t.index.Keys && n <= t.index[v] && forall x :: x in seen && x in s.onStack ==> n <= t.index[x]
    ensures seen + {w} <= u.index.Keys && v in u.index && Min(n, m) <= u.index[v] && s.onStack + {v} <= u.index.Keys
    ensures forall x :: x in seen + {w} && x in s.onStack ==> Min(n, m) <= u.index[x]
  {
  }

  lemma ScanVisitedWitness(g: Graph<Node>, s: Search, t: Search, u: Search, v: Node, n: nat, w: Node, m: nat)
    requires Wf(g, s) && Wf(g, t) && Wf(g, u) && Extends(Pushed(s, v), t) && Extends(t, u) && v !in s.index
    requires n <= t.index[v] && LowWitness(g, t.index, s.onStack + {v}, v, n)
    requires w in Succ(g, v) && Visited(g, t, u, w, m)
    ensures LowWitness(g, u.index, s.onStack + {v}, v, Min(n, m))
  {
    assert Pushed(s, v).index[v] == s.count == t.index[v];
    if n <= m {
      var y :| y in s.onStack + {v} && t.index[y] == n && Reach(g, v, y);
      assert u.index[y] == n;
    } else {
      assert w in u.onStack;
      var y :| y in t.onStack && u.index[y] == m && Reach(g, w, y);
      ReachEdge(g, v, w);
      ReachTrans(g, v, w, y);
      assert t.index[y] == m < s.count;
      assert y in Pushed(s, v).index && y in s.onStack + {v};
    }
  }

  lemma ScanVisitedCovers(g: Graph<Node>, s: Search, t: Search, u: Search, v: Node, n: nat, m: nat)
    requires Numbered(g, s) && Numbered(g, t) && Numbered(g, u) && v !in s.index
    requires Extends(Pushed(s, v), t) && Extends(t, u)
    requires LowCovers(g, t.index, t.onStack - s.onStack - {v}, s.onStack, n)
    requires LowCovers(g, u.index, u.onStack - t.onStack, t.onStack, m)
    ensures LowCovers(g, u.index, u.onStack - s.onStack - {v}, s.onStack, Min(n, m))
  {
    assert s.onStack <= t.onStack;
    forall x, w | x in u.onStack - s.onStack - {v} && w in Succ(g, x) && w in s.onStack
      ensures Min(n, m) <= u.index[w]
    {
      if x in t.onStack {
        assert n <= t.index[w];
      } else {
        assert m <= u.index[w];
      }
    }
  }

  // ---- closing a visit ---------------------------------------------------------------

  ghost function Kept(s: Search, t: Search): Search {
    Search(t.index, t.onStack, t.count, s.gray)
  }

  ghost function Popped(s: Search, t: Search): Search {
    Search(t.index, s.onStack, t.count, s.gray)
  }

  /** Forgetting that `v` is open, with or without its segment, still continues the state before it. */
  lemma ClosedExtends(s: Search, t: Search, v: Node)
    requires s.onStack <= s.index.Keys && v !in s.index && Extends(Pushed(s, v), t)
    ensures Extends(s, Kept(s, t)) && Extends(s, Popped(s, t))
    ensures v in t.index && v in t.onStack && t.index[v] == s.count && s.onStack <= t.onStack
  {
    assert Pushed(s, v).index[v] == s.count == t.index[v];
  }

  /** A low link below the node's own number leaves the node stacked. */
  lemma CloseKeeps(g: Graph<Node>, s: Search, t: Search, v: Node, n: nat)
    requires Scanning(g, s, t, v, Succ(g, v), n) && n < t.index[v]
    ensures Visited(g, s, Kept(s, t), v, n)
  {
    ClosedExtends(s, t, v);
    WfKept(g, s, t, v, n);
    KeptLow(g, s, t, v, n);
    hide Wf, Extends, LowWitness, LowCovers;
  }

  lemma KeptLow(g: Graph<Node>, s: Search, t: Search, v: Node, n: nat)
    requires s.onStack + {v} <= t.index.Keys && n < t.index[v]
    requires LowWitness(g, t.index, s.onStack + {v}, v, n)
    requires LowCovers(g, t.index, t.onStack - s.onStack - {v}, s.onStack, n)
    requires forall w :: w in Succ(g, v) && w in s.onStack ==> n <= t.index[w]
    ensures LowWitness(g, t.index, s.onStack, v, n) && LowCovers(g, t.index, t.onStack - s.onStack, s.onStack, n)
  {
  }

  lemma WfKept(g: Graph<Node>, s: Search, t: Search, v: Node, n: nat)
    requires Scanning(g, s, t, v, Succ(g, v), n) && n < t.index[v]
    ensures Wf(g, Kept(s, t))
  {
    hide Explored, Anchored, Reach, LowWitness, LowCovers;
    var u := Kept(s, t);
    assert Pushed(s, v).index[v] == s.count == t.index[v];
    KeptExplored(g, s, t, v);
    forall y | y in u.onStack
      ensures Anchored(g, u, y)
    {
      KeptAnchored(g, s, t, v, n, y);
    }
  }

  lemma KeptExplored(g: Graph<Node>, s: Search, t: Search, v: Node)
    requires Wf(g, s) && Wf(g, t) && v !in s.index && Extends(Pushed(s, v), t)
    requires Succ(g, v) <= t.index.Keys
    ensures Numbered(g, Kept(s, t)) && Explored(g, Kept(s, t))
  {
    assert Kept(s, t).Finished() == t.Finished();
  }

  lemma KeptAnchored(g: Graph<Node>, s: Search, t: Search, v: Node, n: nat, y: Node)
    requires Wf(g, s) && Wf(g, t) && v !in s.index && Extends(Pushed(s, v), t)
    requires n < s.count && LowWitness(g, t.index, s.onStack + {v}, v, n)
    requires y in t.onStack
    ensures Anchored(g, Kept(s, t), y)
  {
    var u := Kept(s, t);
    assert Pushed(s, v).index[v] == s.count == t.index[v];
    assert Anchored(g, t, y);
    var x :| x in t.gray && t.index[x] <= t.index[y] && Reach(g, y, x);
    if x == v {
      var y0 :| y0 in s.onStack + {v} && t.index[y0] == n && Reach(g, v, y0);
      assert Anchored(g, s, y0);
      var x0 :| x0 in s.gray && s.index[x0] <= s.index[y0] && Reach(g, y0, x0);
      ReachTrans(g, v, y0, x0);
      ReachTrans(g, y, v, x0);
      assert x0 in u.gray && u.index[x0] <= u.index[y];
    } else {
      assert x in u.gray && u.index[x] <= u.index[y];
    }
  }

  /** A low link equal to the node's own number: what lies above it is exactly its class. */
  lemma TopIsClass(g: Graph<Node>, s: Search, t: Search, v: Node)
    requires Scanning(g, s, t, v, Succ(g, v), s.count)
    ensures t.onStack - s.onStack == Class(g, v)
  {
    var top := t.onStack - s.onStack;
    assert Pushed(s, v).index[v] == s.count == t.index[v];
    assert v in top;
    forall y | y in top
      ensures y in Class(g, v)
    {
      TopIsMutual(g, s, t, v, y);
    }
    forall w | w in Class(g, v)
      ensures w in top
    {
      ClassIsTop(g, s, t, v, w);
    }
  }

  lemma TopIsMutual(g: Graph<Node>, s: Search, t: Search, v: Node, y: Node)
    requires Scanning(g, s, t, v, Succ(g, v), s.count) && y in t.onStack && y !in s.onStack
    ensures Mutual(g, v, y)
  {
    assert Pushed(s, v).index[v] == s.count == t.index[v];
    assert y !in s.index;
    if y != v { assert y !in Pushed(s, v).index; }
    assert t.index[v] <= t.index[y];
    assert v in t.gray;
    assert Reach(g, v, y);
    assert Anchored(g, t, y);
    var x :| x in t.gray && t.index[x] <= t.index[y] && Reach(g, y, x);
    if x != v {
      assert x in s.gray && t.index[x] == s.index[x] < t.index[v];
    }
    assert Reach(g, x, v);
    ReachTrans(g, y, x, v);
  }

  lemma ClassIsTop(g: Graph<Node>, s: Search, t: Search, v: Node, w: Node)
    requires Scanning(g, s, t, v, Succ(g, v), s.count) && Mutual(g, v, w)
    ensures w in t.onStack - s.onStack
  {
    var top := t.onStack - s.onStack;
    assert Pushed(s, v).index[v] == s.count == t.index[v];
    assert v in top;
    ClosingClosed(g, s, t, v);
    ReachClosed(g, top + t.Finished(), v, w);
    if w in t.Finished() {
      ReachClosed(g, t.Finished(), w, v);
    }
  }

  /** With nothing pointing below `v`, its segment and the finished nodes are closed. */
  lemma ClosingClosed(g: Graph<Node>, s: Search, t: Search, v: Node)
    requires Scanning(g, s, t, v, Succ(g, v), s.count)
    ensures Closed(g, (t.onStack - s.onStack) + t.Finished())
  {
    var top := t.onStack - s.onStack;
    assert Pushed(s, v).index[v] == s.count == t.index[v];
    forall x, w | x in top && w in Succ(g, x)
      ensures w in top + t.Finished()
    {
      assert x == v || x !in t.gray;
      assert w in t.index;
      if w in s.onStack {
        assert false;
      }
    }
  }

  lemma ClosePops(g: Graph<Node>, s: Search, t: Search, v: Node)
    requires Scanning(g, s, t, v, Succ(g, v), s.count)
    ensures Visited(g, s, Popped(s, t), v, s.count)
    ensures Popped(s, t).Finished() == t.Finished() + Class(g, v)
    ensures t.Finished() !! Class(g, v)
  {
    TopIsClass(g, s, t, v);
    WfPopped(g, s, t, v);
    assert Wf(g, s) && s.onStack <= s.index.Keys && t.onStack <= t.index.Keys;
    ClosedExtends(s, t, v);
    hide Wf, Extends, Class, Scanning;
    assert LowCovers(g, t.index, {}, s.onStack, s.count);
  }

  lemma WfPopped(g: Graph<Node>, s: Search, t: Search, v: Node)
    requires Scanning(g, s, t, v, Succ(g, v), s.count)
    ensures Wf(g, Popped(s, t))
    ensures Popped(s, t).Finished() == (t.onStack - s.onStack) + t.Finished()
  {
    var u := Popped(s, t);
    ClosingClosed(g, s, t, v);
    assert u.Finished() == (t.onStack - s.onStack) + t.Finished();
    forall y | y in u.onStack
      ensures Anchored(g, u, y)
    {
      assert Anchored(g, s, y);
      var x :| x in s.gray && s.index[x] <= s.index[y] && Reach(g, y, x);
      assert x in u.gray && u.index[x] <= u.index[y];
    }
    assert Numbered(g, u);
    assert Explored(g, u);
    assert Linked(g, u);
  }

  // ---- counting ------------------------------------------------------------------------

  lemma ClassOfMember(g: Graph<Node>, v: Node, w: Node)
    requires w in Class(g, v)
    ensures Class(g, w) == Class(g, v)
  {
    forall x | x in Class(g, v)
      ensures x in Class(g, w)
    {
      ReachTrans(g, w, v, x);
      ReachTrans(g, x, v, w);
    }
    forall x | x in Class(g, w)
      ensures x in Class(g, v)
    {
      ReachTrans(g, v, w, x);
      ReachTrans(g, x, w, v);
    }
  }

  lemma ClassesGrow(g: Graph<Node>, done: set<Node>, v: Node)
    requires v in Nodes(g) && done <= Nodes(g) && done !! Class(g, v)
    ensures Classes(g, done + Class(g, v)) == Classes(g, done) + {Class(g, v)}
    ensures Class(g, v) !in Classes(g, done)
  {
    var c := Class(g, v);
    ReachRefl(g, v);
    assert v in c;
    forall w | w in c ensures Class(g, w) == c {
      ClassOfMember(g, v, w);
    }
    forall w | w in done ensures Class(g, w) != c {
      SameClassHolds(g, w, v);
    }
  }

  lemma SameClassHolds(g: Graph<Node>, w: Node, v: Node)
    requires w in Nodes(g)
    ensures Class(g, w) == Class(g, v) ==> w in Class(g, v)
  {
    ReachRefl(g, w);
    assert w in Class(g, w);
  }

  /** A newly finished class adds itself to the count exactly when it is cyclic. */
  lemma CountClass(g: Graph<Node>, done: set<Node>, v: Node)
    requires v in Nodes(g) && done <= Nodes(g) && done !! Class(g, v)
    ensures |CyclicClasses(g, done + Class(g, v))|
            == |CyclicClasses(g, done)| + (if Cyclic(g, Class(g, v)) then 1 else 0)
  {
    ClassesGrow(g, done, v);
    hide Class, Classes, Cyclic;
    var c := Class(g, v);
    assert CyclicClasses(g, done + c) == CyclicClasses(g, done) + (if Cyclic(g, c) then {c} else {});
  }

  /** Several members, or a self edge of any one member named, is what makes a class cyclic. */
  lemma CyclicByRoot(g: Graph<Node>, v: Node)
    requires v in Nodes(g)
    ensures Cyclic(g, Class(g, v)) <==> |Class(g, v)| > 1 || v in Succ(g, v)
  {
    var c := Class(g, v);
    ReachRefl(g, v);
    assert v in c;
    if |c| <= 1 {
      assert |c - {v}| == |c| - 1;
      assert c == {v};
    }
  }

  /** No cyclic class is left exactly when the graph has no directed cycle. */
  lemma NoClassesIffAcyclic(g: Graph<Node>)
    ensures CyclicClasses(g, Nodes(g)) == {} <==> Acyclic(g)
  {
    CycleIffReturningEdge(g);
    if c :| c in CyclicClasses(g, Nodes(g)) {
      var v :| v in Nodes(g) && Class(g, v) == c;
      CyclicHasCycle(g, v);
    }
    if !Acyclic(g) {
      var v, w :| w in Succ(g, v) && Reach(g, w, v);
      ReturningEdgeIsCyclic(g, v, w);
      assert Class(g, v) in CyclicClasses(g, Nodes(g));
    }
  }

  lemma CyclicHasCycle(g: Graph<Node>, v: Node)
    requires v in Nodes(g) && Cyclic(g, Class(g, v))
    ensures exists x, w :: w in Succ(g, x) && Reach(g, w, x)
  {
    CyclicByRoot(g, v);
    ReachRefl(g, v);
    if v !in Succ(g, v) {
      var c := Class(g, v);
      assert c != {v};
      var w :| w in c && w != v;
      var p :| PathFromTo(g, p, v, w);
      assert p[0 + 1] in Succ(g, v);
      SubPath(g, p, 1, |p| - 1);
      ReachTrans(g, p[1], w, v);
    }
  }

  lemma ReturningEdgeIsCyclic(g: Graph<Node>, v: Node, w: Node)
    requires w in Succ(g, v) && Reach(g, w, v)
    ensures v in Nodes(g) && Cyclic(g, Class(g, v))
  {
    ReachRefl(g, v);
    ReachEdge(g, v, w);
    var c := Class(g, v);
    assert v in c && w in c;
    if v != w {
      assert |c - {v}| == |c| - 1 && w in c - {v};
    }
  }

  // ---- the counter ---------------------------------------------------------------------

  /** The stack lists the stacked nodes in the order of their numbers. */
  ghost predicate StackOrder(index: map<Node, nat>, onStack: set<Node>, stack: seq<Node>) {
    && onStack <= index.Keys
    && (forall v :: v in onStack <==> v in stack)
    && (forall i, j :: 0 <= i < j < |stack| ==>
          stack[i] in index && stack[j] in index && index[stack[i]] < index[stack[j]])
  }

  lemma PushOrder(index: map<Node, nat>, onStack: set<Node>, stack: seq<Node>, count: nat, v: Node)
    requires StackOrder(index, onStack, stack) && v !in index
    requires forall w :: w in index ==> index[w] < count
    ensures StackOrder(index[v := count], onStack + {v}, stack + [v])
  {
    assert (stack + [v])[|stack|] == v;
  }

  lemma PopOrder(index: map<Node, nat>, onStack: set<Node>, stack: seq<Node>)
    requires StackOrder(index, onStack, stack) && |stack| > 0
    ensures StackOrder(index, onStack - {stack[|stack| - 1]}, stack[..|stack| - 1])
  {
    var rest := stack[..|stack| - 1];
    assert stack == rest + [stack[|stack| - 1]];
  }

  lemma {:induction false} StackSize(index: map<Node, nat>, onStack: set<Node>, stack: seq<Node>)
    requires StackOrder(index, onStack, stack)
    ensures |onStack| == |stack|
    decreases |stack|
  {
    if stack == [] {
      assert onStack == {};
    } else {
      PopOrder(index, onStack, stack);
      StackSize(index, onStack - {stack[|stack| - 1]}, stack[..|stack| - 1]);
      assert stack[|stack| - 1] in onStack;
    }
  }

  lemma TopOfStack(index: map<Node, nat>, onStack: set<Node>, stack: seq<Node>, below: seq<Node>, v: Node)
    requires StackOrder(index, onStack, stack) && below + [v] <= stack
    ensures stack[|stack| - 1] == v <==> |stack| == |below| + 1
  {
    assert stack[|below|] == v;
  }

  lemma ClassSize(full: set<Node>, base: set<Node>)
    requires base <= full
    ensures |full - base| == |full| - |base|
  {
    assert full == base + (full - base);
  }

  lemma SameElements(index: map<Node, nat>, onStack: set<Node>, index': map<Node, nat>, onStack': set<Node>,
                     stack: seq<Node>)
    requires StackOrder(index, onStack, stack) && StackOrder(index', onStack', stack)
    ensures onStack == onStack'
  {
  }

  /** Low links once set survive, except at a node written since. */
  ghost predicate Carries(m: map<Node, nat>, m': map<Node, nat>) {
    forall v :: v in m ==> v in m' && m'[v] == m[v]
  }

  lemma CarriesUpdate(m: map<Node, nat>, v: Node, n: nat)
    ensures Carries(m, m)
    ensures forall m0 :: Carries(m0, m) && v !in m0 ==> Carries(m0, m[v := n])
  {
  }

  lemma CarriesTrans(m: map<Node, nat>, m': map<Node, nat>, m'': map<Node, nat>, v: Node)
    requires Carries(m, m') && Carries(m', m'')
    ensures Carries(m, m'')
    ensures v in m' ==> v in m'' && m''[v] == m'[v]
  {
  }

  lemma ScanningFacts(g: Graph<Node>, s: Search, t: Search, v: Node, seen: set<Node>, n: nat)
    requires Scanning(g, s, t, v, seen, n)
    ensures Wf(g, s) && Wf(g, t) && v !in s.index && v in t.index && t.index[v] == s.count && n <= s.count
    ensures v in t.onStack && t.onStack <= t.index.Keys <= Nodes(g) && s.gray <= s.onStack <= t.onStack
            && t.gray == s.gray + {v}
    ensures s.index.Keys <= t.index.Keys && forall w :: w in s.index ==> s.index[w] < s.count
    ensures v !in s.gray && Succ(g, v) <= Nodes(g) && t.Finished() <= Nodes(g)
  {
    assert Pushed(s, v).index[v] == s.count;
  }

  lemma VisitedFacts(g: Graph<Node>, s: Search, t: Search, v: Node, n: nat)
    requires Visited(g, s, t, v, n)
    ensures Wf(g, t) && v in t.index && s.index.Keys < t.index.Keys && s.gray == t.gray && s.onStack <= t.onStack
  {
  }

  /** The cyclic classes finished so far number `n`. */
  ghost predicate Counted(g: Graph<Node>, s: Search, n: nat) {
    n == |CyclicClasses(g, s.Finished())|
  }

  lemma CountedSame(g: Graph<Node>, s: Search, t: Search, n: nat)
    requires Counted(g, s, n) && s.Finished() == t.Finished()
    ensures Counted(g, t, n)
  {
  }

  lemma CountIs(g: Graph<Node>, s: Search, n: nat)
    requires Counted(g, s, n)
    ensures n == |CyclicClasses(g, s.Finished())|
  {
  }

  lemma CountPopped(g: Graph<Node>, s: Search, t: Search, v: Node)
    requires Scanning(g, s, t, v, Succ(g, v), s.count)
    ensures var several := |t.onStack| - |s.onStack| > 1;
            Counted(g, Popped(s, t), |CyclicClasses(g, t.Finished())| + if several || v in Succ(g, v) then 1 else 0)
  {
    hide Scanning, Visited, Wf, CyclicClasses, Class, Cyclic, Popped;
    ScanningFacts(g, s, t, v, Succ(g, v), s.count);
    ClosePops(g, s, t, v);
    TopIsClass(g, s, t, v);
    ClassSize(t.onStack, s.onStack);
    CyclicByRoot(g, v);
    CountClass(g, t.Finished(), v);
  }

  /** The closure variables of the search. */
  class CycleCounter {
    const edges: Graph<Node>
    var index: map<Node, nat>
    var low: map<Node, nat>
    var stack: seq<Node>
    var onStack: set<Node>
    var count: nat
    var cycles: nat
    ghost var gray: set<Node>

    ghost function Now(): Search
      reads this
    {
      Search(index, onStack, count, gray)
    }

    ghost predicate Valid()
      reads this
    {
      && Wf(edges, Now())
      && StackOrder(index, onStack, stack)
      && low.Keys == index.Keys
      && Counted(edges, Now(), cycles)
    }

    constructor (edges: Graph<Node>)
      ensures Valid() && this.edges == edges
      ensures index == map[] && gray == {} && stack == []
    {
      this.edges := edges;
      index, low, stack, onStack, count, cycles, gray := map[], map[], [], {}, 0, 0, {};
      new;
      assert Now().Finished() == {};
      assert CyclicClasses(edges, {}) == {};
    }

    /** Numbers and stacks `node`. */
    method Enter(node: Node)
      requires Valid() && node in Nodes(edges) && node !in index
      requires forall x :: x in gray ==> Reach(edges, x, node)
      modifies this
      ensures Valid() && Now() == Pushed(old(Now()), node)
      ensures Scanning(edges, old(Now()), Now(), node, {}, old(count))
      ensures stack == old(stack) + [node] && low == old(low)[node := old(count)]
      ensures Carries(old(low), low)
    {
      hide Wf, Scanning, StackOrder, Counted, Carries, Reach, Nodes;
      ghost var start := Now();
      PushStarts(edges, start, node);
      ScanningFacts(edges, start, Pushed(start, node), node, {}, count);
      PushOrder(index, onStack, stack, count, node);
      CarriesUpdate(low, node, count);
      index := index[node := count];
      low := low[node := count];
      count := count + 1;
      stack := stack + [node];
      onStack := onStack + {node};
      gray := gray + {node};
      assert Now() == Pushed(start, node);
      assert Now().Finished() == start.Finished();
      CountedSame(edges, start, Now(), cycles);
    }

    /** Pops the stack down to and including `node`. */
    method PopDown(node: Node, ghost below: seq<Node>) returns (component: seq<Node>)
      requires StackOrder(index, onStack, stack) && below + [node] <= stack
      modifies this`stack, this`onStack
      ensures StackOrder(index, onStack, stack) && stack == below && |component| == |old(stack)| - |below|
    {
      hide StackOrder;
      component := [];
      while true
        invariant StackOrder(index, onStack, stack)
        invariant below + [node] <= stack
        invariant |component| + |stack| == |old(stack)|
        decreases |stack|
      {
        PopOrder(index, onStack, stack);
        TopOfStack(index, onStack, stack, below, node);
        var member := stack[|stack| - 1];
        stack := stack[..|stack| - 1];
        onStack := onStack - {member};
        component := component + [member];
        if member == node {
          assert stack == below;
          return;
        }
      }
    }

    /** Pops the stack down to `node`; counts the component when it is cyclic. */
    method PopComponent(node: Node, ghost start: Search, ghost below: seq<Node>)
      requires Valid() && StackOrder(start.index, start.onStack, below)
      requires Scanning(edges, start, Now(), node, Succ(edges, node), start.count)
      requires below + [node] <= stack
      modifies this`stack, this`onStack, this`cycles, this`gray
      ensures Valid() && Now() == Popped(start, old(Now())) && stack == below
    {
      hide Wf, Scanning, StackOrder, Counted, Visited, Nodes, Succ;
      ghost var before := Now();
      StackSize(index, onStack, stack);
      StackSize(start.index, start.onStack, below);
      ScanningFacts(edges, start, before, node, Succ(edges, node), start.count);
      ClosePops(edges, start, before, node);
      VisitedFacts(edges, start, Popped(start, before), node, start.count);
      var component := PopDown(node, below);
      SameElements(index, onStack, start.index, start.onStack, stack);
      CountPopped(edges, start, before, node);
      assert cycles == |CyclicClasses(edges, before.Finished())| by { CountIs(edges, before, cycles); }
      gray := gray - {node};
      if |component| > 1 || node in Succ(edges, node) {
        cycles := cycles + 1;
      }
      assert Now() == Popped(start, before) by {
        assert gray == start.gray;
      }
    }

    method Visit(node: Node)
      requires Valid() && node in Nodes(edges) && node !in index
      requires forall x :: x in gray ==> Reach(edges, x, node)
      modifies this
      ensures Valid() && node in low && Visited(edges, old(Now()), Now(), node, low[node])
      ensures Carries(old(low), low) && old(stack) <= stack
      decreases Nodes(edges) - index.Keys
    {
      hide Wf, Scanning, StackOrder, Counted, Visited, Carries, Reach, Nodes, Succ, Extends, Pushed;
      ghost var start, below, low0 := Now(), stack, low;
      Enter(node);
      var rest := Succ(edges, node);
      ghost var seen: set<Node> := {};
      while rest != {}
        invariant Valid() && node in low
        invariant Scanning(edges, start, Now(), node, seen, low[node])
        invariant seen + rest == Succ(edges, node) && seen !! rest
        invariant node !in low0 && Carries(low0, low) && below + [node] <= stack
        decreases rest
      {
        var other :| other in rest;
        ghost var before, lowBefore, stackBefore := Now(), low, stack;
        ScanningFacts(edges, start, before, node, seen, low[node]);
        if other !in index {
          forall x | x in gray
            ensures Reach(edges, x, other)
          {
            OpenReachSuccessor(edges, start, before, node, seen, low[node], x, other);
          }
          Visit(other);
          ghost var after := Now();
          VisitedFacts(edges, before, after, other, low[other]);
          CarriesTrans(low0, lowBefore, low, node);
          ScanVisited(edges, start, before, after, node, seen, lowBefore[node], other, low[other]);
          CarriesUpdate(low, node, Min(low[node], low[other]));
          low := low[node := Min(low[node], low[other])];
          assert Now() == after;
        } else if other in onStack {
          ScanStacked(edges, start, before, node, seen, low[node], other);
          CarriesUpdate(low, node, Min(low[node], index[other]));
          low := low[node := Min(low[node], index[other])];
          assert Now() == before;
        } else {
          ScanFinished(edges, start, before, node, seen, low[node], other);
        }
        rest := rest - {other};
        seen := seen + {other};
      }
      assert seen == Succ(edges, node);
      ScanningFacts(edges, start, Now(), node, seen, low[node]);
      ghost var before := Now();
      if low[node] == index[node] {
        PopComponent(node, start, below);
        ClosePops(edges, start, before, node);
      } else {
        CloseKeeps(edges, start, before, node, low[node]);
        gray := gray - {node};
        assert Now() == Kept(start, before);
        CountedSame(edges, before, Now(), cycles);
        VisitedFacts(edges, start, Kept(start, before), node, low[node]);
      }
    }
  }

  /** Between top-level visits nothing is open, so nothing is stacked. */
  lemma NothingOpen(g: Graph<Node>, s: Search)
    requires Wf(g, s) && s.gray == {}
    ensures s.onStack == {} && Closed(g, s.index.Keys) && s.Finished() == s.index.Keys
  {
    assert forall y :: y in s.onStack ==> !Anchored(g, s, y);
  }

  /** `_cycles`: the number of mutual-reachability classes that have several nodes or a self
      edge, whatever order the nodes and successors are taken in. */
  method Cycles(edges: Graph<Node>) returns (n: nat)
    ensures n == |CyclicClasses(edges, Nodes(edges))|
    ensures n == 0 <==> Acyclic(edges)
  {
    var counter := new CycleCounter(edges);
    var rest := edges.Keys;
    while rest != {}
      invariant counter.edges == edges && counter.Valid() && counter.gray == {}
      invariant edges.Keys - rest <= counter.index.Keys
      decreases rest
    {
      hide Wf, Visited, StackOrder, CyclicClasses, Reach;
      var node :| node in rest;
      if node !in counter.index {
        ghost var before := counter.Now();
        counter.Visit(node);
        VisitedFacts(edges, before, counter.Now(), node, counter.low[node]);
      }
      rest := rest - {node};
    }
    n := counter.cycles;
    NothingOpen(edges, counter.Now());
    assert counter.index.Keys == Nodes(edges) by {
      forall w | w in Nodes(edges)
        ensures w in counter.index
      {
        if w !in edges {
          var v :| v in edges && w in edges[v];
          assert Succ(edges, v) <= counter.index.Keys;
        }
      }
    }
    NoClassesIffAcyclic(edges);
  }
}
