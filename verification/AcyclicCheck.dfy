/** The three-colour depth-first check every claim compiler runs over its dependency graph:
    an explicit path of half-consumed child iterators, refusing with the cycle it meets. */
module AcyclicCheck {
  import opened Graphs

  datatype Colour = White | Grey | Black

  /** A node being expanded and the children its iterator has not produced yet. */
  datatype Frame<T> = Frame(node: T, children: set<T>)

  datatype Verdict<T> = Accepted | Cycle(members: seq<T>)

  /** The dependencies the check looks at: foreign ones are another check's business. */
  function Own<T(==)>(g: Graph<T>): (r: Graph<T>) {
    map v | v in g :: g[v] * g.Keys
  }

  ghost function BlackOf<T(!new)>(colour: map<T, Colour>): set<T> {
    set v | v in colour && colour[v] == Black
  }

  /** The grey nodes are exactly the stacked ones, stacked once, and `path` names them. */
  ghost predicate Stacked<T(!new)>(g: Graph<T>, colour: map<T, Colour>, stack: seq<T>, path: seq<Frame<T>>) {
    && colour.Keys == g.Keys
    && |stack| == |path|
    && (forall i :: 0 <= i < |path| ==> path[i].node == stack[i] && stack[i] in g && path[i].children <= g[stack[i]])
    && (forall v :: v in colour ==> (colour[v] == Grey <==> v in stack))
    && (forall i, j :: 0 <= i < j < |stack| ==> stack[i] != stack[j])
  }

  /** Each stacked node was met from the one under it; what an iterator already produced is
      black, or is the node stacked next. */
  ghost predicate Chained<T(!new)>(g: Graph<T>, colour: map<T, Colour>, stack: seq<T>, path: seq<Frame<T>>)
    requires Stacked(g, colour, stack, path)
  {
    && (forall i :: 0 <= i < |stack| - 1 ==> stack[i + 1] in g[stack[i]])
    && (forall i, w :: 0 <= i < |stack| && w in g[stack[i]] && w in g && w !in path[i].children ==>
          colour[w] == Black || (i + 1 < |stack| && w == stack[i + 1]))
  }

  /** Black nodes have only black dependencies, and none leads back. */
  ghost predicate Settled<T(!new)>(g: Graph<T>, black: set<T>) {
    && Closed(g, black)
    && (forall v, w :: v in black && w in Succ(g, v) ==> !Reach(g, w, v))
  }

  ghost predicate Searching<T(!new)>(g: Graph<T>, colour: map<T, Colour>, stack: seq<T>, path: seq<Frame<T>>) {
    && Stacked(g, colour, stack, path)
    && Chained(g, colour, stack, path)
    && Settled(Own(g), BlackOf(colour))
  }

  lemma Rooted<T(!new)>(g: Graph<T>, colour: map<T, Colour>, root: T)
    requires Searching(g, colour, [], []) && root in g && colour[root] == White
    ensures Searching(g, colour[root := Grey], [root], [Frame(root, g[root])])
  {
    assert BlackOf(colour[root := Grey]) == BlackOf(colour);
  }

  /** The iterator on top moves past a child that is foreign or already black. */
  lemma Skipped<T(!new)>(g: Graph<T>, colour: map<T, Colour>, stack: seq<T>, path: seq<Frame<T>>, child: T)
    requires Searching(g, colour, stack, path) && |path| > 0
    requires child !in g || colour[child] == Black
    ensures var top := path[|path| - 1];
            Searching(g, colour, stack, path[|path| - 1 := Frame(top.node, top.children - {child})])
  {
  }

  lemma Descended<T(!new)>(g: Graph<T>, colour: map<T, Colour>, stack: seq<T>, path: seq<Frame<T>>, child: T)
    requires Searching(g, colour, stack, path) && |path| > 0
    requires child in g && colour[child] == White && child in g[stack[|stack| - 1]]
    ensures var top := path[|path| - 1];
            Searching(g, colour[child := Grey], stack + [child],
                      path[|path| - 1 := Frame(top.node, top.children - {child})] + [Frame(child, g[child])])
  {
    hide Settled;
    var top := path[|path| - 1];
    var stack', colour' := stack + [child], colour[child := Grey];
    var path' := path[|path| - 1 := Frame(top.node, top.children - {child})] + [Frame(child, g[child])];
    assert BlackOf(colour') == BlackOf(colour);
    assert stack'[|stack|] == child && path'[|path|] == Frame(child, g[child]);
    assert forall i :: 0 <= i < |stack| ==> stack'[i] == stack[i] && path'[i].node == path[i].node;
    assert Stacked(g, colour', stack', path');
    forall i, w | 0 <= i < |stack'| && w in g[stack'[i]] && w in g && w !in path'[i].children
      ensures colour'[w] == Black || (i + 1 < |stack'| && w == stack'[i + 1])
    {
      if i < |stack| {
        assert w in g[stack[i]];
        if w in path[i].children {
          assert w == child && i == |stack| - 1;
        } else {
          assert colour[w] == Black || (i + 1 < |stack| && w == stack[i + 1]);
        }
      }
    }
  }

  lemma ProducedIsBlackOrNext<T(!new)>(g: Graph<T>, colour: map<T, Colour>, stack: seq<T>, path: seq<Frame<T>>, i: nat,
                                       w: T)
    requires Stacked(g, colour, stack, path) && Chained(g, colour, stack, path)
    requires i < |stack| && w in g[stack[i]] && w in g && w !in path[i].children
    ensures colour[w] == Black || (i + 1 < |stack| && w == stack[i + 1])
  {
  }

  /** A node whose iterator is exhausted turns black without closing a cycle. */
  lemma Blackened<T(!new)>(g: Graph<T>, colour: map<T, Colour>, stack: seq<T>, path: seq<Frame<T>>)
    requires Searching(g, colour, stack, path) && |path| > 0 && path[|path| - 1].children == {}
    ensures Searching(g, colour[stack[|stack| - 1] := Black], stack[..|stack| - 1], path[..|path| - 1])
  {
    var node := stack[|stack| - 1];
    var after := colour[node := Black];
    var black := BlackOf(colour);
    forall w | w in Succ(Own(g), node)
      ensures w in black
    {
      ProducedIsBlackOrNext(g, colour, stack, path, |stack| - 1, w);
    }
    SettledGrows(Own(g), black, node);
    assert BlackOf(after) == black + {node};
    hide Settled;
    assert stack == stack[..|stack| - 1] + [node];
  }

  lemma SettledGrows<T(!new)>(g: Graph<T>, black: set<T>, v: T)
    requires Settled(g, black) && v !in black && Succ(g, v) <= black
    ensures Settled(g, black + {v})
  {
    forall u, w | u in black + {v} && w in Succ(g, u)
      ensures !Reach(g, w, u)
    {
      if u == v && Reach(g, w, v) {
        ReachClosed(g, black, w, v);
      }
    }
  }

  /** Meeting a grey child closes the walk from that child up the stack. */
  lemma GreyClosesCycle<T(!new)>(g: Graph<T>, colour: map<T, Colour>, stack: seq<T>, path: seq<Frame<T>>, i: nat)
    requires Stacked(g, colour, stack, path) && Chained(g, colour, stack, path)
    requires i < |stack| && stack[i] in g[stack[|stack| - 1]]
    ensures IsCycle(Own(g), stack[i..] + [stack[i]])
  {
    var p := stack[i..] + [stack[i]];
    forall k | 0 <= k < |p| - 1
      ensures p[k + 1] in Succ(Own(g), p[k])
    {
      if k + 1 < |stack| - i {
        assert p[k + 1] == stack[i + k + 1];
      }
    }
  }

  lemma AllBlackIsAcyclic<T(!new)>(g: Graph<T>, colour: map<T, Colour>)
    requires Searching(g, colour, [], [])
    requires forall v :: v in colour ==> colour[v] == Black
    ensures Acyclic(Own(g))
  {
    CycleIffReturningEdge(Own(g));
    assert BlackOf(colour) == g.Keys;
  }

  ghost function WhiteOf<T(!new)>(colour: map<T, Colour>): set<T> {
    set v | v in colour && colour[v] == White
  }

  function IndexOf<T(==)>(stack: seq<T>, v: T): (i: nat)
    requires v in stack
    ensures i < |stack| && stack[i] == v
  {
    if stack[0] == v then 0 else 1 + IndexOf(stack[1..], v)
  }

  /** What the child loop leaves of the search: the cycle it met, or the state it goes on
      with and whether it moved down to a white child. */
  datatype Step<T> = Met(cycle: seq<T>)
                | Moved(colour: map<T, Colour>, stack: seq<T>, path: seq<Frame<T>>, advanced: bool)

  ghost predicate IsRefusal<T(!new)>(g: Graph<T>, members: seq<T>) {
    && |members| > 0
    && IsCycle(Own(g), members + [members[0]])
    && forall i, j :: 0 <= i < j < |members| ==> members[i] != members[j]
  }

  lemma GreyRefuses<T(!new)>(g: Graph<T>, colour: map<T, Colour>, stack: seq<T>, path: seq<Frame<T>>, i: nat)
    requires Searching(g, colour, stack, path)
    requires i < |stack| && stack[i] in g[stack[|stack| - 1]]
    ensures IsRefusal(g, stack[i..])
  {
    GreyClosesCycle(g, colour, stack, path, i);
  }

  /** The loop over the iterator on top of the path. */
  method Expand<T(==,!new)>(g: Graph<T>, colour: map<T, Colour>, stack: seq<T>, path: seq<Frame<T>>)
    returns (r: Step<T>)
    requires Searching(g, colour, stack, path) && |path| > 0
    ensures r.Met? ==> IsRefusal(g, r.cycle)
    ensures r.Moved? ==> Searching(g, r.colour, r.stack, r.path)
    ensures r.Moved? && r.advanced ==>
      exists child :: child in colour && colour[child] == White && r.colour == colour[child := Grey]
                      && r.stack == stack + [child]
    ensures r.Moved? && !r.advanced ==>
      r.colour == colour && r.stack == stack && r.path[|r.path| - 1].children == {}
  {
    hide Chained, Settled, IsRefusal;
    var top := path[|path| - 1];
    var children := top.children;
    var path' := path;
    while children != {}
      invariant |path'| == |path| && path'[|path| - 1] == Frame(top.node, children)
      invariant Searching(g, colour, stack, path')
      decreases children
    {
      var child :| child in children;
      if child !in colour || colour[child] == Black {
        Skipped(g, colour, stack, path', child);
        path' := path'[|path| - 1 := Frame(top.node, children - {child})];
      } else if colour[child] == Grey {
        var i := IndexOf(stack, child);
        GreyRefuses(g, colour, stack, path', i);
        return Met(stack[i..]);
      } else {
        Descended(g, colour, stack, path', child);
        return Moved(colour[child := Grey], stack + [child],
                     path'[|path| - 1 := Frame(top.node, children - {child})] + [Frame(child, g[child])], true);
      }
      children := children - {child};
    }
    r := Moved(colour, stack, path', false);
  }

  lemma RefusalIsCyclic<T(!new)>(g: Graph<T>, members: seq<T>)
    requires IsRefusal(g, members)
    ensures !Acyclic(Own(g))
  {
  }

  /** `_acyclic`: always terminates, refuses exactly the graphs whose own-key dependencies
      contain a directed cycle, and then names the distinct nodes of one, in order. */
  method CheckAcyclic<T(==,!new)>(g: Graph<T>) returns (r: Verdict<T>)
    ensures r.Accepted? <==> Acyclic(Own(g))
    ensures r.Cycle? ==> IsRefusal(g, r.members)
  {
    hide Searching, IsRefusal, Acyclic, WhiteOf, OnlyDarker, Own;
    var colour := map v | v in g :: White;
    var stack: seq<T> := [];
    var path: seq<Frame<T>> := [];
    NothingBlack(g, colour);
    var roots := g.Keys;
    while roots != {}
      invariant Searching(g, colour, [], [])
      invariant roots <= g.Keys == colour.Keys
      invariant forall v :: v in g && v !in roots ==> colour[v] == Black
      decreases roots
    {
      var root :| root in roots;
      roots := roots - {root};
      SearchingFacts(g, colour, [], []);
      if colour[root] == White {
        Rooted(g, colour, root);
        ghost var entered := colour;
        path := [Frame(root, g[root])];
        colour := colour[root := Grey];
        stack := [root];
        Darkens(entered, root, Grey);
        while path != []
          invariant Searching(g, colour, stack, path)
          invariant OnlyDarker(entered, colour) && |stack| == |path| && colour.Keys == g.Keys
          invariant forall v :: v in g && entered[v] == Black ==> colour[v] == Black
          invariant colour[root] == Black || (|stack| > 0 && stack[0] == root)
          decreases WhiteOf(colour), |path|
        {
          var step := Expand(g, colour, stack, path);
          if step.Met? {
            RefusalIsCyclic(g, step.cycle);
            return Cycle(step.cycle);
          }
          SearchingFacts(g, colour, stack, path);
          SearchingFacts(g, step.colour, step.stack, step.path);
          ghost var before := colour;
          colour, stack, path := step.colour, step.stack, step.path;
          if step.advanced {
            ghost var child :| child in before && before[child] == White && colour == before[child := Grey];
            Darkens(before, child, Grey);
          } else {
            Blackened(g, colour, stack, path);
            Darkens(before, stack[|stack| - 1], Black);
            colour := colour[stack[|stack| - 1] := Black];
            stack := stack[..|stack| - 1];
            path := path[..|path| - 1];
          }
          DarkerTrans(entered, before, colour);
        }
      }
    }
    SearchingFacts(g, colour, [], []);
    AllBlackIsAcyclic(g, colour);
    r := Accepted;
  }

  /** Black stays black and nothing turns white again. */
  ghost predicate OnlyDarker<T(!new)>(before: map<T, Colour>, after: map<T, Colour>) {
    && before.Keys == after.Keys
    && forall v :: v in before ==>
        (before[v] == Black ==> after[v] == Black) && (after[v] == White ==> before[v] == White)
  }

  lemma Darkens<T(!new)>(colour: map<T, Colour>, v: T, c: Colour)
    requires v in colour && colour[v] != Black && c != White
    ensures OnlyDarker(colour, colour[v := c])
    ensures colour[v] == White ==> WhiteOf(colour[v := c]) < WhiteOf(colour)
    ensures colour[v] == Grey ==> WhiteOf(colour[v := c]) == WhiteOf(colour)
  {
    assert colour[v] == White ==> v in WhiteOf(colour) && v !in WhiteOf(colour[v := c]);
  }

  lemma DarkerTrans<T(!new)>(a: map<T, Colour>, b: map<T, Colour>, c: map<T, Colour>)
    requires OnlyDarker(a, b) && OnlyDarker(b, c)
    ensures OnlyDarker(a, c)
    ensures forall v :: v in a && a[v] == Black ==> v in c && c[v] == Black
    ensures forall v :: v in b && b[v] == Black ==> v in c && c[v] == Black
  {
  }

  lemma SearchingFacts<T(!new)>(g: Graph<T>, colour: map<T, Colour>, stack: seq<T>, path: seq<Frame<T>>)
    requires Searching(g, colour, stack, path)
    ensures colour.Keys == g.Keys && |stack| == |path|
    ensures forall i :: 0 <= i < |stack| ==> stack[i] in colour && colour[stack[i]] == Grey
    ensures forall v :: v in colour && colour[v] == Grey ==> v in stack
  {
  }

  lemma NothingBlack<T(!new)>(g: Graph<T>, colour: map<T, Colour>)
    requires colour.Keys == g.Keys && forall v :: v in g ==> colour[v] == White
    ensures Searching(g, colour, [], [])
  {
    assert BlackOf(colour) == {};
  }
}
