/** A delegation tree as its root-to-leaf routes: no branch lost, no edge invented. */
module Routes {

  datatype Tree = Node(id: string, children: seq<Tree>)

  type Route = seq<Tree>

  function Under(node: Tree, routes: seq<Route>): (longer: seq<Route>)
    ensures |longer| == |routes|
  {
    seq(|routes|, i requires 0 <= i < |routes| => [node] + routes[i])
  }

  /** The routes of all children, one child after the other, each with `node` put in front. */
  function Through(node: Tree, children: seq<Tree>): seq<Route>
    decreases children
  {
    if children == [] then [] else Under(node, RoutesToLeaves(children[0])) + Through(node, children[1..])
  }

  function RoutesToLeaves(node: Tree): seq<Route>
    decreases node
  {
    if node.children == [] then [[node]] else Through(node, node.children)
  }

  // ---- one route per leaf

  function Leaves(node: Tree): seq<Tree>
    decreases node
  {
    if node.children == [] then [node] else LeavesOf(node.children)
  }

  function LeavesOf(forest: seq<Tree>): seq<Tree>
    decreases forest
  {
    if forest == [] then [] else Leaves(forest[0]) + LeavesOf(forest[1..])
  }

  ghost predicate EndAt(routes: seq<Route>, ends: seq<Tree>) {
    && |routes| == |ends|
    && forall i :: 0 <= i < |routes| ==> routes[i] != [] && routes[i][|routes[i]| - 1] == ends[i]
  }

  /** The routes end at the leaves: each leaf once, from left to right. */
  lemma {:induction false} OneRoutePerLeaf(node: Tree)
    ensures EndAt(RoutesToLeaves(node), Leaves(node))
    decreases node
  {
    if node.children != [] {
      RoutesThroughEnd(node, node.children);
    }
  }

  lemma {:induction false} RoutesThroughEnd(node: Tree, children: seq<Tree>)
    ensures EndAt(Through(node, children), LeavesOf(children))
    decreases children
  {
    if children != [] {
      OneRoutePerLeaf(children[0]);
      RoutesThroughEnd(node, children[1..]);
    }
  }

  // ---- exactly the walks of the tree

  /** A walk from `node` down to a leaf, each step to a child. */
  ghost predicate Walk(node: Tree, p: Route)
    decreases |p|
  {
    && p != [] && p[0] == node
    && if |p| == 1 then node.children == [] else p[1] in node.children && Walk(p[1], p[1..])
  }

  /** The routes are all the walks and nothing but walks. */
  lemma {:induction false} RoutesAreTheWalks(node: Tree, p: Route)
    ensures p in RoutesToLeaves(node) <==> Walk(node, p)
    decreases node
  {
    if node.children == [] {
      assert Walk(node, p) ==> p == [node];
    } else {
      RoutesThroughAreWalks(node, node.children, p);
    }
  }

  lemma {:induction false} RoutesThroughAreWalks(node: Tree, children: seq<Tree>, p: Route)
    ensures p in Through(node, children) <==> |p| > 1 && p[0] == node && p[1] in children && Walk(p[1], p[1..])
    decreases children
  {
    if children != [] {
      var first := RoutesToLeaves(children[0]);
      RoutesThroughAreWalks(node, children[1..], p);
      assert p in Under(node, first) <==> |p| > 0 && p[0] == node && p[1..] in first by {
        if |p| > 0 && p[0] == node && p[1..] in first {
          var i :| 0 <= i < |first| && first[i] == p[1..];
          assert Under(node, first)[i] == p;
        }
      }
      if p != [] {
        RoutesAreTheWalks(children[0], p[1..]);
      }
      assert forall c :: c in children <==> c == children[0] || c in children[1..];
    }
  }

  /** `a` is `node` or lies below it. */
  ghost predicate Within(a: Tree, node: Tree)
    decreases node
  {
    a == node || exists c :: c in node.children && Within(a, c)
  }

  ghost predicate Crosses(p: Route, a: Tree, b: Tree) {
    exists i :: 0 <= i < |p| - 1 && p[i] == a && p[i + 1] == b
  }

  lemma {:induction false} SomeWalk(node: Tree) returns (p: Route)
    ensures Walk(node, p)
    decreases node
  {
    if node.children == [] {
      p := [node];
    } else {
      var rest := SomeWalk(node.children[0]);
      p := [node] + rest;
    }
  }

  /** Every edge of the tree is on some route. */
  lemma {:induction false} EveryEdgeIsDrawn(node: Tree, a: Tree, b: Tree) returns (p: Route)
    requires Within(a, node) && b in a.children
    ensures p in RoutesToLeaves(node) && Crosses(p, a, b)
    decreases node
  {
    if a == node {
      var rest := SomeWalk(b);
      p := [node] + rest;
      assert p[1..] == rest;
      assert p[0] == a && p[1] == b;
    } else {
      var c :| c in node.children && Within(a, c);
      var rest := EveryEdgeIsDrawn(c, a, b);
      RoutesAreTheWalks(c, rest);
      p := [node] + rest;
      assert p[1..] == rest;
      var i :| 0 <= i < |rest| - 1 && rest[i] == a && rest[i + 1] == b;
      assert p[i + 1] == a && p[i + 2] == b;
    }
    RoutesAreTheWalks(node, p);
  }

  /** And every arrow on a route is an edge of the tree. */
  lemma {:induction false} NoEdgeIsInvented(node: Tree, p: Route, a: Tree, b: Tree)
    requires p in RoutesToLeaves(node) && Crosses(p, a, b)
    ensures Within(a, node) && b in a.children
    decreases |p|
  {
    RoutesAreTheWalks(node, p);
    var i :| 0 <= i < |p| - 1 && p[i] == a && p[i + 1] == b;
    if i > 0 {
      RoutesAreTheWalks(p[1], p[1..]);
      assert p[1..][i - 1] == a && p[1..][i] == b;
      NoEdgeIsInvented(p[1], p[1..], a, b);
    }
  }

  // ---- the tree back from its routes

  function Ids(p: Route): (ids: seq<string>)
    ensures |ids| == |p|
  {
    seq(|p|, i requires 0 <= i < |p| => p[i].id)
  }

  function IdRoutes(routes: seq<Route>): (ids: seq<seq<string>>)
    ensures |ids| == |routes|
  {
    seq(|routes|, i requires 0 <= i < |routes| => Ids(routes[i]))
  }

  /** How many routes at the front begin with `id`. */
  function SharedFront(routes: seq<seq<string>>, id: string): (k: nat)
    ensures k <= |routes|
    ensures forall i :: 0 <= i < k ==> routes[i] != [] && routes[i][0] == id
  {
    if routes == [] || routes[0] == [] || routes[0][0] != id then 0 else 1 + SharedFront(routes[1..], id)
  }

  /** Each route without its first stop; routes that end there are gone. */
  function Onward(routes: seq<seq<string>>): seq<seq<string>> {
    if routes == [] then []
    else (if |routes[0]| <= 1 then [] else [routes[0][1..]]) + Onward(routes[1..])
  }

  function Stops(routes: seq<seq<string>>): nat {
    if routes == [] then 0 else |routes[0]| + Stops(routes[1..])
  }

  lemma {:induction false} StopsSplit(routes: seq<seq<string>>, k: nat)
    requires k <= |routes|
    ensures Stops(routes) == Stops(routes[..k]) + Stops(routes[k..])
  {
    if k > 0 {
      StopsSplit(routes[1..], k - 1);
      assert routes[..k][1..] == routes[1..][..k - 1];
    }
  }

  lemma {:induction false} OnwardShrinks(routes: seq<seq<string>>)
    requires forall i :: 0 <= i < |routes| ==> routes[i] != []
    ensures Stops(Onward(routes)) + |routes| <= Stops(routes)
  {
    if routes != [] {
      OnwardShrinks(routes[1..]);
      if |routes[0]| > 1 {
        assert Onward(routes)[0] == routes[0][1..] && Onward(routes)[1..] == Onward(routes[1..]);
      } else {
        assert Onward(routes) == Onward(routes[1..]);
      }
    }
  }

  /** Merges routes by shared prefix. */
  function Merge(routes: seq<seq<string>>): seq<Tree>
    decreases Stops(routes), |routes|
  {
    if routes == [] then []
    else if routes[0] == [] then Merge(routes[1..])
    else
      var id := routes[0][0];
      var k := SharedFront(routes, id);
      StopsSplit(routes, k);
      OnwardShrinks(routes[..k]);
      StopsSplit(routes[..k], 1);
      [Node(id, Merge(Onward(routes[..k])))] + Merge(routes[k..])
  }

  ghost predicate DistinctSiblings(node: Tree)
    decreases node
  {
    && (forall i, j :: 0 <= i < j < |node.children| ==> node.children[i].id != node.children[j].id)
    && forall c :: c in node.children ==> DistinctSiblings(c)
  }

  ghost predicate DistinctForest(forest: seq<Tree>) {
    && (forall i, j :: 0 <= i < j < |forest| ==> forest[i].id != forest[j].id)
    && forall c :: c in forest ==> DistinctSiblings(c)
  }

  function ForestRoutes(forest: seq<Tree>): seq<seq<string>> {
    if forest == [] then [] else IdRoutes(RoutesToLeaves(forest[0])) + ForestRoutes(forest[1..])
  }

  lemma {:induction false} HeadsAre(node: Tree)
    ensures RoutesToLeaves(node) != []
    ensures forall i :: 0 <= i < |RoutesToLeaves(node)| ==> RoutesToLeaves(node)[i] != [] && RoutesToLeaves(node)[i][0] == node
  {
    var some := SomeWalk(node);
    RoutesAreTheWalks(node, some);
    forall i | 0 <= i < |RoutesToLeaves(node)| ensures RoutesToLeaves(node)[i] != [] && RoutesToLeaves(node)[i][0] == node {
      RoutesAreTheWalks(node, RoutesToLeaves(node)[i]);
    }
  }

  lemma {:induction false} OnwardConcat(a: seq<seq<string>>, b: seq<seq<string>>)
    ensures Onward(a + b) == Onward(a) + Onward(b)
  {
    if a == [] {
      assert a + b == b;
    } else {
      assert (a + b)[1..] == a[1..] + b;
      OnwardConcat(a[1..], b);
    }
  }

  lemma {:induction false} OnwardUnder(node: Tree, routes: seq<Route>)
    requires forall i :: 0 <= i < |routes| ==> routes[i] != []
    ensures Onward(IdRoutes(Under(node, routes))) == IdRoutes(routes)
  {
    if routes != [] {
      var longer := IdRoutes(Under(node, routes));
      assert longer[1..] == IdRoutes(Under(node, routes[1..]));
      assert longer[0][1..] == Ids(routes[0]);
      OnwardUnder(node, routes[1..]);
      assert IdRoutes(routes) == [Ids(routes[0])] + IdRoutes(routes[1..]);
    }
  }

  lemma {:induction false} OnwardThrough(node: Tree, children: seq<Tree>)
    ensures Onward(IdRoutes(Through(node, children))) == ForestRoutes(children)
    decreases |children|
  {
    if children != [] {
      var first, rest := Under(node, RoutesToLeaves(children[0])), Through(node, children[1..]);
      HeadsAre(children[0]);
      OnwardUnder(node, RoutesToLeaves(children[0]));
      OnwardThrough(node, children[1..]);
      assert IdRoutes(first + rest) == IdRoutes(first) + IdRoutes(rest);
      OnwardConcat(IdRoutes(first), IdRoutes(rest));
    }
  }

  lemma {:induction false} SharedFrontIs(a: seq<seq<string>>, b: seq<seq<string>>, id: string)
    requires forall i :: 0 <= i < |a| ==> a[i] != [] && a[i][0] == id
    requires b == [] || b[0] == [] || b[0][0] != id
    ensures SharedFront(a + b, id) == |a|
  {
    if a == [] {
      assert a + b == b;
    } else {
      assert (a + b)[1..] == a[1..] + b && (a + b)[0] == a[0];
      SharedFrontIs(a[1..], b, id);
    }
  }

  /** With siblings told apart by their ids, merging the routes of a forest gives the forest back. */
  lemma {:induction false} MergeRebuilds(forest: seq<Tree>)
    requires DistinctForest(forest)
    ensures Merge(ForestRoutes(forest)) == forest
    decreases forest
  {
    if forest != [] {
      var node := forest[0];
      assert node in forest && DistinctSiblings(node);
      if node.children == [] {
        assert Ids([node]) == [node.id];
        assert IdRoutes([[node]]) == [[node.id]];
        assert Onward([[node.id]]) == [];
      } else {
        OnwardThrough(node, node.children);
        MergeRebuilds(node.children);
      }
      MergeRebuilds(forest[1..]);
      FirstTreeSplitsOff(forest);
      assert forest == [node] + forest[1..];
    }
  }

  /** The routes of the first tree are exactly those that begin with its id. */
  lemma {:induction false} FirstTreeSplitsOff(forest: seq<Tree>)
    requires forest != [] && DistinctForest(forest)
    ensures var mine := IdRoutes(RoutesToLeaves(forest[0]));
            Merge(ForestRoutes(forest)) == [Node(forest[0].id, Merge(Onward(mine)))] + Merge(ForestRoutes(forest[1..]))
  {
    var node, rest := forest[0], forest[1..];
    var mine, others := IdRoutes(RoutesToLeaves(node)), ForestRoutes(rest);
    HeadsAre(node);
    if rest != [] {
      HeadsAre(rest[0]);
      assert others[0] == Ids(RoutesToLeaves(rest[0])[0]);
    }
    SharedFrontIs(mine, others, node.id);
    assert (mine + others)[..|mine|] == mine && (mine + others)[|mine|..] == others;
    assert (mine + others)[0] == mine[0];
  }

  /** The routes of a tree determine the tree. */
  lemma {:induction false} RoutesDetermineTheTree(node: Tree)
    requires DistinctSiblings(node)
    ensures Merge(IdRoutes(RoutesToLeaves(node))) == [node]
  {
    var forest := [node];
    assert ForestRoutes(forest[1..]) == [];
    assert ForestRoutes(forest) == IdRoutes(RoutesToLeaves(node));
    MergeRebuilds(forest);
  }
}
