// Spline3D::build (core/lib/spline3d.hpp:323-455): a multi-start depth-first search over the
// centerline graph that cuts the point soup into branches and makes one spline per branch of
// two or more points. The search keeps two parallel stacks, the nodes still to visit and for
// each the (branch, index) of the point it hangs from. One iteration of the search is the pure
// function Step below; the method runs the same iteration on an AdjList object and is proved to
// agree with Step, and the invariants are lemmas about Step.
module Branching {
  import opened Helpers
  import opened Graph
  import opened Splines

  /** The polyline input: the points and the two-point line cells between them. */
  datatype Centerline = Centerline(points: seq<Vec3>, lines: seq<(int, int)>)

  /** Every line joins two points of the centerline. */
  predicate WellFormed(c: Centerline)
  {
    forall k :: 0 <= k < |c.lines| ==> 0 <= c.lines[k].0 < |c.points| && 0 <= c.lines[k].1 < |c.points|
  }

  /**
   * The adjacency lists after list.adjacent(a, b) for every line in order: b joins a's list,
   * then a joins b's list.
   */
  function Adjacency(n: nat, lines: seq<(int, int)>): (r: seq<seq<int>>)
    requires forall k :: 0 <= k < |lines| ==> 0 <= lines[k].0 < n && 0 <= lines[k].1 < n
    ensures |r| == n && forall v :: 0 <= v < n ==> InRange(r[v], n)
  {
    if lines == [] then seq(n, _ => [])
    else Join(Adjacency(n, lines[..|lines| - 1]), lines[|lines| - 1].0, lines[|lines| - 1].1)
  }

  /** adjacent(a, b) on the lists: b appended to a's list, then a appended to b's list. */
  function Join(r: seq<seq<int>>, a: int, b: int): (r': seq<seq<int>>)
    requires 0 <= a < |r| && 0 <= b < |r|
    ensures |r'| == |r|
    ensures a != b ==> r'[a] == r[a] + [b] && r'[b] == r[b] + [a]
    ensures a == b ==> r'[a] == r[a] + [a, a]
    ensures forall v :: 0 <= v < |r| && v != a && v != b ==> r'[v] == r[v]
  {
    var r1 := r[a := r[a] + [b]];
    r1[b := r1[b] + [a]]
  }

  /** The graph is undirected: b is a neighbour of a exactly when a is a neighbour of b. */
  lemma {:induction false} AdjacencySymmetric(n: nat, lines: seq<(int, int)>, a: int, b: int)
    requires forall k :: 0 <= k < |lines| ==> 0 <= lines[k].0 < n && 0 <= lines[k].1 < n
    requires 0 <= a < n && 0 <= b < n
    ensures b in Adjacency(n, lines)[a] <==> a in Adjacency(n, lines)[b]
  {
    if lines != [] {
      AdjacencySymmetric(n, lines[..|lines| - 1], a, b);
    }
  }

  /** Where a queued node hangs from: point idx of branch spline, or nothing when idx is -1. */
  datatype Parent = Parent(spline: int, idx: int)

  /** The state of the search: node stack, parent stack, branches so far, visited bits. */
  datatype Walk = Walk(stack: seq<int>, parents: seq<Parent>, branches: seq<seq<Vec3>>, visited: seq<bool>)

  /** A parent is either "none" or names an existing point. */
  predicate ParentOk(branches: seq<seq<Vec3>>, p: Parent)
  {
    p.idx == -1 || (0 <= p.spline < |branches| && 0 <= p.idx < |branches[p.spline]|)
  }

  /** The graph has a point per node and mentions only its own nodes. */
  ghost predicate GraphOk(nodes: seq<seq<int>>, pts: seq<Vec3>)
  {
    |nodes| == |pts| && forall v :: 0 <= v < |nodes| ==> InRange(nodes[v], |nodes|)
  }

  /**
   * The shape build keeps: the node and parent stacks have the same length, so the parent of
   * the node on top is always there; stacked nodes exist; every parent names an existing point.
   */
  ghost predicate Aligned(nodes: seq<seq<int>>, pts: seq<Vec3>, w: Walk)
  {
    GraphOk(nodes, pts) && |w.visited| == |nodes| && |w.stack| == |w.parents| && |w.branches| >= 1
    && (forall k :: 0 <= k < |w.stack| ==> 0 <= w.stack[k] < |nodes|)
    && (forall k :: 0 <= k < |w.parents| ==> ParentOk(w.branches, w.parents[k]))
  }

  /** The point a new branch starts with: the recorded parent point, if there is one. */
  function Seed(branches: seq<seq<Vec3>>, p: Parent): (r: seq<Vec3>)
    requires ParentOk(branches, p)
    ensures p.idx == -1 ==> r == []
    ensures p.idx != -1 ==> |r| == 1 && r[0] in branches[p.spline]
  {
    if p.idx != -1 then [branches[p.spline][p.idx]] else []
  }

  /**
   * One iteration of the loop: pop a node and its parent, append its point to the current
   * branch, visit it, take its unvisited neighbours; when there are not exactly one of them and
   * the stack is not empty, open a new branch seeded with the parent of the node now on top;
   * push the neighbours, each with the last point of the current branch as its parent (index
   * -1 when that branch is empty).
   */
  function Step(nodes: seq<seq<int>>, pts: seq<Vec3>, w: Walk): (r: Walk)
    requires Aligned(nodes, pts, w) && w.stack != []
    ensures |w.branches| <= |r.branches| <= |w.branches| + 1
  {
    var v := w.stack[|w.stack| - 1];
    var stack := w.stack[..|w.stack| - 1];
    var parents := w.parents[..|w.parents| - 1];
    var cur := |w.branches| - 1;
    var branches := w.branches[cur := w.branches[cur] + [pts[v]]];
    var visited := w.visited[v := true];
    var children := Unvisited(nodes[v], visited);
    var grown := if |children| != 1 && stack != [] then
                    assert ParentOk(branches, parents[|parents| - 1]) by {
                      assert ParentOk(w.branches, w.parents[|w.parents| - 2]);
                    }
                    branches + [Seed(branches, parents[|parents| - 1])]
                  else branches;
    var last := |grown| - 1;
    Walk(stack + children, parents + seq(|children|, _ => Parent(last, |grown[last]| - 1)), grown, visited)
  }

  /** Step, field by field, for the values the loop body computes one after another. */
  lemma StepIs(nodes: seq<seq<int>>, pts: seq<Vec3>, w: Walk, mid: seq<seq<Vec3>>, children: seq<int>,
               grown: seq<seq<Vec3>>)
    requires Aligned(nodes, pts, w) && w.stack != []
    requires mid == w.branches[|w.branches| - 1 := w.branches[|w.branches| - 1] + [pts[w.stack[|w.stack| - 1]]]]
    requires children == Unvisited(nodes[w.stack[|w.stack| - 1]], w.visited[w.stack[|w.stack| - 1] := true])
    requires |children| != 1 && |w.stack| > 1 ==> ParentOk(mid, w.parents[|w.parents| - 2])
    requires grown == if |children| != 1 && |w.stack| > 1 then mid + [Seed(mid, w.parents[|w.parents| - 2])] else mid
    ensures Step(nodes, pts, w).stack == w.stack[..|w.stack| - 1] + children
    ensures Step(nodes, pts, w).parents
         == w.parents[..|w.parents| - 1] + seq(|children|, _ => Parent(|grown| - 1, |grown[|grown| - 1]| - 1))
    ensures Step(nodes, pts, w).branches == grown
    ensures Step(nodes, pts, w).visited == w.visited[w.stack[|w.stack| - 1] := true]
  {
    var r := Step(nodes, pts, w);
    assert r.branches == grown;
  }

  /** Every branch of old is a prefix of the same branch of new, and new may have more. */
  predicate Grows(old_: seq<seq<Vec3>>, new_: seq<seq<Vec3>>)
  {
    |old_| <= |new_| && forall b :: 0 <= b < |old_| ==> old_[b] <= new_[b]
  }

  /** A step only extends branches and adds new ones, and keeps the stacks aligned. */
  lemma StepAligned(nodes: seq<seq<int>>, pts: seq<Vec3>, w: Walk)
    requires Aligned(nodes, pts, w) && w.stack != []
    ensures Grows(w.branches, Step(nodes, pts, w).branches)
    ensures Aligned(nodes, pts, Step(nodes, pts, w))
  {
    var r := Step(nodes, pts, w);
    var v := w.stack[|w.stack| - 1];
    var visited := w.visited[v := true];
    var children := Unvisited(nodes[v], visited);
    UnvisitedInRange(nodes[v], visited);
    assert Grows(w.branches, r.branches);
    forall k | 0 <= k < |r.parents|
      ensures ParentOk(r.branches, r.parents[k])
    {
      if k < |w.parents| - 1 {
        assert r.parents[k] == w.parents[k];
        assert ParentOk(w.branches, w.parents[k]);
      }
    }
  }

  /** The number of unvisited nodes: the first component of the loop's measure. */
  function CountFalse(v: seq<bool>): (r: nat)
    ensures r <= |v|
  {
    if v == [] then 0 else CountFalse(v[..|v| - 1]) + (if v[|v| - 1] then 0 else 1)
  }

  /** Visiting an unvisited node lowers the count by one; visiting a visited one changes nothing. */
  lemma {:induction false} CountFalseVisit(v: seq<bool>, i: int)
    requires 0 <= i < |v|
    ensures CountFalse(v[i := true]) == if v[i] then CountFalse(v) else CountFalse(v) - 1
  {
    var u := v[i := true];
    if i == |v| - 1 {
      assert u[..|u| - 1] == v[..|v| - 1];
    } else {
      assert u[..|u| - 1] == v[..|v| - 1][i := true];
      CountFalseVisit(v[..|v| - 1], i);
    }
  }

  /**
   * Every visited node on the stack has its unvisited neighbours above it: they were pushed
   * when it was visited. So a node popped a second time pushes nothing.
   */
  ghost predicate Frontier(nodes: seq<seq<int>>, w: Walk)
    requires |w.visited| == |nodes| && forall k :: 0 <= k < |w.stack| ==> 0 <= w.stack[k] < |nodes|
  {
    forall k, x ::
      (0 <= k < |w.stack| && w.visited[w.stack[k]] && x in nodes[w.stack[k]] && 0 <= x < |w.visited| && !w.visited[x])
      ==> x in w.stack[k + 1..]
  }

  /** Either a node is newly visited, or nothing is and the stack shrinks. */
  lemma StepDecreases(nodes: seq<seq<int>>, pts: seq<Vec3>, w: Walk)
    requires Aligned(nodes, pts, w) && w.stack != [] && Frontier(nodes, w)
    ensures CountFalse(Step(nodes, pts, w).visited) < CountFalse(w.visited)
         || (CountFalse(Step(nodes, pts, w).visited) == CountFalse(w.visited)
             && |Step(nodes, pts, w).stack| < |w.stack|)
  {
    var t := |w.stack| - 1;
    var v := w.stack[t];
    CountFalseVisit(w.visited, v);
    if w.visited[v] {
      var visited := w.visited[v := true];
      assert visited == w.visited;
      var children := Unvisited(nodes[v], visited);
      if children != [] {
        var x := children[0];
        UnvisitedCounts(nodes[v], visited, x);
      }
    }
  }

  /** Frontier survives a step. */
  lemma StepFrontier(nodes: seq<seq<int>>, pts: seq<Vec3>, w: Walk)
    requires Aligned(nodes, pts, w) && w.stack != [] && Frontier(nodes, w)
    ensures Aligned(nodes, pts, Step(nodes, pts, w)) && Frontier(nodes, Step(nodes, pts, w))
  {
    StepAligned(nodes, pts, w);
    var r := Step(nodes, pts, w);
    var t := |w.stack| - 1;
    var v := w.stack[t];
    var children := Unvisited(nodes[v], r.visited);
    assert r.stack == w.stack[..t] + children;
    forall k, x | 0 <= k < |r.stack| && r.visited[r.stack[k]] && x in nodes[r.stack[k]]
                  && 0 <= x < |r.visited| && !r.visited[x]
      ensures x in r.stack[k + 1..]
    {
      if k < t {
        var u := w.stack[k];
        assert r.stack[k] == u;
        if w.visited[u] {
          assert x in w.stack[k + 1..];
          assert w.stack[k + 1..] == w.stack[k + 1..t] + [v];
          assert x != v;
          assert r.stack[k + 1..] == w.stack[k + 1..t] + children;
        } else {
          assert u == v;
          UnvisitedCounts(nodes[v], r.visited, x);
          assert x in children;
          assert r.stack[k + 1..] == w.stack[k + 1..t] + children;
        }
      } else {
        UnvisitedCounts(nodes[v], r.visited, r.stack[k]);
        assert false;
      }
    }
  }

  /** Every neighbour of a visited node is visited or still on the stack. */
  ghost predicate Closed(nodes: seq<seq<int>>, w: Walk)
    requires |w.visited| == |nodes|
  {
    forall u, x :: 0 <= u < |nodes| && w.visited[u] && x in nodes[u] && 0 <= x < |nodes| ==>
                   w.visited[x] || x in w.stack
  }

  /** Every start node is visited or still on the stack. */
  ghost predicate Covered(firsts: seq<int>, w: Walk)
  {
    forall f :: f in firsts && 0 <= f < |w.visited| ==> w.visited[f] || f in w.stack
  }

  /** Closed and Covered survive a step: a popped node is visited, its neighbours pushed. */
  lemma StepClosed(nodes: seq<seq<int>>, pts: seq<Vec3>, firsts: seq<int>, w: Walk)
    requires Aligned(nodes, pts, w) && w.stack != [] && Closed(nodes, w) && Covered(firsts, w)
    ensures Aligned(nodes, pts, Step(nodes, pts, w))
    ensures Closed(nodes, Step(nodes, pts, w)) && Covered(firsts, Step(nodes, pts, w))
  {
    StepAligned(nodes, pts, w);
    var r := Step(nodes, pts, w);
    var t := |w.stack| - 1;
    var v := w.stack[t];
    var children := Unvisited(nodes[v], r.visited);
    assert w.stack == w.stack[..t] + [v];
    assert r.stack == w.stack[..t] + children;
    forall u, x | 0 <= u < |nodes| && r.visited[u] && x in nodes[u] && 0 <= x < |nodes|
      ensures r.visited[x] || x in r.stack
    {
      if u == v {
        UnvisitedCounts(nodes[v], r.visited, x);
        if !r.visited[x] {
          assert x in children;
        }
      } else {
        assert w.visited[x] || x in w.stack;
      }
    }
  }

  /** Every branch point is a centerline point. */
  ghost predicate PointsFrom(pts: seq<Vec3>, w: Walk)
  {
    forall b, k :: 0 <= b < |w.branches| && 0 <= k < |w.branches[b]| ==> w.branches[b][k] in pts
  }

  /** The point of every visited node is in some branch. */
  ghost predicate Home(pts: seq<Vec3>, w: Walk)
    requires |w.visited| == |pts|
  {
    forall u :: 0 <= u < |pts| && w.visited[u] ==> exists b :: 0 <= b < |w.branches| && pts[u] in w.branches[b]
  }

  /** Branches gain only centerline points, and a visited node's point is never lost. */
  lemma StepPoints(nodes: seq<seq<int>>, pts: seq<Vec3>, w: Walk)
    requires Aligned(nodes, pts, w) && w.stack != [] && PointsFrom(pts, w) && Home(pts, w)
    ensures Aligned(nodes, pts, Step(nodes, pts, w))
    ensures PointsFrom(pts, Step(nodes, pts, w)) && Home(pts, Step(nodes, pts, w))
  {
    StepAligned(nodes, pts, w);
    var r := Step(nodes, pts, w);
    var v := w.stack[|w.stack| - 1];
    var cur := |w.branches| - 1;
    assert r.branches[cur] == w.branches[cur] + [pts[v]];
    forall b, k | 0 <= b < |r.branches| && 0 <= k < |r.branches[b]|
      ensures r.branches[b][k] in pts
    {
      if b < |w.branches| {
        if k < |w.branches[b]| {
          assert r.branches[b][k] == w.branches[b][k];
        }
      } else {
        var mid := w.branches[cur := w.branches[cur] + [pts[v]]];
        var p := w.parents[|w.parents| - 2];
        assert ParentOk(w.branches, p);
        assert r.branches[b] == Seed(mid, p);
        assert mid[p.spline][p.idx] in pts by {
          if p.spline == cur && p.idx == |w.branches[cur]| {
            assert false;
          } else {
            assert mid[p.spline][p.idx] == w.branches[p.spline][p.idx];
          }
        }
      }
    }
    forall u | 0 <= u < |pts| && r.visited[u]
      ensures exists b :: 0 <= b < |r.branches| && pts[u] in r.branches[b]
    {
      if u == v {
        assert pts[u] in r.branches[cur];
      } else {
        var b :| 0 <= b < |w.branches| && pts[u] in w.branches[b];
        assert w.branches[b] <= r.branches[b];
        assert pts[u] in r.branches[b];
      }
    }
  }

  /** The walk's invariant: the conjunction of the ones above for start nodes firsts. */
  ghost predicate WalkInv(nodes: seq<seq<int>>, pts: seq<Vec3>, firsts: seq<int>, w: Walk)
  {
    Aligned(nodes, pts, w) && Frontier(nodes, w) && Closed(nodes, w) && Covered(firsts, w)
    && PointsFrom(pts, w) && Home(pts, w)
  }

  /** One step keeps the invariant and lowers the measure (unvisited count, stack height). */
  lemma StepKeepsInv(nodes: seq<seq<int>>, pts: seq<Vec3>, firsts: seq<int>, w: Walk)
    requires WalkInv(nodes, pts, firsts, w) && w.stack != []
    ensures WalkInv(nodes, pts, firsts, Step(nodes, pts, w))
    ensures CountFalse(Step(nodes, pts, w).visited) < CountFalse(w.visited)
         || (CountFalse(Step(nodes, pts, w).visited) == CountFalse(w.visited)
             && |Step(nodes, pts, w).stack| < |w.stack|)
  {
    StepFrontier(nodes, pts, w);
    StepClosed(nodes, pts, firsts, w);
    StepPoints(nodes, pts, w);
    StepDecreases(nodes, pts, w);
  }

  /** The search run to the end from w: Step until the stack is empty. */
  ghost function Walked(nodes: seq<seq<int>>, pts: seq<Vec3>, firsts: seq<int>, w: Walk): (r: Walk)
    requires WalkInv(nodes, pts, firsts, w)
    ensures r.stack == []
    decreases CountFalse(w.visited), |w.stack|
  {
    if w.stack == [] then w
    else
      StepKeepsInv(nodes, pts, firsts, w);
      Walked(nodes, pts, firsts, Step(nodes, pts, w))
  }

  /** The walk the search stops at still satisfies the invariant. */
  lemma {:induction false} WalkedInv(nodes: seq<seq<int>>, pts: seq<Vec3>, firsts: seq<int>, w: Walk)
    requires WalkInv(nodes, pts, firsts, w)
    ensures WalkInv(nodes, pts, firsts, Walked(nodes, pts, firsts, w))
    decreases CountFalse(w.visited), |w.stack|
  {
    if w.stack != [] {
      StepKeepsInv(nodes, pts, firsts, w);
      WalkedInv(nodes, pts, firsts, Step(nodes, pts, w));
    }
  }

  /**
   * Where build's search starts: the degree-one nodes stacked in reverse (the first on top),
   * none with a parent, one empty branch, nothing visited.
   */
  function StartWalk(c: Centerline): (w: Walk)
    requires WellFormed(c)
    ensures Reversal(w.stack, DegreeOne(Adjacency(|c.points|, c.lines), |c.points|))
  {
    var n := |c.points|;
    var firsts := DegreeOne(Adjacency(n, c.lines), n);
    Walk(seq(|firsts|, k requires 0 <= k < |firsts| => firsts[|firsts| - 1 - k]),
         seq(|firsts|, _ => Parent(-1, -1)), [[]], seq(n, _ => false))
  }

  /** The start satisfies the walk's invariant. */
  lemma StartInv(c: Centerline)
    requires WellFormed(c)
    ensures WalkInv(Adjacency(|c.points|, c.lines), c.points,
                    DegreeOne(Adjacency(|c.points|, c.lines), |c.points|), StartWalk(c))
  {
    var n := |c.points|;
    var adj := Adjacency(n, c.lines);
    var firsts := DegreeOne(adj, n);
    var w := StartWalk(c);
    DegreeOneExact(adj, n);
    assert forall u :: 0 <= u < n ==> !w.visited[u];
    assert Aligned(adj, c.points, w);
    assert Frontier(adj, w) && Closed(adj, w) && Home(c.points, w);
    assert PointsFrom(c.points, w) by {
      assert w.branches == [[]];
    }
    forall f | f in firsts ensures f in w.stack {
      var k :| 0 <= k < |firsts| && firsts[k] == f;
      assert w.stack[|firsts| - 1 - k] == f;
    }
  }

  /** The branches and visited bits of build's search over a centerline. */
  ghost function Searched(c: Centerline): (r: Walk)
    requires WellFormed(c)
    ensures r.stack == []
  {
    var n := |c.points|;
    StartInv(c);
    Walked(Adjacency(n, c.lines), c.points, DegreeOne(Adjacency(n, c.lines), n), StartWalk(c))
  }

  /** A walk along neighbour lists. */
  predicate IsPath(nodes: seq<seq<int>>, path: seq<int>)
  {
    forall k :: 0 <= k < |path| - 1 ==> 0 <= path[k] < |nodes| && path[k + 1] in nodes[path[k]]
  }

  /** A set of nodes closed under the neighbour relation. */
  ghost predicate ClosedSet(nodes: seq<seq<int>>, visited: seq<bool>)
  {
    |visited| == |nodes|
    && forall u, x :: 0 <= u < |nodes| && visited[u] && x in nodes[u] && 0 <= x < |nodes| ==> visited[x]
  }

  /** A closed set that holds the start of a path holds all of it. */
  lemma {:induction false} ClosedSetHoldsPath(nodes: seq<seq<int>>, visited: seq<bool>, path: seq<int>)
    requires ClosedSet(nodes, visited) && IsPath(nodes, path) && path != []
    requires forall v :: 0 <= v < |nodes| ==> InRange(nodes[v], |nodes|)
    requires 0 <= path[0] < |nodes| && visited[path[0]]
    ensures forall k :: 0 <= k < |path| ==> 0 <= path[k] < |nodes| && visited[path[k]]
  {
    if |path| > 1 {
      var init := path[..|path| - 1];
      ClosedSetHoldsPath(nodes, visited, init);
      var u := path[|path| - 2];
      assert init[|init| - 1] == u;
      assert path[|path| - 1] in nodes[u];
    }
  }

  /**
   * The search of build over a centerline: the branches it collects (ptstack, one sequence of
   * points per branch) and the visited bits it ends with. Every degree-one node is visited,
   * the visited nodes are closed under adjacency, every visited node's point lies in some
   * branch and every branch point is a centerline point. They are those of the search run
   * step by step from the start.
   */
  method Search(c: Centerline) returns (branches: seq<seq<Vec3>>, visited: seq<bool>)
    requires WellFormed(c)
    ensures branches == Searched(c).branches && visited == Searched(c).visited
    ensures |branches| >= 1 && |visited| == |c.points|
    ensures forall v :: 0 <= v < |c.points| && |Adjacency(|c.points|, c.lines)[v]| == 1 ==> visited[v]
    ensures ClosedSet(Adjacency(|c.points|, c.lines), visited)
    ensures forall u :: 0 <= u < |c.points| && visited[u] ==>
              exists b :: 0 <= b < |branches| && c.points[u] in branches[b]
    ensures forall b, k :: 0 <= b < |branches| && 0 <= k < |branches[b]| ==> branches[b][k] in c.points
  {
    var n := |c.points|;
    ghost var adj := Adjacency(n, c.lines);
    var list := Connect(n, c.lines);
    var firsts := list.FindAllFirst();
    DegreeOneExact(adj, n);
    var stack, parents := StartStacks(n, firsts);
    StartStacksAre(c, stack, parents);
    StartInv(c);
    branches := Explore(list, adj, c.points, firsts, stack, parents);
    visited := list.visited;
    SearchedCovers(c);
  }

  /** StartStacks builds the stacks of StartWalk. */
  lemma StartStacksAre(c: Centerline, stack: seq<int>, parents: seq<Parent>)
    requires WellFormed(c)
    requires Reversal(stack, DegreeOne(Adjacency(|c.points|, c.lines), |c.points|))
    requires |parents| == |stack| && forall k :: 0 <= k < |parents| ==> parents[k] == Parent(-1, -1)
    ensures stack == StartWalk(c).stack && parents == StartWalk(c).parents
  {
  }

  /**
   * What the finished search covers: every degree-one node is visited, the visited nodes are
   * closed under adjacency, every visited node's point lies in some branch and every branch
   * point is a centerline point.
   */
  lemma SearchedCovers(c: Centerline)
    requires WellFormed(c)
    ensures |Searched(c).branches| >= 1 && |Searched(c).visited| == |c.points|
    ensures forall v :: 0 <= v < |c.points| && |Adjacency(|c.points|, c.lines)[v]| == 1 ==> Searched(c).visited[v]
    ensures ClosedSet(Adjacency(|c.points|, c.lines), Searched(c).visited)
    ensures forall u :: 0 <= u < |c.points| && Searched(c).visited[u] ==>
              exists b :: 0 <= b < |Searched(c).branches| && c.points[u] in Searched(c).branches[b]
    ensures forall b, k :: 0 <= b < |Searched(c).branches| && 0 <= k < |Searched(c).branches[b]| ==>
              Searched(c).branches[b][k] in c.points
  {
    var n := |c.points|;
    var adj := Adjacency(n, c.lines);
    SearchedInv(c);
    EndCovers(adj, c.points, DegreeOne(adj, n), Searched(c));
    DegreeOneExact(adj, n);
  }

  /** The search ends in a state of the loop invariant. */
  lemma SearchedInv(c: Centerline)
    requires WellFormed(c)
    ensures WalkInv(Adjacency(|c.points|, c.lines), c.points, DegreeOne(Adjacency(|c.points|, c.lines), |c.points|),
                    Searched(c))
  {
    var n := |c.points|;
    StartInv(c);
    WalkedInv(Adjacency(n, c.lines), c.points, DegreeOne(Adjacency(n, c.lines), n), StartWalk(c));
  }

  /** With the stack empty, the loop invariant says the visited set is closed and holds every start node. */
  lemma EndCovers(nodes: seq<seq<int>>, pts: seq<Vec3>, firsts: seq<int>, w: Walk)
    requires WalkInv(nodes, pts, firsts, w) && w.stack == []
    ensures |w.branches| >= 1 && |w.visited| == |nodes| == |pts|
    ensures forall f :: f in firsts && 0 <= f < |w.visited| ==> w.visited[f]
    ensures ClosedSet(nodes, w.visited)
    ensures Home(pts, w) && PointsFrom(pts, w)
  {
  }


  /** The graph build sets up: one node per centerline point, adjacent() for every line, nothing visited. */
  method Connect(n: nat, lines: seq<(int, int)>) returns (list: AdjList)
    requires forall i :: 0 <= i < |lines| ==> 0 <= lines[i].0 < n && 0 <= lines[i].1 < n
    ensures fresh(list) && list.Valid()
    ensures list.nodes == Adjacency(n, lines) && list.visited == seq(n, _ => false)
  {
    list := new AdjList(n);
    var i := 0;
    while i < |lines|
      invariant 0 <= i <= |lines|
      invariant fresh(list) && list.Valid() && list.nodes == Adjacency(n, lines[..i])
      invariant list.visited == seq(n, _ => false)
    {
      var (a, b) := lines[i];
      ghost var before := list.nodes;
      list.Adjacent(a, b);
      assert list.nodes == Join(before, a, b);
      assert lines[..i + 1][..i] == lines[..i];
      i := i + 1;
    }
    assert lines[..i] == lines;
  }

  /** s is t back to front. */
  ghost predicate Reversal(s: seq<int>, t: seq<int>)
  {
    |s| == |t| && forall k :: 0 <= k < |s| ==> s[k] == t[|t| - 1 - k]
  }

  /** The start of build's search: the degree-one nodes pushed in reverse, so firsts[0] is on top, each without a parent. */
  method StartStacks(n: nat, firsts: seq<int>) returns (stack: seq<int>, parents: seq<Parent>)
    requires forall k :: 0 <= k < |firsts| ==> 0 <= firsts[k] < n
    ensures |stack| == |parents| == |firsts|
    ensures forall k :: 0 <= k < |stack| ==> 0 <= stack[k] < n && parents[k] == Parent(-1, -1)
    ensures Reversal(stack, firsts)
    ensures forall k :: 0 <= k < |firsts| ==> firsts[k] in stack
  {
    stack, parents := [], [];
    var j := |firsts| - 1;
    while j >= 0
      invariant -1 <= j < |firsts|
      invariant |stack| == |parents| == |firsts| - 1 - j
      invariant forall k :: 0 <= k < |stack| ==> 0 <= stack[k] < n && parents[k] == Parent(-1, -1)
      invariant forall k :: 0 <= k < |stack| ==> stack[k] == firsts[|firsts| - 1 - k]
      invariant forall k :: j < k < |firsts| ==> firsts[k] in stack
    {
      parents := parents + [Parent(-1, -1)];
      stack := stack + [firsts[j]];
      j := j - 1;
    }
  }

  /**
   * The depth-first loop of build, from the start stacks to the empty stack, on the graph
   * object whose visited bits it sets.
   */
  method Explore(list: AdjList, ghost adj: seq<seq<int>>, pts: seq<Vec3>, ghost firsts: seq<int>,
                 stack0: seq<int>, parents0: seq<Parent>) returns (branches: seq<seq<Vec3>>)
    requires list.Valid() && list.nodes == adj && |list.visited| == |adj|
    requires WalkInv(adj, pts, firsts, Walk(stack0, parents0, [[]], list.visited))
    modifies list
    ensures list.Valid() && list.nodes == adj && |list.visited| == |adj|
    ensures WalkInv(adj, pts, firsts, Walk([], [], branches, list.visited))
    ensures Walk([], [], branches, list.visited) == Walked(adj, pts, firsts, Walk(stack0, parents0, [[]], old(list.visited)))
  {
    var stack, parents := stack0, parents0;
    branches := [[]];
    var curspline := 0;
    while stack != []
      invariant list.Valid() && list.nodes == adj && |list.visited| == |adj|
      invariant WalkInv(adj, pts, firsts, Walk(stack, parents, branches, list.visited))
      invariant curspline == |branches| - 1
      invariant Walked(adj, pts, firsts, Walk(stack, parents, branches, list.visited))
             == Walked(adj, pts, firsts, Walk(stack0, parents0, [[]], old(list.visited)))
      decreases CountFalse(list.visited), |stack|
    {
      ghost var w := Walk(stack, parents, branches, list.visited);
      stack, parents, branches, curspline := Advance(list, adj, pts, stack, parents, branches, curspline);
      StepKeepsInv(adj, pts, firsts, w);
    }
  }

  /** One pass of build's loop on the graph object: exactly what Step does to the walk. */
  method Advance(list: AdjList, ghost adj: seq<seq<int>>, pts: seq<Vec3>, stack0: seq<int>,
                 parents0: seq<Parent>, branches0: seq<seq<Vec3>>, curspline0: int)
    returns (stack: seq<int>, parents: seq<Parent>, branches: seq<seq<Vec3>>, curspline: int)
    requires list.Valid() && list.nodes == adj && stack0 != []
    requires Aligned(adj, pts, Walk(stack0, parents0, branches0, list.visited))
    requires curspline0 == |branches0| - 1
    modifies list
    ensures list.Valid() && list.nodes == adj && |list.visited| == |adj|
    ensures Walk(stack, parents, branches, list.visited) == Step(adj, pts, Walk(stack0, parents0, branches0, old(list.visited)))
    ensures curspline == |branches| - 1
  {
    ghost var w := Walk(stack0, parents0, branches0, list.visited);
    stack, parents, branches, curspline := stack0, parents0, branches0, curspline0;
    var curnode := stack[|stack| - 1];
    parents := parents[..|parents| - 1];
    stack := stack[..|stack| - 1];
    branches := branches[curspline := branches[curspline] + [pts[curnode]]];
    ghost var mid := branches;
    list.Visit(curnode);
    var children := list.FindAllNext(curnode);
    if |children| != 1 && stack != [] {
      curspline := curspline + 1;
      var parent := parents[|parents| - 1];
      assert ParentOk(w.branches, w.parents[|w.parents| - 2]);
      assert ParentOk(mid, parent);
      var seed: seq<Vec3> := [];
      if parent.idx != -1 {
        seed := [branches[parent.spline][parent.idx]];
      }
      branches := branches + [seed];
      assert seed == Seed(mid, parent);
    }
    stack := stack + children;
    ghost var popped := parents;
    var k := 0;
    while k < |children|
      invariant 0 <= k <= |children|
      invariant parents == popped + seq(k, _ => Parent(curspline, |branches[curspline]| - 1))
    {
      parents := parents + [Parent(curspline, |branches[curspline]| - 1)];
      k := k + 1;
    }
    StepIs(adj, pts, w, mid, children, branches);
    ghost var r := Step(adj, pts, w);
    assert stack == r.stack && parents == r.parents && branches == r.branches && list.visited == r.visited;
  }

  /** The branches build turns into splines: those with more than one point, in order. */
  function LongBranches(branches: seq<seq<Vec3>>): seq<seq<Vec3>>
  {
    if branches == [] then []
    else
      var init := LongBranches(branches[..|branches| - 1]);
      var last := branches[|branches| - 1];
      if |last| > 1 then init + [last] else init
  }

  /** Exactly the branches of more than one point become splines. */
  lemma {:induction false} LongBranchesExact(branches: seq<seq<Vec3>>)
    ensures forall k :: 0 <= k < |LongBranches(branches)| ==>
              |LongBranches(branches)[k]| > 1 && LongBranches(branches)[k] in branches
    ensures forall b :: b in branches && |b| > 1 ==> b in LongBranches(branches)
    decreases |branches|
  {
    if branches != [] {
      var init := branches[..|branches| - 1];
      LongBranchesExact(init);
      assert forall b :: b in branches ==> b in init || b == branches[|branches| - 1];
    }
  }

  /** Keeping a prefix of the branches keeps a prefix of the long ones. */
  lemma {:induction false} LongBranchesPrefix(branches: seq<seq<Vec3>>, i: nat)
    requires i <= |branches|
    ensures LongBranches(branches[..i]) <= LongBranches(branches)
    decreases |branches|
  {
    if i < |branches| {
      var init := branches[..|branches| - 1];
      assert init[..i] == branches[..i];
      LongBranchesPrefix(init, i);
    } else {
      assert branches[..i] == branches;
    }
  }

  /** The per-axis coordinate vectors of a branch, as setPoints receives them. */
  function AxesOf(b: seq<Vec3>): (r: Axes)
    ensures SameLength(r) && |r[0]| == |b|
    ensures forall i :: 0 <= i < |b| ==> PointOf(r, i) == b[i]
  {
    var r: Axes := [seq(|b|, i requires 0 <= i < |b| => b[i][0]),
                    seq(|b|, i requires 0 <= i < |b| => b[i][1]),
                    seq(|b|, i requires 0 <= i < |b| => b[i][2])];
    assert forall i :: 0 <= i < |b| ==> PointOf(r, i) == [b[i][0], b[i][1], b[i][2]];
    r
  }

  /**
   * build(data): one new spline per branch of more than one point, in branch order, holding
   * that branch's points, not yet initialized, each with its own empty intersection set.
   */
  method Build(c: Centerline) returns (splines: seq<Spline3D>, ghost branches: seq<seq<Vec3>>)
    requires WellFormed(c)
    ensures branches == Searched(c).branches
    ensures forall v :: 0 <= v < |c.points| && |Adjacency(|c.points|, c.lines)[v]| == 1 ==>
              exists b :: 0 <= b < |branches| && c.points[v] in branches[b]
    ensures forall b, k :: 0 <= b < |branches| && 0 <= k < |branches[b]| ==> branches[b][k] in c.points
    ensures |splines| == |LongBranches(branches)|
    ensures forall k :: 0 <= k < |splines| ==>
              fresh(splines[k]) && fresh(splines[k].intersections) && Blank(splines[k], LongBranches(branches)[k])
    ensures forall k, l :: 0 <= k < l < |splines| ==>
              splines[k] != splines[l] && splines[k].intersections != splines[l].intersections
  {
    var bs, visited := Search(c);
    branches := bs;
    splines := MakeSplines(bs);
  }

  /** The spline loop of build: a fresh spline for each branch of more than one point. */
  method MakeSplines(bs: seq<seq<Vec3>>) returns (splines: seq<Spline3D>)
    ensures |splines| == |LongBranches(bs)|
    ensures forall k :: 0 <= k < |splines| ==>
              fresh(splines[k]) && fresh(splines[k].intersections) && Blank(splines[k], LongBranches(bs)[k])
    ensures forall k, l :: 0 <= k < l < |splines| ==>
              splines[k] != splines[l] && splines[k].intersections != splines[l].intersections
  {
    var long := LongBranches(bs);
    splines := [];
    var i := 0;
    while i < |bs|
      invariant 0 <= i <= |bs|
      invariant LongBranches(bs[..i]) <= long
      invariant |splines| == |LongBranches(bs[..i])|
      invariant forall k :: 0 <= k < |splines| ==> fresh(splines[k])
      invariant forall k :: 0 <= k < |splines| ==> fresh(splines[k].intersections)
      invariant forall k :: 0 <= k < |splines| ==> Blank(splines[k], long[k])
      invariant forall k, l :: 0 <= k < l < |splines| ==> splines[k] != splines[l]
      invariant forall k, l :: 0 <= k < l < |splines| ==> splines[k].intersections != splines[l].intersections
    {
      assert bs[..i + 1][..i] == bs[..i];
      LongBranchesPrefix(bs, i + 1);
      if |bs[i]| > 1 {
        assert LongBranches(bs[..i + 1]) == LongBranches(bs[..i]) + [bs[i]];
        var s := NewSpline(bs[i]);
        ghost var before := splines;
        splines := splines + [s];
        assert forall k :: 0 <= k < |before| ==> splines[k] == before[k];
        assert splines[|before|] == s && long[|before|] == bs[i];
      } else {
        assert LongBranches(bs[..i + 1]) == LongBranches(bs[..i]);
      }
      i := i + 1;
    }
    assert bs[..i] == bs;
  }

  /** A spline as build leaves it: the branch's points, not yet initialized, an empty intersection set. */
  ghost predicate Blank(s: Spline3D, b: seq<Vec3>)
    reads s, s.intersections
  {
    s.intersections.items == [] && s.points == AxesOf(b) && !s.initialized && s.axis == 1 && s.transform
  }

  /** One spline of build's result: Spline3D(size) and setPoints with the branch's coordinates. */
  method NewSpline(b: seq<Vec3>) returns (s: Spline3D)
    ensures fresh(s) && fresh(s.intersections) && Blank(s, b)
  {
    var axes := AxesOf(b);
    s := new Spline3D(|b|);
    s.SetPoints(axes[0], axes[1], axes[2]);
  }
}
