// The centerline graph (core/adjlist.hpp): an undirected adjacency list with one visited bit
// per node. Node lists and the visited vector are updated in place, so the graph is a class;
// the queries are index loops proved against the specification functions below.
module Graph {

  /** The neighbours of a node that are not yet visited, in list order, duplicates kept. */
  function Unvisited(neighbours: seq<int>, visited: seq<bool>): (r: seq<int>)
    requires forall k :: 0 <= k < |neighbours| ==> 0 <= neighbours[k] < |visited|
    ensures |r| <= |neighbours|
  {
    if neighbours == [] then []
    else
      var rest := Unvisited(neighbours[..|neighbours| - 1], visited);
      var last := neighbours[|neighbours| - 1];
      if visited[last] then rest else rest + [last]
  }

  /** The nodes of degree exactly one among the first n lists, in increasing order. */
  function DegreeOne(nodes: seq<seq<int>>, n: nat): (r: seq<int>)
    requires n <= |nodes|
    ensures |r| <= n
  {
    if n == 0 then []
    else DegreeOne(nodes, n - 1) + (if |nodes[n - 1]| == 1 then [n - 1] else [])
  }

  /** A neighbour list mentions only nodes of the graph. */
  ghost predicate InRange(neighbours: seq<int>, size: nat)
  {
    forall k :: 0 <= k < |neighbours| ==> 0 <= neighbours[k] < size
  }

  /**
   * Unvisited keeps exactly the unvisited entries, each as often as the list holds it, and
   * never anything else.
   */
  lemma {:induction false} UnvisitedCounts(neighbours: seq<int>, visited: seq<bool>, x: int)
    requires InRange(neighbours, |visited|)
    ensures x in Unvisited(neighbours, visited) ==> 0 <= x < |visited| && !visited[x]
    ensures multiset(Unvisited(neighbours, visited))[x]
         == if 0 <= x < |visited| && !visited[x] then multiset(neighbours)[x] else 0
  {
    if neighbours != [] {
      var init := neighbours[..|neighbours| - 1];
      var last := neighbours[|neighbours| - 1];
      UnvisitedCounts(init, visited, x);
      assert neighbours == init + [last];
      assert multiset(neighbours) == multiset(init) + multiset{last};
      var rest := Unvisited(init, visited);
      if visited[last] {
        assert Unvisited(neighbours, visited) == rest;
      } else {
        assert Unvisited(neighbours, visited) == rest + [last];
        assert multiset(rest + [last]) == multiset(rest) + multiset{last};
      }
    }
  }

  /** Every entry of Unvisited is a list entry; all of them are in range and unvisited. */
  lemma {:induction false} UnvisitedInRange(neighbours: seq<int>, visited: seq<bool>)
    requires InRange(neighbours, |visited|)
    ensures |Unvisited(neighbours, visited)| <= |neighbours|
    ensures forall k :: 0 <= k < |Unvisited(neighbours, visited)| ==>
              0 <= Unvisited(neighbours, visited)[k] < |visited|
              && !visited[Unvisited(neighbours, visited)[k]]
  {
    if neighbours != [] {
      UnvisitedInRange(neighbours[..|neighbours| - 1], visited);
    }
  }

  /** When every entry is visited nothing is left, and the converse. */
  lemma {:induction false} UnvisitedEmpty(neighbours: seq<int>, visited: seq<bool>)
    requires InRange(neighbours, |visited|)
    ensures Unvisited(neighbours, visited) == []
        <==> forall k :: 0 <= k < |neighbours| ==> visited[neighbours[k]]
  {
    if neighbours != [] {
      var init := neighbours[..|neighbours| - 1];
      UnvisitedEmpty(init, visited);
      assert forall k :: 0 <= k < |init| ==> init[k] == neighbours[k];
    }
  }

  /**
   * The head of Unvisited is the first unvisited entry in list order: it sits at some index k
   * and every entry before k is visited.
   */
  lemma {:induction false} UnvisitedHead(neighbours: seq<int>, visited: seq<bool>)
    requires InRange(neighbours, |visited|)
    requires Unvisited(neighbours, visited) != []
    ensures exists k :: 0 <= k < |neighbours| && neighbours[k] == Unvisited(neighbours, visited)[0]
              && !visited[neighbours[k]]
              && forall j :: 0 <= j < k ==> visited[neighbours[j]]
  {
    var init := neighbours[..|neighbours| - 1];
    assert forall k :: 0 <= k < |init| ==> init[k] == neighbours[k];
    if Unvisited(init, visited) != [] {
      UnvisitedHead(init, visited);
      var k :| 0 <= k < |init| && init[k] == Unvisited(init, visited)[0]
               && !visited[init[k]] && forall j :: 0 <= j < k ==> visited[init[j]];
      assert neighbours[k] == Unvisited(neighbours, visited)[0];
    } else {
      UnvisitedEmpty(init, visited);
      var k := |neighbours| - 1;
      assert neighbours[k] == Unvisited(neighbours, visited)[0];
    }
  }

  /** DegreeOne lists exactly the nodes of degree one, strictly increasing. */
  lemma {:induction false} DegreeOneExact(nodes: seq<seq<int>>, n: nat)
    requires n <= |nodes|
    ensures forall k :: 0 <= k < |DegreeOne(nodes, n)| ==>
              0 <= DegreeOne(nodes, n)[k] < n && |nodes[DegreeOne(nodes, n)[k]]| == 1
    ensures forall i :: 0 <= i < n && |nodes[i]| == 1 ==> i in DegreeOne(nodes, n)
    ensures forall k, l :: 0 <= k < l < |DegreeOne(nodes, n)| ==>
              DegreeOne(nodes, n)[k] < DegreeOne(nodes, n)[l]
  {
    if n > 0 {
      DegreeOneExact(nodes, n - 1);
    }
  }

  class AdjList {
    /** m_nodes: the neighbour list of every node. */
    var nodes: seq<seq<int>>
    /** m_visited: one bit per node. */
    var visited: seq<bool>

    ghost predicate Valid()
      reads this
    {
      |nodes| == |visited| && forall v :: 0 <= v < |nodes| ==> InRange(nodes[v], |nodes|)
    }

    /** AdjList(n): n nodes, all unvisited, none with a neighbour. */
    constructor (n: nat)
      ensures Valid()
      ensures |nodes| == n && |visited| == n
      ensures forall v :: 0 <= v < n ==> nodes[v] == [] && !visited[v]
    {
      nodes := seq(n, _ => []);
      visited := seq(n, _ => false);
    }

    /** adjacent(n1, n2): n2 joins n1's list, then n1 joins n2's list; nothing else changes. */
    method Adjacent(n1: int, n2: int)
      requires Valid() && 0 <= n1 < |nodes| && 0 <= n2 < |nodes|
      modifies this
      ensures Valid()
      ensures visited == old(visited) && |nodes| == |old(nodes)|
      ensures n1 != n2 ==> nodes[n1] == old(nodes[n1]) + [n2] && nodes[n2] == old(nodes[n2]) + [n1]
      ensures n1 == n2 ==> nodes[n1] == old(nodes[n1]) + [n1, n1]
      ensures forall v :: 0 <= v < |nodes| && v != n1 && v != n2 ==> nodes[v] == old(nodes[v])
    {
      nodes := nodes[n1 := nodes[n1] + [n2]];
      nodes := nodes[n2 := nodes[n2] + [n1]];
    }

    /** visit(v): sets v's bit and no other. */
    method Visit(v: int)
      requires Valid() && 0 <= v < |nodes|
      modifies this
      ensures Valid()
      ensures nodes == old(nodes) && visited == old(visited)[v := true]
    {
      visited := visited[v := true];
    }

    /** isVisited(v). */
    method IsVisited(v: int) returns (b: bool)
      requires Valid() && 0 <= v < |nodes|
      ensures b <==> visited[v]
    {
      b := visited[v];
    }

    /** findAllNext(v): the unvisited neighbours of v, in list order. */
    method FindAllNext(v: int) returns (r: seq<int>)
      requires Valid() && 0 <= v < |nodes|
      ensures r == Unvisited(nodes[v], visited)
    {
      var list := nodes[v];
      r := [];
      var i := 0;
      while i < |list|
        invariant 0 <= i <= |list|
        invariant r == Unvisited(list[..i], visited)
      {
        assert list[..i + 1][..i] == list[..i];
        if !visited[list[i]] {
          r := r + [list[i]];
        }
        i := i + 1;
      }
      assert list[..|list|] == list;
    }

    /** findNext(v): the first unvisited neighbour in list order, or -1 when all are visited. */
    method FindNext(v: int) returns (r: int)
      requires Valid() && 0 <= v < |nodes|
      ensures r == -1 <==> forall k :: 0 <= k < |nodes[v]| ==> visited[nodes[v][k]]
      ensures r != -1 ==> exists k :: 0 <= k < |nodes[v]| && nodes[v][k] == r && !visited[r]
                            && forall j :: 0 <= j < k ==> visited[nodes[v][j]]
      ensures r != -1 ==> Unvisited(nodes[v], visited) != [] && r == Unvisited(nodes[v], visited)[0]
    {
      var list := nodes[v];
      var i := 0;
      while i < |list|
        invariant 0 <= i <= |list|
        invariant forall j :: 0 <= j < i ==> visited[list[j]]
        invariant Unvisited(list, visited) == Unvisited(list[i..], visited)
      {
        if !visited[list[i]] {
          UnvisitedSkipsVisitedPrefix(list, visited, i);
          r := list[i];
          return;
        }
        UnvisitedDropVisitedHead(list[i..], visited);
        assert list[i..][1..] == list[i + 1..];
        i := i + 1;
      }
      r := -1;
    }

    /** findAllFirst(): every node of degree one, in increasing index order. */
    method FindAllFirst() returns (r: seq<int>)
      requires Valid()
      ensures r == DegreeOne(nodes, |nodes|)
    {
      r := [];
      var i := 0;
      while i < |nodes|
        invariant 0 <= i <= |nodes|
        invariant r == DegreeOne(nodes, i)
      {
        if |nodes[i]| == 1 {
          r := r + [i];
        }
        i := i + 1;
      }
    }

    /** findFirst(): the smallest node of degree one, or -1 when there is none. */
    method FindFirst() returns (r: int)
      requires Valid()
      ensures r == -1 <==> forall v :: 0 <= v < |nodes| ==> |nodes[v]| != 1
      ensures r != -1 ==> 0 <= r < |nodes| && |nodes[r]| == 1
                          && forall v :: 0 <= v < r ==> |nodes[v]| != 1
    {
      var i := 0;
      while i < |nodes|
        invariant 0 <= i <= |nodes|
        invariant forall v :: 0 <= v < i ==> |nodes[v]| != 1
      {
        if |nodes[i]| == 1 {
          return i;
        }
        i := i + 1;
      }
      r := -1;
    }
  }

  /** Unvisited of a list whose head is visited is Unvisited of its tail. */
  lemma {:induction false} UnvisitedDropVisitedHead(list: seq<int>, visited: seq<bool>)
    requires InRange(list, |visited|) && list != [] && visited[list[0]]
    ensures Unvisited(list, visited) == Unvisited(list[1..], visited)
  {
    if |list| > 1 {
      var init := list[..|list| - 1];
      UnvisitedDropVisitedHead(init, visited);
      assert init[1..] == list[1..][..|list[1..]| - 1];
    } else {
      assert list[1..] == [];
    }
  }

  /** Once a visited prefix has been skipped, an unvisited entry at i heads Unvisited. */
  lemma {:induction false} UnvisitedSkipsVisitedPrefix(list: seq<int>, visited: seq<bool>, i: nat)
    requires InRange(list, |visited|) && i < |list| && !visited[list[i]]
    ensures Unvisited(list[i..], visited) != [] && Unvisited(list[i..], visited)[0] == list[i]
  {
    UnvisitedFront(list[i..], visited);
  }

  /** An unvisited head is the head of Unvisited. */
  lemma {:induction false} UnvisitedFront(list: seq<int>, visited: seq<bool>)
    requires InRange(list, |visited|) && list != [] && !visited[list[0]]
    ensures Unvisited(list, visited) != [] && Unvisited(list, visited)[0] == list[0]
  {
    if |list| > 1 {
      var init := list[..|list| - 1];
      UnvisitedFront(init, visited);
    }
  }
}
