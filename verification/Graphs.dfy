/** Finite directed graphs over named nodes: what can be reached, computed and as paths. */
module Graphs {
  type Graph = map<string, set<string>>

  function Successors(g: Graph, from: set<string>): set<string> {
    set n, m | n in from && n in g && m in g[n] :: m
  }

  /** All nodes reached from `from`: the least set that holds it and is closed under successors. */
  function Closure(g: Graph, from: set<string>): (all: set<string>)
    ensures from <= all && Successors(g, all) <= all
    decreases |Successors(g, g.Keys) - from|
  {
    var more := from + Successors(g, from);
    if more == from then from else
      FewerLeft(g, from);
      Closure(g, more)
  }

  lemma FewerLeft(g: Graph, from: set<string>)
    ensures var all, more := Successors(g, g.Keys), from + Successors(g, from);
            more != from ==> |all - more| < |all - from|
  {
    var all, more := Successors(g, g.Keys), from + Successors(g, from);
    if more != from {
      var found :| found in more && found !in from;
      assert all - from == (all - more) + (more - from);
    }
  }

  predicate IsEdge(g: Graph, n: string, m: string) {
    n in g && m in g[n]
  }

  predicate IsPath(g: Graph, path: seq<string>) {
    path != [] && forall i | 0 <= i < |path| - 1 :: IsEdge(g, path[i], path[i + 1])
  }

  lemma {:induction false} PathStaysInside(g: Graph, all: set<string>, path: seq<string>, i: nat)
    requires Successors(g, all) <= all && IsPath(g, path) && path[0] in all && i < |path|
    ensures path[i] in all
  {
    if i > 0 {
      PathStaysInside(g, all, path, i - 1);
      assert IsEdge(g, path[i - 1], path[i - 1 + 1]);
      assert path[i] in Successors(g, all);
    }
  }

  lemma {:induction false} PathTo(g: Graph, from: set<string>, n: string) returns (path: seq<string>)
    requires n in Closure(g, from)
    ensures IsPath(g, path) && path[0] in from && path[|path| - 1] == n
    decreases |Successors(g, g.Keys) - from|
  {
    var more := from + Successors(g, from);
    if more == from {
      return [n];
    }
    FewerLeft(g, from);
    path := PathTo(g, more, n);
    if path[0] !in from {
      var m :| m in from && m in g && path[0] in g[m];
      path := [m] + path;
    }
  }
}
