/** Dependency graphs of a bundle: cycles, what lies downstream of one, and counting open dependencies. */
module DependencyGraph {
  import opened Models

  /** Slug to the dependencies it lists; a listed slug that is not a node is not an edge. */
  type Graph = map<string, seq<string>>

  /** Each node of the path lists the next one as a dependency. */
  ghost predicate DepPath(g: Graph, p: seq<string>) {
    |p| >= 1 && p[0] in g && (|p| > 1 ==> p[1] in g[p[0]] && DepPath(g, p[1..]))
  }

  ghost predicate OnCycle(g: Graph, c: string) {
    exists p :: DepPath(g, p) && |p| > 1 && p[0] == c && p[|p| - 1] == c
  }

  /** `s` is on a cycle or depends, directly or not, on something that is. */
  ghost predicate Tangled(g: Graph, s: string) {
    exists p :: DepPath(g, p) && p[0] == s && OnCycle(g, p[|p| - 1])
  }

  // ------------------------------------------------------------------ counting

  /** How many entries of `ds` (with repetitions) are in `live`. */
  function Open(ds: seq<string>, live: set<string>): nat {
    if ds == [] then 0
    else Open(ds[..|ds| - 1], live) + if ds[|ds| - 1] in live then 1 else 0
  }

  lemma {:induction false} OpenZero(ds: seq<string>, live: set<string>)
    ensures Open(ds, live) == 0 <==> forall d :: d in ds ==> d !in live
  {
    if ds != [] {
      OpenZero(ds[..|ds| - 1], live);
      assert forall d :: d in ds <==> d in ds[..|ds| - 1] || d == ds[|ds| - 1];
    }
  }

  lemma {:induction false} OpenWithout(ds: seq<string>, live: set<string>, x: string)
    requires x in live
    ensures Open(ds, live) == Open(ds, live - {x}) + multiset(ds)[x]
  {
    if ds != [] {
      OpenWithout(ds[..|ds| - 1], live, x);
      assert ds == ds[..|ds| - 1] + [ds[|ds| - 1]];
    }
  }

  lemma {:induction false} NoDupsFits(p: seq<string>, nodes: set<string>)
    requires NoDups(p) && forall x :: x in p ==> x in nodes
    ensures |p| <= |nodes|
  {
    if p != [] {
      NoDupsFits(p[1..], nodes - {p[0]});
    }
  }

  // ------------------------------------------------------------------ what a stuck topological sort leaves

  /** Every node of the set has a dependency in the set. */
  ghost predicate SelfBlocked(g: Graph, stuck: set<string>) {
    forall x :: x in stuck ==> x in g && Open(g[x], stuck) > 0
  }

  lemma {:induction false} Walk(g: Graph, stuck: set<string>, s: string, n: nat) returns (p: seq<string>)
    requires s in stuck && SelfBlocked(g, stuck)
    ensures DepPath(g, p) && |p| == n + 1 && p[0] == s && forall x :: x in p ==> x in g
    decreases n
  {
    if n == 0 { return [s]; }
    OpenZero(g[s], stuck);
    var d :| d in g[s] && d in stuck;
    var rest := Walk(g, stuck, d, n - 1);
    p := [s] + rest;
    assert p[1..] == rest;
  }

  lemma {:induction false} SubPath(g: Graph, p: seq<string>, i: nat, j: nat)
    requires DepPath(g, p) && i < j <= |p|
    ensures DepPath(g, p[i..j])
    decreases |p|
  {
    if i > 0 {
      SubPath(g, p[1..], i - 1, j - 1);
      assert p[1..][i - 1..j - 1] == p[i..j];
    } else if j > 1 {
      SubPath(g, p[1..], 0, j - 1);
      assert p[1..][0..j - 1] == p[0..j][1..];
    }
  }

  /** A walk longer than the graph meets some node twice. */
  lemma Repeats(g: Graph, p: seq<string>) returns (i: nat, j: nat)
    requires |p| > |g.Keys| && forall x :: x in p ==> x in g
    ensures i < j < |p| && p[i] == p[j]
  {
    if NoDups(p) { NoDupsFits(p, g.Keys); }
    i, j :| 0 <= i < j < |p| && p[i] == p[j];
  }

  /** A path that meets a node twice ties its start to a cycle. */
  lemma LoopTangles(g: Graph, p: seq<string>, i: nat, j: nat)
    requires DepPath(g, p) && i < j < |p| && p[i] == p[j]
    ensures Tangled(g, p[0])
  {
    SubPath(g, p, i, j + 1);
    SubPath(g, p, 0, i + 1);
    hide DepPath;
    var loop, lead := p[i..j + 1], p[0..i + 1];
    assert DepPath(g, loop) && |loop| > 1 && loop[0] == p[i] && loop[|loop| - 1] == p[i];
    assert OnCycle(g, p[i]);
    assert DepPath(g, lead) && lead[0] == p[0] && lead[|lead| - 1] == p[i];
  }

  /** Nodes that each keep an unresolved dependency among themselves are all tangled. */
  lemma StuckIsTangled(g: Graph, stuck: set<string>, s: string)
    requires s in stuck && SelfBlocked(g, stuck)
    ensures Tangled(g, s)
  {
    hide DepPath, SelfBlocked, Tangled;
    var p := Walk(g, stuck, s, |g.Keys|);
    var i, j := Repeats(g, p);
    LoopTangles(g, p, i, j);
  }

  /** In this list every node comes after its dependencies. */
  ghost predicate DepsFirst(g: Graph, order: seq<string>) {
    && (forall i :: 0 <= i < |order| ==> order[i] in g)
    && forall i, d :: 0 <= i < |order| && d in g[order[i]] && d in g ==> d in order[..i]
  }

  /** Following dependencies from position `i` of such a list only ever leads to earlier positions. */
  lemma {:induction false} PathDescends(g: Graph, order: seq<string>, i: nat, p: seq<string>) returns (j: nat)
    requires DepsFirst(g, order) && i < |order| && DepPath(g, p) && p[0] == order[i]
    ensures j <= i && order[j] == p[|p| - 1] && (|p| > 1 ==> j < i)
  {
    if |p| == 1 { return i; }
    assert p[1] in order[..i];
    var k :| 0 <= k < i && order[k] == p[1];
    j := PathDescends(g, order, k, p[1..]);
  }

  lemma SortedNotTangled(g: Graph, order: seq<string>, s: string)
    requires DepsFirst(g, order) && NoDups(order) && s in order
    ensures !Tangled(g, s)
  {
    if Tangled(g, s) {
      var p :| DepPath(g, p) && p[0] == s && OnCycle(g, p[|p| - 1]);
      var i :| 0 <= i < |order| && order[i] == s;
      var j := PathDescends(g, order, i, p);
      var loop :| DepPath(g, loop) && |loop| > 1 && loop[0] == order[j] && loop[|loop| - 1] == order[j];
      var k := PathDescends(g, order, j, loop);
      assert false;
    }
  }
}
