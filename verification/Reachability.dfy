/** Reachability in a finite directed graph. */
module Reachability {

  /** The successors of each node. */
  type Graph<!Node(==)> = map<Node, set<Node>>

  function Successors<Node(==)>(g: Graph<Node>, s: set<Node>): set<Node> {
    set n, m | n in s && n in g && m in g[n] :: m
  }

  /** The nodes at most `k` edges away from a seed. */
  function Within<Node(==)>(g: Graph<Node>, seeds: set<Node>, k: nat): set<Node> {
    if k == 0 then seeds else Within(g, seeds, k - 1) + Successors(g, Within(g, seeds, k - 1))
  }

  ghost predicate Reaches<Node>(g: Graph<Node>, seeds: set<Node>, n: Node) {
    exists k: nat :: n in Within(g, seeds, k)
  }

  ghost predicate Closed<Node>(g: Graph<Node>, s: set<Node>) {
    forall n, m :: n in s && n in g && m in g[n] ==> m in s
  }

  lemma SeedReached<Node>(g: Graph<Node>, seeds: set<Node>, n: Node)
    requires n in seeds
    ensures Reaches(g, seeds, n)
  {
    assert n in Within(g, seeds, 0);
  }

  lemma EdgeReached<Node>(g: Graph<Node>, seeds: set<Node>, n: Node, m: Node)
    requires Reaches(g, seeds, n) && n in g && m in g[n]
    ensures Reaches(g, seeds, m)
  {
    var k: nat :| n in Within(g, seeds, k);
    assert m in Within(g, seeds, k + 1);
  }

  /** A closed set with the seeds has everything reachable. */
  lemma {:induction false} ClosedContains<Node>(g: Graph<Node>, seeds: set<Node>, s: set<Node>, k: nat)
    requires Closed(g, s) && seeds <= s
    ensures Within(g, seeds, k) <= s
  {
    if k > 0 { ClosedContains(g, seeds, s, k - 1); }
  }

  lemma ReachedInClosed<Node>(g: Graph<Node>, seeds: set<Node>, s: set<Node>, n: Node)
    requires Closed(g, s) && seeds <= s && Reaches(g, seeds, n)
    ensures n in s
  {
    var k: nat :| n in Within(g, seeds, k);
    ClosedContains(g, seeds, s, k);
  }
}
