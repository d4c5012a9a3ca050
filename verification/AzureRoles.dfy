/**
  Granting the reader role in an Azure tenant. The management groups and subscriptions form a directed graph; a
  depth-first search from every node of a topological order tries the role as high up as it can and passes success
  down to everything below.
 */
module AzureRoles {
  import opened Collections

  datatype Node = Group(name: string) | Subscription(id: string)

  /** A subscription with the names of its management groups, from the root to the group that holds it. */
  datatype Ancestry = Ancestry(subscription: string, chain: seq<string>) {
    /** The i-th edge counted from the subscription upwards. */
    function Link(i: nat): (Node, Node)
      requires i < |chain|
    {
      var leaf := |chain| - 1;
      (Group(chain[leaf - i]), if i == 0 then Subscription(subscription) else Group(chain[leaf - i + 1]))
    }

    /** The first `n` edges, and the nodes they touch. */
    function Links(n: nat): set<(Node, Node)>
      requires n <= |chain|
    {
      if n == 0 then {} else Links(n - 1) + {Link(n - 1)}
    }

    function Nodes(n: nat): set<Node>
      requires n <= |chain|
    {
      if n == 0 then {Subscription(subscription)} else Nodes(n - 1) + {Link(n - 1).0, Link(n - 1).1}
    }
  }

  type Successors = map<Node, seq<Node>>

  // ----- building the graph

  ghost predicate Represents(g: Successors, nodes: set<Node>, edges: set<(Node, Node)>) {
    && g.Keys == nodes
    && (forall p <- g :: Distinct(g[p]))
    && (forall p, c :: p in g && c in g[p] <==> (p, c) in edges)
    && (forall e <- edges :: e.0 in nodes && e.1 in nodes)
  }

  method AddNode(g: Successors, n: Node, ghost nodes: set<Node>, ghost edges: set<(Node, Node)>)
    returns (g': Successors)
    requires Represents(g, nodes, edges)
    ensures Represents(g', nodes + {n}, edges)
  {
    g' := if n in g then g else g[n := []];
  }

  method AddEdge(g: Successors, p: Node, c: Node, ghost nodes: set<Node>, ghost edges: set<(Node, Node)>)
    returns (g': Successors)
    requires Represents(g, nodes, edges)
    ensures Represents(g', nodes + {p, c}, edges + {(p, c)})
  {
    g' := AddNode(g, p, nodes, edges);
    g' := AddNode(g', c, nodes + {p}, edges);
    if c !in g'[p] {
      g' := g'[p := g'[p] + [c]];
    }
    assert nodes + {p} + {c} == nodes + {p, c};
  }

  function AllNodes(groups: seq<string>, subs: seq<Ancestry>): set<Node> {
    if subs != [] then
      var last := subs[|subs| - 1];
      AllNodes(groups, subs[..|subs| - 1]) + last.Nodes(|last.chain|)
    else if groups != [] then AllNodes(groups[..|groups| - 1], []) + {Group(groups[|groups| - 1])}
    else {}
  }

  function AllLinks(subs: seq<Ancestry>): set<(Node, Node)> {
    if subs == [] then {}
    else
      var last := subs[|subs| - 1];
      AllLinks(subs[..|subs| - 1]) + last.Links(|last.chain|)
  }

  method AddLink(g: Successors, sub: Ancestry, ancestors: seq<string>, i: nat, ghost nodes: set<Node>,
                 ghost edges: set<(Node, Node)>)
    returns (g': Successors)
    requires ancestors == Reversed(sub.chain) && i < |ancestors|
    requires Represents(g, nodes + sub.Nodes(i), edges + sub.Links(i))
    ensures Represents(g', nodes + sub.Nodes(i + 1), edges + sub.Links(i + 1))
  {
    g' := g;
    if i == 0 {
      g' := AddEdge(g', Group(ancestors[i]), Subscription(sub.subscription), nodes + sub.Nodes(i),
          edges + sub.Links(i));
    }
    if i > 0 {
      var prev := ancestors[i - 1];
      g' := AddEdge(g', Group(ancestors[i]), Group(prev), nodes + sub.Nodes(i), edges + sub.Links(i));
    }
    OneLink(sub, ancestors, i, nodes, edges);
  }

  lemma OneLink(sub: Ancestry, ancestors: seq<string>, i: nat, nodes: set<Node>, edges: set<(Node, Node)>)
    requires ancestors == Reversed(sub.chain) && i < |ancestors|
    ensures var p, c := Group(ancestors[i]), if i == 0 then Subscription(sub.subscription) else Group(ancestors[i - 1]);
            && nodes + sub.Nodes(i + 1) == nodes + sub.Nodes(i) + {p, c}
            && edges + sub.Links(i + 1) == edges + sub.Links(i) + {(p, c)}
  {
  }

  method AddSubscription(g: Successors, sub: Ancestry, ghost nodes: set<Node>, ghost edges: set<(Node, Node)>)
    returns (g': Successors)
    requires Represents(g, nodes, edges)
    ensures Represents(g', nodes + sub.Nodes(|sub.chain|), edges + sub.Links(|sub.chain|))
  {
    g' := AddNode(g, Subscription(sub.subscription), nodes, edges);
    var ancestors := Reversed(sub.chain);
    assert edges + sub.Links(0) == edges;
    for i := 0 to |ancestors|
      invariant Represents(g', nodes + sub.Nodes(i), edges + sub.Links(i))
    {
      g' := AddLink(g', sub, ancestors, i, nodes, edges);
    }
  }

  /** One node per group and subscription, one edge per step of an ancestor chain, and no edge twice. */
  method BuildGraph(groups: seq<string>, subs: seq<Ancestry>) returns (g: Successors)
    ensures Represents(g, AllNodes(groups, subs), AllLinks(subs))
  {
    g := map[];
    for k := 0 to |groups|
      invariant Represents(g, AllNodes(groups[..k], []), {})
    {
      g := AddNode(g, Group(groups[k]), AllNodes(groups[..k], []), {});
      assert groups[..k + 1][..k] == groups[..k];
    }
    assert groups[..|groups|] == groups;
    for k := 0 to |subs|
      invariant Represents(g, AllNodes(groups, subs[..k]), AllLinks(subs[..k]))
    {
      g := AddSubscription(g, subs[k], AllNodes(groups, subs[..k]), AllLinks(subs[..k]));
      assert subs[..k + 1][..k] == subs[..k];
    }
    assert subs[..|subs|] == subs;
  }

  /** What the two recursive unions stand for. */
  lemma {:induction false} LinksOfChains(subs: seq<Ancestry>, e: (Node, Node))
    ensures e in AllLinks(subs) <==> exists k, i :: 0 <= k < |subs| && 0 <= i < |subs[k].chain| && e == subs[k].Link(i)
  {
    if subs != [] {
      var front, last := subs[..|subs| - 1], subs[|subs| - 1];
      LinksOfChains(front, e);
      LinksUpTo(last, |last.chain|, e);
      if k, i :| 0 <= k < |subs| && 0 <= i < |subs[k].chain| && e == subs[k].Link(i) {
        assert k < |front| ==> front[k] == subs[k];
      }
      if k, i :| 0 <= k < |front| && 0 <= i < |front[k].chain| && e == front[k].Link(i) {
        assert subs[k] == front[k];
      }
    }
  }

  lemma {:induction false} LinksUpTo(sub: Ancestry, n: nat, e: (Node, Node))
    requires n <= |sub.chain|
    ensures e in sub.Links(n) <==> exists i :: 0 <= i < n && e == sub.Link(i)
  {
    if n > 0 {
      LinksUpTo(sub, n - 1, e);
    }
  }

  function Reversed(s: seq<string>): (r: seq<string>)
    ensures |r| == |s| && forall i :: 0 <= i < |s| ==> r[i] == s[|s| - 1 - i]
  {
    seq(|s|, i requires 0 <= i < |s| => s[|s| - 1 - i])
  }

  // ----- forests

  /** A graph with a topological order of its nodes. */
  datatype Hierarchy = Hierarchy(successors: Successors, order: seq<Node>) {

    ghost predicate Valid() {
      && Distinct(order)
      && Elements(order) == successors.Keys
      && (forall p <- successors :: Distinct(successors[p]))
      && (forall p, c :: p in successors && c in successors[p] ==> c in successors && Position(p) < Position(c))
    }

    ghost predicate Forest() {
      forall p, q, c :: p in successors && q in successors && c in successors[p] && c in successors[q] ==> p == q
    }

    ghost function Position(n: Node): nat {
      PositionIn(n, order)
    }

    ghost predicate Parent(p: Node, c: Node) {
      p in successors && c in successors[p]
    }

    /** `a` is `b` or an ancestor of it. */
    ghost predicate Above(a: Node, b: Node)
      requires Valid()
      decreases Position(b)
    {
      a == b || exists p :: Parent(p, b) && Above(a, p)
    }

    ghost function Below(n: Node): set<Node>
      requires Valid()
    {
      set m | m in successors && Above(n, m)
    }
  }

  ghost function PositionIn(n: Node, order: seq<Node>): nat {
    if order == [] || order[0] == n then 0 else 1 + PositionIn(n, order[1..])
  }

  lemma {:induction false} PositionAt(order: seq<Node>, i: nat)
    requires Distinct(order) && i < |order|
    ensures PositionIn(order[i], order) == i
  {
    if i > 0 {
      assert order[1..][i - 1] == order[i];
      PositionAt(order[1..], i - 1);
    }
  }

  /** Chains that agree on who holds whom give a forest. */
  lemma ConsistentChainsGiveForest(h: Hierarchy, subs: seq<Ancestry>, up: map<Node, Node>)
    requires forall p, c :: p in h.successors && c in h.successors[p] ==> (p, c) in AllLinks(subs)
    requires forall k, i :: 0 <= k < |subs| && 0 <= i < |subs[k].chain| ==>
               var link := subs[k].Link(i); link.1 in up && up[link.1] == link.0
    ensures h.Forest()
  {
    forall p, q, c | p in h.successors && q in h.successors && c in h.successors[p] && c in h.successors[q]
        ensures p == q {
      LinksOfChains(subs, (p, c));
      LinksOfChains(subs, (q, c));
    }
  }

  lemma {:induction false} AboveIsBefore(h: Hierarchy, a: Node, b: Node)
    requires h.Valid() && h.Above(a, b)
    ensures a != b ==> h.Position(a) < h.Position(b)
    ensures b in h.successors ==> a in h.successors
    decreases h.Position(b)
  {
    if a != b {
      var p :| h.Parent(p, b) && h.Above(a, p);
      AboveIsBefore(h, a, p);
    }
  }

  lemma {:induction false} AboveTransitive(h: Hierarchy, a: Node, b: Node, c: Node)
    requires h.Valid() && h.Above(a, b) && h.Above(b, c)
    ensures h.Above(a, c)
    decreases h.Position(c)
  {
    if b != c {
      var p :| h.Parent(p, c) && h.Above(b, p);
      AboveTransitive(h, a, b, p);
    }
  }

  /** In a forest the ancestors of a node form a chain. */
  lemma {:induction false} AncestorsFormAChain(h: Hierarchy, a: Node, b: Node, m: Node)
    requires h.Valid() && h.Forest() && h.Above(a, m) && h.Above(b, m)
    ensures h.Above(a, b) || h.Above(b, a)
    decreases h.Position(m)
  {
    if a != m && b != m {
      var p :| h.Parent(p, m) && h.Above(a, p);
      var q :| h.Parent(q, m) && h.Above(b, q);
      assert p == q;
      AncestorsFormAChain(h, a, b, p);
    }
  }

  /** Downwards, `n` reaches itself and what its successors reach. */
  lemma {:induction false} BelowThroughAChild(h: Hierarchy, n: Node, m: Node)
    requires h.Valid() && h.Above(n, m) && n != m
    ensures exists c :: h.Parent(n, c) && h.Above(c, m)
    decreases h.Position(m)
  {
    var p :| h.Parent(p, m) && h.Above(n, p);
    if p == n {
      assert h.Parent(n, m) && h.Above(m, m);
    } else {
      BelowThroughAChild(h, n, p);
      var c :| h.Parent(n, c) && h.Above(c, p);
      assert h.Above(c, m);
    }
  }

  lemma ChildIsBelow(h: Hierarchy, n: Node, c: Node)
    requires h.Valid() && h.Parent(n, c)
    ensures h.Above(n, c)
  {
    assert h.Above(n, n);
  }

  /** Different successors of a node have nothing below them in common, and neither has the node below it. */
  lemma SiblingsAreApart(h: Hierarchy, n: Node, c: Node, d: Node)
    requires h.Valid() && h.Forest() && h.Parent(n, c) && h.Parent(n, d) && c != d
    ensures h.Below(c) !! h.Below(d)
  {
    forall m | m in h.Below(c) && m in h.Below(d) ensures false {
      AncestorsFormAChain(h, c, d, m);
      if h.Above(c, d) {
        NotAboveASibling(h, n, c, d);
      } else {
        NotAboveASibling(h, n, d, c);
      }
    }
  }

  lemma NotAboveASibling(h: Hierarchy, n: Node, c: Node, d: Node)
    requires h.Valid() && h.Forest() && h.Parent(n, c) && h.Parent(n, d) && c != d
    ensures !h.Above(c, d)
  {
    if h.Above(c, d) {
      var p :| h.Parent(p, d) && h.Above(c, p);
      assert p == n;
      AboveIsBefore(h, c, n);
    }
  }

  // ----- the search

  /** Where a search that starts at `n` with no role yet tries the role: below `n`, with no acceptance on the way. */
  ghost function Tried(h: Hierarchy, accepts: set<Node>, n: Node): set<Node>
    requires h.Valid()
  {
    set m | m in h.Below(n) && forall a :: h.Above(n, a) && h.Above(a, m) && a != m ==> a !in accepts
  }

  lemma TriedThroughAChild(h: Hierarchy, accepts: set<Node>, n: Node, c: Node, m: Node)
    requires h.Valid() && h.Forest() && h.Parent(n, c) && m in h.Below(c)
    ensures m in h.Below(n) && m != n
    ensures m in Tried(h, accepts, n) <==> n !in accepts && m in Tried(h, accepts, c)
  {
    ChildIsBelow(h, n, c);
    AboveTransitive(h, n, c, m);
    AboveIsBefore(h, c, m);
    forall a | h.Above(c, a) ensures h.Above(n, a) {
      AboveTransitive(h, n, c, a);
    }
    forall a | h.Above(n, a) && h.Above(a, m) && a != n ensures h.Above(c, a) {
      AncestorsFormAChain(h, c, a, m);
      if h.Above(a, c) && a != c {
        var p :| h.Parent(p, c) && h.Above(a, p);
        assert p == n;
        AboveIsBefore(h, a, n);
        AboveIsBefore(h, n, a);
      }
    }
  }

  /** What the first `i` successors of `n` lead to, and where searches from them try the role. */
  ghost function BelowFirst(h: Hierarchy, n: Node, i: nat): set<Node>
    requires h.Valid() && n in h.successors && i <= |h.successors[n]|
  {
    if i == 0 then {} else BelowFirst(h, n, i - 1) + h.Below(h.successors[n][i - 1])
  }

  ghost function TriedFirst(h: Hierarchy, accepts: set<Node>, n: Node, i: nat): set<Node>
    requires h.Valid() && n in h.successors && i <= |h.successors[n]|
  {
    if i == 0 then {} else TriedFirst(h, accepts, n, i - 1) + Tried(h, accepts, h.successors[n][i - 1])
  }

  lemma OneSuccessor(h: Hierarchy, accepts: set<Node>, n: Node, c: Node)
    requires h.Valid() && h.Forest() && h.Parent(n, c)
    ensures h.Below(c) <= h.Below(n) - {n}
    ensures n !in accepts ==> Tried(h, accepts, n) * h.Below(c) == Tried(h, accepts, c)
    ensures n in accepts ==> Tried(h, accepts, n) !! h.Below(c)
  {
    forall m | m in h.Below(c)
      ensures m in h.Below(n) && m != n && (m in Tried(h, accepts, n) <==> n !in accepts && m in Tried(h, accepts, c))
    {
      TriedThroughAChild(h, accepts, n, c, m);
    }
  }

  lemma {:induction false} FirstSuccessors(h: Hierarchy, accepts: set<Node>, n: Node, i: nat)
    requires h.Valid() && h.Forest() && n in h.successors && i <= |h.successors[n]|
    ensures BelowFirst(h, n, i) <= h.Below(n) - {n}
    ensures n !in accepts ==> TriedFirst(h, accepts, n, i) == Tried(h, accepts, n) * BelowFirst(h, n, i)
    ensures n in accepts ==> Tried(h, accepts, n) !! BelowFirst(h, n, i)
  {
    if i > 0 {
      assert h.Parent(n, h.successors[n][i - 1]);
      FirstSuccessors(h, accepts, n, i - 1);
      OneSuccessor(h, accepts, n, h.successors[n][i - 1]);
    }
  }

  lemma {:induction false} LaterSuccessorIsApart(h: Hierarchy, n: Node, i: nat, j: nat)
    requires h.Valid() && h.Forest() && n in h.successors && i <= j < |h.successors[n]|
    ensures h.Below(h.successors[n][j]) !! BelowFirst(h, n, i)
  {
    if i > 0 {
      LaterSuccessorIsApart(h, n, i - 1, j);
      assert h.Parent(n, h.successors[n][i - 1]) && h.Parent(n, h.successors[n][j]);
      SiblingsAreApart(h, n, h.successors[n][i - 1], h.successors[n][j]);
    }
  }

  lemma {:induction false} NextSuccessor(h: Hierarchy, accepts: set<Node>, n: Node, i: nat)
    requires h.Valid() && h.Forest() && n in h.successors && i < |h.successors[n]|
    ensures var c := h.successors[n][i];
            && c in h.successors
            && h.Below(c) <= h.Below(n) - {n}
            && h.Below(c) !! BelowFirst(h, n, i)
            && c in h.Below(c)
  {
    assert h.Parent(n, h.successors[n][i]);
    LaterSuccessorIsApart(h, n, i, i);
    OneSuccessor(h, accepts, n, h.successors[n][i]);
  }

  lemma {:induction false} InBelowFirst(h: Hierarchy, n: Node, i: nat, m: Node, k: nat)
    requires h.Valid() && n in h.successors && k < i <= |h.successors[n]|
    requires m in h.Below(h.successors[n][k])
    ensures m in BelowFirst(h, n, i)
  {
    if k < i - 1 {
      InBelowFirst(h, n, i - 1, m, k);
    }
  }

  lemma {:induction false} AllSuccessors(h: Hierarchy, accepts: set<Node>, n: Node)
    requires h.Valid() && h.Forest() && n in h.successors
    ensures h.Below(n) == {n} + BelowFirst(h, n, |h.successors[n]|)
    ensures Tried(h, accepts, n) == {n} + if n in accepts then {} else TriedFirst(h, accepts, n, |h.successors[n]|)
  {
    var all := |h.successors[n]|;
    forall m | m in h.Below(n) && m != n ensures m in BelowFirst(h, n, all) {
      BelowThroughAChild(h, n, m);
      var c :| h.Parent(n, c) && h.Above(c, m);
      var k :| 0 <= k < all && h.successors[n][k] == c;
      InBelowFirst(h, n, all, m, k);
    }
    forall a | h.Above(n, a) && h.Above(a, n) && a != n ensures false {
      AboveIsBefore(h, n, a);
      AboveIsBefore(h, a, n);
    }
    FirstSuccessors(h, accepts, n, all);
    assert n in h.Below(n) && n in Tried(h, accepts, n);
  }

  /** The search of one service principal: `accepts` is the set of scopes on which Azure would create the role. */
  class RoleAssignment {
    ghost const h: Hierarchy
    const successors: Successors
    const accepts: set<Node>
    var visited: set<Node>
    var attempted: seq<Node>

    ghost predicate Valid()
      reads this
    {
      && successors == h.successors
      && Distinct(attempted)
      && Elements(attempted) <= visited <= successors.Keys
    }

    constructor (successors: Successors, accepts: set<Node>, ghost order: seq<Node>)
      requires Hierarchy(successors, order).Valid() && Hierarchy(successors, order).Forest()
      ensures Valid() && h == Hierarchy(successors, order) && this.accepts == accepts
      ensures visited == {} && attempted == []
    {
      this.h, this.successors, this.accepts := Hierarchy(successors, order), successors, accepts;
      visited, attempted := {}, [];
    }

    method CreateRoleAssignment(node: Node) returns (created: bool)
      modifies this`attempted
      ensures attempted == old(attempted) + [node] && created == (node in accepts)
    {
      attempted := attempted + [node];
      created := node in accepts;
    }

    method AssignRoleDfs(node: Node, alreadyAssigned: bool)
      requires h.Valid() && h.Forest() && Valid() && node in successors
      requires node in visited || h.Below(node) !! visited
      modifies this
      ensures Valid()
      ensures visited == old(visited) + if node in old(visited) then {} else h.Below(node)
      ensures Elements(attempted)
           == Elements(old(attempted)) + if node in old(visited) || alreadyAssigned then {} else Tried(h, accepts, node)
      decreases successors.Keys - visited, 0
    {
      if node in visited {
        return;
      }
      visited := visited + {node};
      var granted := alreadyAssigned;
      if !alreadyAssigned {
        granted := CreateRoleAssignment(node);
      }
      AllSuccessors(h, accepts, node);
      AssignSuccessors(node, granted);
    }

    /** One turn of the loop below, for the i-th successor. */
    method AssignSuccessor(node: Node, i: nat, granted: bool,
                           ghost visitedBefore: set<Node>, ghost attemptedBefore: seq<Node>)
      requires h.Valid() && h.Forest() && Valid() && node in successors && i < |successors[node]|
      requires h.Below(node) - {node} !! visitedBefore
      requires visited == visitedBefore + BelowFirst(h, node, i)
      requires Elements(attempted)
            == Elements(attemptedBefore) + if granted then {} else TriedFirst(h, accepts, node, i)
      modifies this
      ensures Valid()
      ensures visited == visitedBefore + BelowFirst(h, node, i + 1)
      ensures Elements(attempted)
           == Elements(attemptedBefore) + if granted then {} else TriedFirst(h, accepts, node, i + 1)
      decreases successors.Keys - visited, 1
    {
      NextSuccessor(h, accepts, node, i);
      AssignRoleDfs(successors[node][i], granted);
    }

    /** The loop of the search over the successors of a node that was just visited. */
    method AssignSuccessors(node: Node, granted: bool)
      requires h.Valid() && h.Forest() && Valid() && node in successors && node in visited
      requires h.Below(node) - {node} !! visited
      modifies this
      ensures Valid()
      ensures visited == old(visited) + BelowFirst(h, node, |successors[node]|)
      ensures Elements(attempted)
           == Elements(old(attempted)) + if granted then {} else TriedFirst(h, accepts, node, |successors[node]|)
      decreases successors.Keys - visited, 2
    {
      var children := successors[node];
      for i := 0 to |children|
        invariant Valid()
        invariant visited == old(visited) + BelowFirst(h, node, i)
        invariant Elements(attempted)
               == Elements(old(attempted)) + if granted then {} else TriedFirst(h, accepts, node, i)
      {
        AssignSuccessor(node, i, granted, old(visited), old(attempted));
      }
    }

    /** The outer loop over a topological order: it starts a search at each root, and everything else was visited by
        then. */
    method AssignAll(topologicalOrder: seq<Node>)
      requires h.Valid() && h.Forest() && Valid() && visited == {} && attempted == [] && topologicalOrder == h.order
      modifies this
      ensures Valid()
      ensures visited == successors.Keys
      ensures Elements(attempted) == Attempts(h, accepts)
    {
      for i := 0 to |topologicalOrder|
        invariant Valid()
        invariant visited == BelowPrefix(h, i)
        invariant Elements(attempted) == Attempts(h, accepts) * visited
      {
        PrefixStep(h, accepts, i);
        AssignRoleDfs(topologicalOrder[i], false);
      }
      WholePrefix(h);
    }
  }

  /** The scopes on which the role is tried: those without an accepting ancestor. */
  ghost function Attempts(h: Hierarchy, accepts: set<Node>): set<Node>
    requires h.Valid()
  {
    set m | m in h.successors && forall a :: h.Above(a, m) && a != m ==> a !in accepts
  }

  ghost function BelowPrefix(h: Hierarchy, i: nat): set<Node>
    requires h.Valid() && i <= |h.order|
  {
    if i == 0 then {} else BelowPrefix(h, i - 1) + h.Below(h.order[i - 1])
  }

  lemma {:induction false} InBelowPrefix(h: Hierarchy, i: nat, m: Node)
    requires h.Valid() && i <= |h.order|
    ensures m in BelowPrefix(h, i) <==> exists k :: 0 <= k < i && m in h.Below(h.order[k])
  {
    if i > 0 {
      InBelowPrefix(h, i - 1, m);
    }
  }

  /** An unvisited node of the order is a root, so nothing below it was visited and nothing above it can accept. */
  lemma PrefixStep(h: Hierarchy, accepts: set<Node>, i: nat)
    requires h.Valid() && h.Forest() && i < |h.order|
    ensures h.order[i] in h.successors
    ensures h.order[i] in BelowPrefix(h, i) ==> BelowPrefix(h, i + 1) == BelowPrefix(h, i)
    ensures h.order[i] !in BelowPrefix(h, i) ==>
              h.Below(h.order[i]) !! BelowPrefix(h, i) &&
                  Tried(h, accepts, h.order[i]) == Attempts(h, accepts) * h.Below(h.order[i])
  {
    var n := h.order[i];
    assert n in Elements(h.order);
    InBelowPrefix(h, i, n);
    if n in BelowPrefix(h, i) {
      var k :| 0 <= k < i && n in h.Below(h.order[k]);
      forall m | m in h.Below(n) ensures m in BelowPrefix(h, i) {
        AboveTransitive(h, h.order[k], n, m);
        InBelowPrefix(h, i, m);
      }
    } else {
      UnvisitedIsRoot(h, i);
      forall m | m in h.Below(n) ensures m !in BelowPrefix(h, i) {
        InBelowPrefix(h, i, m);
        if k :| 0 <= k < i && m in h.Below(h.order[k]) {
          AncestorsFormAChain(h, h.order[k], n, m);
          assert h.Above(n, h.order[k]);
          AboveIsBefore(h, n, h.order[k]);
          PositionAt(h.order, i);
          PositionAt(h.order, k);
        }
      }
      forall m | m in h.Below(n) ensures m in Tried(h, accepts, n) <==> m in Attempts(h, accepts) {
        forall a | h.Above(a, m) ensures h.Above(n, a) {
          AncestorsFormAChain(h, n, a, m);
        }
      }
    }
  }

  lemma UnvisitedIsRoot(h: Hierarchy, i: nat)
    requires h.Valid() && i < |h.order| && h.order[i] !in BelowPrefix(h, i)
    ensures forall a :: h.Above(a, h.order[i]) ==> a == h.order[i]
  {
    var n := h.order[i];
    forall a | h.Above(a, n) && a != n ensures false {
      assert n in Elements(h.order);
      AboveIsBefore(h, a, n);
      assert a in Elements(h.order);
      var k :| 0 <= k < |h.order| && h.order[k] == a;
      PositionAt(h.order, k);
      PositionAt(h.order, i);
      InBelowPrefix(h, i, n);
    }
  }

  lemma WholePrefix(h: Hierarchy)
    requires h.Valid()
    ensures BelowPrefix(h, |h.order|) == h.successors.Keys
  {
    forall n | n in h.successors ensures n in BelowPrefix(h, |h.order|) {
      assert n in Elements(h.order);
      var k :| 0 <= k < |h.order| && h.order[k] == n;
      assert h.Above(n, n);
      InBelowPrefix(h, |h.order|, n);
    }
    forall n | n in BelowPrefix(h, |h.order|) ensures n in h.successors {
      InBelowPrefix(h, |h.order|, n);
    }
  }

  // ----- what the attempts add up to

  /** The topmost accepting scope on the way up from `m`. */
  lemma {:induction false} TopmostAccepting(h: Hierarchy, accepts: set<Node>, m: Node) returns (top: Node)
    requires h.Valid() && m in h.successors && m in accepts
    ensures h.Above(top, m) && top in accepts && top in Attempts(h, accepts)
    decreases h.Position(m)
  {
    if a :| h.Above(a, m) && a != m && a in accepts {
      AboveIsBefore(h, a, m);
      top := TopmostAccepting(h, accepts, a);
      AboveTransitive(h, top, a, m);
    } else {
      top := m;
    }
  }

  /** The role is tried on a scope exactly when no proper ancestor got it; no two scopes that got it are above one
      another; and a scope is covered, itself or from above, exactly when it or an ancestor would accept the role. */
  lemma CoverageIsMaximalAndMinimal(h: Hierarchy, accepts: set<Node>, granted: set<Node>)
    requires h.Valid() && granted == Attempts(h, accepts) * accepts
    ensures forall m <- h.successors :: m in Attempts(h, accepts) <==>
        !exists a :: h.Above(a, m) && a != m && a in granted
    ensures forall a, b :: a in granted && b in granted && h.Above(a, b) ==> a == b
    ensures forall m <- h.successors ::
              (exists a :: h.Above(a, m) && a in granted) <==> (exists a :: h.Above(a, m) && a in accepts)
  {
    forall a, m | m in h.successors && h.Above(a, m) && a in accepts
      ensures exists top :: h.Above(top, a) && h.Above(top, m) && top in granted
    {
      AboveIsBefore(h, a, m);
      var top := TopmostAccepting(h, accepts, a);
      AboveTransitive(h, top, a, m);
    }
    forall m | m in h.successors
      ensures m in Attempts(h, accepts) <==> !exists a :: h.Above(a, m) && a != m && a in granted
    {
      if a :| h.Above(a, m) && a != m && a in accepts {
        var top :| h.Above(top, a) && h.Above(top, m) && top in granted;
        if top == m {
          AboveIsBefore(h, m, a);
          AboveIsBefore(h, a, m);
        }
      }
    }
  }

  // ----- the whole grant, in terms of the chains

  /** The chain of a subscription is complete: each step is the one and only parent, and its first group has none. */
  ghost predicate Complete(sub: Ancestry, up: map<Node, Node>) {
    && (forall i :: 0 <= i < |sub.chain| ==> var link := sub.Link(i); link.1 in up && up[link.1] == link.0)
    && ChainNode(sub, |sub.chain|) !in up
  }

  /** The node of the chain that is `i` steps above the subscription. */
  function ChainNode(sub: Ancestry, i: nat): Node
    requires i <= |sub.chain|
  {
    if i == 0 then Subscription(sub.subscription) else Group(sub.chain[|sub.chain| - i])
  }

  ghost predicate IsTopological(order: seq<Node>, nodes: set<Node>, links: set<(Node, Node)>) {
    && Distinct(order) && Elements(order) == nodes
    && forall e <- links :: PositionIn(e.0, order) < PositionIn(e.1, order)
  }

  /** The subscription or a group of its chain is in the set. */
  ghost predicate Reaches(scopes: set<Node>, sub: Ancestry) {
    exists i :: 0 <= i <= |sub.chain| && ChainNode(sub, i) in scopes
  }

  ghost predicate Holds(h: Hierarchy, subs: seq<Ancestry>, up: map<Node, Node>) {
    && h.Valid()
    && (forall p, c :: h.Parent(p, c) <==> (p, c) in AllLinks(subs))
    && forall k :: 0 <= k < |subs| ==> Complete(subs[k], up)
  }

  lemma ParentIsUp(h: Hierarchy, subs: seq<Ancestry>, up: map<Node, Node>, p: Node, c: Node)
    requires Holds(h, subs, up) && h.Parent(p, c)
    ensures c in up && up[c] == p
  {
    LinksOfChains(subs, (p, c));
    var k, i :| 0 <= k < |subs| && 0 <= i < |subs[k].chain| && (p, c) == subs[k].Link(i);
    assert Complete(subs[k], up);
  }

  /** What is above a node of a chain is the rest of the chain. */
  lemma {:induction false} AboveIsTheChain(h: Hierarchy, subs: seq<Ancestry>, up: map<Node, Node>, k: nat, i: nat,
                                           a: Node)
    requires Holds(h, subs, up) && k < |subs| && i <= |subs[k].chain|
    ensures h.Above(a, ChainNode(subs[k], i)) <==> exists j :: i <= j <= |subs[k].chain| && a == ChainNode(subs[k], j)
    decreases |subs[k].chain| - i
  {
    var sub := subs[k];
    var n := ChainNode(sub, i);
    assert Complete(sub, up);
    if i == |sub.chain| {
      forall p | h.Parent(p, n) ensures false {
        ParentIsUp(h, subs, up, p, n);
      }
    } else {
      var next := ChainNode(sub, i + 1);
      assert sub.Link(i) == (next, n);
      LinksOfChains(subs, (next, n));
      assert h.Parent(next, n);
      forall p | h.Parent(p, n) ensures p == next {
        ParentIsUp(h, subs, up, p, n);
      }
      AboveIsTheChain(h, subs, up, k, i + 1, a);
      assert h.Above(a, n) <==> a == n || h.Above(a, next);
    }
  }

  lemma {:induction false} CoveredByTheChain(h: Hierarchy, subs: seq<Ancestry>, up: map<Node, Node>, k: nat,
                                             scopes: set<Node>)
    requires Holds(h, subs, up) && k < |subs|
    ensures Reaches(scopes, subs[k])
       <==> exists a :: h.Above(a, Subscription(subs[k].subscription)) && a in scopes
  {
    var sub := subs[k];
    if j :| 0 <= j <= |sub.chain| && ChainNode(sub, j) in scopes {
      AboveIsTheChain(h, subs, up, k, 0, ChainNode(sub, j));
      assert h.Above(ChainNode(sub, j), ChainNode(sub, 0));
    }
    if a :| h.Above(a, ChainNode(sub, 0)) && a in scopes {
      AboveIsTheChain(h, subs, up, k, 0, a);
      var j :| 0 <= j <= |sub.chain| && a == ChainNode(sub, j);
      assert ChainNode(sub, j) in scopes;
    }
  }

  /** A group, or a node of some chain. */
  ghost predicate IsNode(groups: seq<string>, subs: seq<Ancestry>, n: Node) {
    (n.Group? && n.name in groups) || exists k, i :: OnChain(subs, k, i, n)
  }

  ghost predicate OnChain(subs: seq<Ancestry>, k: int, i: int, n: Node) {
    0 <= k < |subs| && 0 <= i <= |subs[k].chain| && n == ChainNode(subs[k], i)
  }

  /** The nodes of the graph are the groups and whatever is on a chain. */
  lemma {:induction false} NodesExactly(groups: seq<string>, subs: seq<Ancestry>, n: Node)
    ensures n in AllNodes(groups, subs) <==> IsNode(groups, subs, n)
  {
    if subs != [] {
      var front, last := subs[..|subs| - 1], |subs| - 1;
      NodesExactly(groups, front, n);
      NodesUpTo(subs[last], |subs[last].chain|, n);
      forall k, i | k < last ensures OnChain(front, k, i, n) <==> OnChain(subs, k, i, n) {}
      if i :| 0 <= i <= |subs[last].chain| && n == ChainNode(subs[last], i) {
        assert OnChain(subs, last, i, n);
      }
      if k, i :| OnChain(subs, k, i, n) {
        assert k < last ==> OnChain(front, k, i, n);
      }
      if k, i :| OnChain(front, k, i, n) {
        assert OnChain(subs, k, i, n);
      }
    } else if groups != [] {
      NodesExactly(groups[..|groups| - 1], subs, n);
      assert groups == groups[..|groups| - 1] + [groups[|groups| - 1]];
    }
  }

  lemma {:induction false} NodesUpTo(sub: Ancestry, m: nat, n: Node)
    requires m <= |sub.chain|
    ensures n in sub.Nodes(m) <==> exists i :: 0 <= i <= m && n == ChainNode(sub, i)
  {
    if m == 0 {
      assert n == Subscription(sub.subscription) ==> n == ChainNode(sub, 0);
    } else {
      NodesUpTo(sub, m - 1, n);
      assert sub.Link(m - 1) == (ChainNode(sub, m), ChainNode(sub, m - 1));
    }
  }

  /** Some node further up on a chain of `n` accepts the role. */
  ghost predicate AcceptedAbove(subs: seq<Ancestry>, accepts: set<Node>, n: Node) {
    exists k, i, j :: OnChain(subs, k, i, n) && i < j <= |subs[k].chain| && ChainNode(subs[k], j) in accepts
  }

  /** The scopes that are tried, in terms of the chains. */
  lemma {:induction false} TriedExactly(h: Hierarchy, groups: seq<string>, subs: seq<Ancestry>, up: map<Node, Node>,
                                        accepts: set<Node>, n: Node)
    requires Holds(h, subs, up) && h.successors.Keys == AllNodes(groups, subs)
    ensures n in Attempts(h, accepts) <==> IsNode(groups, subs, n) && !AcceptedAbove(subs, accepts, n)
  {
    NodesExactly(groups, subs, n);
    if k, i, j :| OnChain(subs, k, i, n) && i < j <= |subs[k].chain| && ChainNode(subs[k], j) in accepts {
      NotBelowAGrant(h, subs, up, k, i, j, accepts);
    }
    if a :| h.Above(a, n) && a != n && a in accepts {
      AboveOnAChain(h, subs, up, a, n, accepts);
    }
  }

  lemma {:induction false} AboveOnAChain(h: Hierarchy, subs: seq<Ancestry>, up: map<Node, Node>, a: Node, n: Node,
                                         accepts: set<Node>)
    requires Holds(h, subs, up) && h.Above(a, n) && a != n && a in accepts
    ensures AcceptedAbove(subs, accepts, n)
  {
    var p :| h.Parent(p, n);
    LinksOfChains(subs, (p, n));
    var k, i :| 0 <= k < |subs| && 0 <= i < |subs[k].chain| && (p, n) == subs[k].Link(i);
    assert OnChain(subs, k, i, n);
    AboveIsTheChain(h, subs, up, k, i, a);
    var j :| i <= j <= |subs[k].chain| && a == ChainNode(subs[k], j);
    assert i < j && ChainNode(subs[k], j) in accepts;
  }

  lemma {:induction false} SubscriptionsAreNodes(groups: seq<string>, subs: seq<Ancestry>, k: nat)
    requires k < |subs|
    ensures Subscription(subs[k].subscription) in AllNodes(groups, subs)
  {
    if k == |subs| - 1 {
      SubscriptionIsANode(subs[k], |subs[k].chain|);
    } else {
      SubscriptionsAreNodes(groups, subs[..|subs| - 1], k);
    }
  }

  lemma {:induction false} SubscriptionIsANode(sub: Ancestry, n: nat)
    requires n <= |sub.chain|
    ensures Subscription(sub.subscription) in sub.Nodes(n)
  {
    if n > 0 {
      SubscriptionIsANode(sub, n - 1);
    }
  }

  lemma GraphIsHierarchy(g: Successors, order: seq<Node>, groups: seq<string>, subs: seq<Ancestry>, up: map<Node, Node>)
    requires Represents(g, AllNodes(groups, subs), AllLinks(subs))
    requires IsTopological(order, AllNodes(groups, subs), AllLinks(subs))
    requires forall k :: 0 <= k < |subs| ==> Complete(subs[k], up)
    ensures Holds(Hierarchy(g, order), subs, up) && Hierarchy(g, order).Forest()
  {
    var h := Hierarchy(g, order);
    forall p, c | p in g && c in g[p] ensures c in g && h.Position(p) < h.Position(c) {
      assert (p, c) in AllLinks(subs);
    }
    forall p, c ensures h.Parent(p, c) <==> (p, c) in AllLinks(subs) {
      assert (p, c) in AllLinks(subs) ==> p in AllNodes(groups, subs);
    }
    forall p, q, c | p in g && q in g && c in g[p] && c in g[q] ensures p == q {
      ParentIsUp(h, subs, up, p, c);
      ParentIsUp(h, subs, up, q, c);
    }
  }

  /** Building the graph and searching it from a topological order: a subscription gets the role, itself or through a
      group of its chain, if and only if it or a group of its chain accepts it. No scope is tried twice, none below
      one that accepted, and every other one is. */
  method GrantReaderRole(groups: seq<string>, subs: seq<Ancestry>, order: seq<Node>, accepts: set<Node>,
                         ghost up: map<Node, Node>)
    returns (attempted: seq<Node>, granted: set<Node>)
    requires forall k :: 0 <= k < |subs| ==> Complete(subs[k], up)
    requires IsTopological(order, AllNodes(groups, subs), AllLinks(subs))
    ensures Distinct(attempted) && granted == Elements(attempted) * accepts
    ensures forall k :: 0 <= k < |subs| ==> (Reaches(granted, subs[k]) <==> Reaches(accepts, subs[k]))
    ensures forall k, i, j :: 0 <= k < |subs| && 0 <= i < j <= |subs[k].chain| && ChainNode(subs[k], j) in granted ==>
              ChainNode(subs[k], i) !in attempted
    ensures forall n :: n in attempted <==> IsNode(groups, subs, n) && !AcceptedAbove(subs, accepts, n)
  {
    var g := BuildGraph(groups, subs);
    GraphIsHierarchy(g, order, groups, subs, up);
    var search := new RoleAssignment(g, accepts, order);
    search.AssignAll(order);
    attempted := search.attempted;
    granted := set n | n in attempted && n in accepts;
    ghost var h := Hierarchy(g, order);
    assert granted == Attempts(h, accepts) * accepts;
    CoverageIsMaximalAndMinimal(h, accepts, granted);
    forall k | 0 <= k < |subs| ensures Reaches(granted, subs[k]) <==> Reaches(accepts, subs[k]) {
      SubscriptionsAreNodes(groups, subs, k);
      CoveredByTheChain(h, subs, up, k, granted);
      CoveredByTheChain(h, subs, up, k, accepts);
    }
    forall k, i, j | 0 <= k < |subs| && 0 <= i < j <= |subs[k].chain| && ChainNode(subs[k], j) in granted
      ensures ChainNode(subs[k], i) !in attempted
    {
      NotBelowAGrant(h, subs, up, k, i, j, accepts);
    }
    forall n ensures n in attempted <==> IsNode(groups, subs, n) && !AcceptedAbove(subs, accepts, n) {
      TriedExactly(h, groups, subs, up, accepts, n);
      assert n in attempted <==> n in Elements(attempted);
    }
  }

  lemma {:induction false} NotBelowAGrant(h: Hierarchy, subs: seq<Ancestry>, up: map<Node, Node>, k: nat, i: nat,
                                          j: nat, accepts: set<Node>)
    requires Holds(h, subs, up) && k < |subs| && i < j <= |subs[k].chain| && ChainNode(subs[k], j) in accepts
    ensures ChainNode(subs[k], i) !in Attempts(h, accepts)
  {
    var above, below := ChainNode(subs[k], j), ChainNode(subs[k], i);
    AboveIsTheChain(h, subs, up, k, i, above);
    AboveIsTheChain(h, subs, up, k, i + 1, above);
    assert subs[k].Link(i) == (ChainNode(subs[k], i + 1), below);
    LinksOfChains(subs, subs[k].Link(i));
    assert h.Parent(ChainNode(subs[k], i + 1), below);
    AboveIsBefore(h, above, ChainNode(subs[k], i + 1));
  }
}
