/** The reference notion of a topology group: the connected components of an undirected graph whose
    edges count only between known devices, each named by its smallest address. */
module PeerGraph {
  import opened Addresses

  type Edge = (Address, Address)

  ghost predicate Joined(nodes: set<Address>, edges: set<Edge>, a: Address, b: Address) {
    && a in nodes && b in nodes
    && ((a, b) in edges || (b, a) in edges)
  }

  /** The i-th address of a path is joined to the one before it. */
  ghost predicate Hop(nodes: set<Address>, edges: set<Edge>, p: seq<Address>, i: int)
    requires 0 < i < |p|
  {
    Joined(nodes, edges, p[i - 1], p[i])
  }

  ghost predicate PathBetween(nodes: set<Address>, edges: set<Edge>, p: seq<Address>, a: Address, b: Address) {
    && p != [] && p[0] == a && p[|p| - 1] == b
    && (forall x | x in p :: x in nodes)
    && forall i | 0 < i < |p| :: Hop(nodes, edges, p, i)
  }

  ghost predicate Connected(nodes: set<Address>, edges: set<Edge>, a: Address, b: Address) {
    exists p :: PathBetween(nodes, edges, p, a, b)
  }

  lemma ConnectedToItself(nodes: set<Address>, edges: set<Edge>, a: Address)
    requires a in nodes
    ensures Connected(nodes, edges, a, a)
  {
    assert PathBetween(nodes, edges, [a], a, a);
  }

  lemma ConnectedByEdge(nodes: set<Address>, edges: set<Edge>, a: Address, b: Address)
    requires Joined(nodes, edges, a, b)
    ensures Connected(nodes, edges, a, b)
  {
    assert PathBetween(nodes, edges, [a, b], a, b);
  }

  lemma ConnectedIsTransitive(nodes: set<Address>, edges: set<Edge>, a: Address, b: Address, c: Address)
    requires Connected(nodes, edges, a, b) && Connected(nodes, edges, b, c)
    ensures Connected(nodes, edges, a, c)
  {
    var p :| PathBetween(nodes, edges, p, a, b);
    var q :| PathBetween(nodes, edges, q, b, c);
    var r := p + q[1..];
    forall i | 0 < i < |r| ensures Hop(nodes, edges, r, i) {
      assert if i < |p| then Hop(nodes, edges, p, i) else Hop(nodes, edges, q, i - |p| + 1);
    }
    assert PathBetween(nodes, edges, r, a, c);
  }

  lemma {:induction false} ConnectedIsSymmetric(nodes: set<Address>, edges: set<Edge>, a: Address, b: Address)
    requires Connected(nodes, edges, a, b)
    ensures Connected(nodes, edges, b, a)
  {
    var p :| PathBetween(nodes, edges, p, a, b);
    var q := seq(|p|, i requires 0 <= i < |p| => p[|p| - 1 - i]);
    forall i | 0 < i < |q| ensures Hop(nodes, edges, q, i) {
      assert Hop(nodes, edges, p, |p| - i);
    }
    assert PathBetween(nodes, edges, q, b, a);
  }

  /** More edges keep every connection. */
  lemma ConnectedIsMonotone(nodes: set<Address>, edges: set<Edge>, more: set<Edge>, a: Address, b: Address)
    requires edges <= more
    requires Connected(nodes, edges, a, b)
    ensures Connected(nodes, more, a, b)
  {
    var p :| PathBetween(nodes, edges, p, a, b);
    forall i | 0 < i < |p| ensures Hop(nodes, more, p, i) {
      assert Hop(nodes, edges, p, i);
    }
    assert PathBetween(nodes, more, p, a, b);
  }

  /** A labelling that agrees along every edge agrees along every path. */
  lemma {:induction false} LabelsAgreeAlongPaths<L>(
      nodes: set<Address>, edges: set<Edge>, name: map<Address, L>, p: seq<Address>, a: Address, b: Address)
    requires nodes <= name.Keys
    requires forall x, y | Joined(nodes, edges, x, y) :: name[x] == name[y]
    requires PathBetween(nodes, edges, p, a, b)
    ensures name[a] == name[b]
    decreases |p|
  {
    if |p| > 1 {
      assert Hop(nodes, edges, p, 1);
      var rest := p[1..];
      forall i | 0 < i < |rest| ensures Hop(nodes, edges, rest, i) {
        assert Hop(nodes, edges, p, i + 1);
      }
      LabelsAgreeAlongPaths(nodes, edges, name, rest, p[1], b);
    }
  }

  ghost predicate InOwnGroup(groups: map<Address, Address>, nodes: set<Address>, edges: set<Edge>, a: Address) {
    a in groups ==> Connected(nodes, edges, a, groups[a])
  }

  /** `groups` names every node's connected component by the smallest address in it. */
  ghost predicate NamesComponents(groups: map<Address, Address>, nodes: set<Address>, edges: set<Edge>) {
    && groups.Keys == nodes
    && (forall a {:trigger InOwnGroup(groups, nodes, edges, a)} :: InOwnGroup(groups, nodes, edges, a))
    && forall a, b | Connected(nodes, edges, a, b) :: a in nodes && AtMost(groups[a], b)
  }

  lemma ConnectedNodesAreKnown(nodes: set<Address>, edges: set<Edge>, a: Address, b: Address)
    requires Connected(nodes, edges, a, b)
    ensures a in nodes && b in nodes
  {
    var p :| PathBetween(nodes, edges, p, a, b);
    assert p[0] in p && p[|p| - 1] in p;
  }

  /** Two known addresses have the same group ID exactly when a path of peer edges joins them. */
  lemma SameGroupIffConnected(
      groups: map<Address, Address>, nodes: set<Address>, edges: set<Edge>, a: Address, b: Address)
    requires NamesComponents(groups, nodes, edges)
    requires a in nodes && b in nodes
    ensures groups[a] == groups[b] <==> Connected(nodes, edges, a, b)
  {
    assert InOwnGroup(groups, nodes, edges, a) && InOwnGroup(groups, nodes, edges, b);
    if groups[a] == groups[b] {
      ConnectedIsSymmetric(nodes, edges, b, groups[b]);
      ConnectedIsTransitive(nodes, edges, a, groups[a], b);
    }
    if Connected(nodes, edges, a, b) {
      ConnectedIsSymmetric(nodes, edges, a, b);
      ConnectedIsTransitive(nodes, edges, b, a, groups[a]);
      ConnectedIsTransitive(nodes, edges, a, b, groups[b]);
      AtMostIsAntisymmetric(groups[a], groups[b]);
    }
  }

  /** There is only one such naming: the iteration orders that led to it leave no trace. */
  lemma ComponentNamesAreUnique(
      g: map<Address, Address>, h: map<Address, Address>, nodes: set<Address>, edges: set<Edge>)
    requires NamesComponents(g, nodes, edges) && NamesComponents(h, nodes, edges)
    ensures g == h
  {
    forall a | a in nodes ensures g[a] == h[a] {
      assert InOwnGroup(g, nodes, edges, a) && InOwnGroup(h, nodes, edges, a);
      AtMostIsAntisymmetric(g[a], h[a]);
    }
  }

  ghost function KnownEdges(nodes: set<Address>, edges: set<Edge>): set<Edge> {
    set e | e in edges && e.0 in nodes && e.1 in nodes
  }

  /** An edge to an unknown address joins nothing. */
  lemma UnknownNeighboursLinkNothing(nodes: set<Address>, edges: set<Edge>, a: Address, b: Address)
    ensures Connected(nodes, edges, a, b) <==> Connected(nodes, KnownEdges(nodes, edges), a, b)
  {
    var known := KnownEdges(nodes, edges);
    if Connected(nodes, edges, a, b) {
      var p :| PathBetween(nodes, edges, p, a, b);
      forall i | 0 < i < |p| ensures Hop(nodes, known, p, i) {
        assert Hop(nodes, edges, p, i);
      }
      assert PathBetween(nodes, known, p, a, b);
    }
    if Connected(nodes, known, a, b) {
      ConnectedIsMonotone(nodes, known, edges, a, b);
    }
  }
}
