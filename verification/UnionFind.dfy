/** The disjoint-set forest of tier_groups.go: path compression, and the smaller root wins each union. */
module UnionFind {
  import opened Addresses
  import opened PeerGraph

  type Parents = map<Address, Address>

  /** The parent of a known address is known and not above it. */
  ghost predicate Downhill(p: Parents, x: Address) {
    x in p ==> p[x] in p && AtMost(p[x], x)
  }

  ghost predicate IsForest(p: Parents) {
    forall x {:trigger Downhill(p, x)} :: Downhill(p, x)
  }

  /** root[x] is the end of x's chain of parents. */
  ghost predicate RootAt(p: Parents, root: Parents, x: Address)
    requires root.Keys == p.Keys
  {
    x in p ==>
      && p[x] in p && root[p[x]] == root[x]
      && root[x] in p && p[root[x]] == root[x]
      && (p[x] == x ==> root[x] == x)
      && AtMost(root[x], x)
  }

  ghost predicate AreRoots(p: Parents, root: Parents) {
    && root.Keys == p.Keys
    && forall x {:trigger RootAt(p, root, x)} :: RootAt(p, root, x)
  }

  /** The known addresses below x: the termination measure of every walk towards a root. */
  ghost function Below(p: Parents, x: Address): set<Address> {
    set k | k in p && Less(k, x)
  }

  lemma BelowShrinks(p: Parents, x: Address)
    requires IsForest(p) && x in p && p[x] != x
    ensures p[x] in p && Below(p, p[x]) < Below(p, x)
  {
    assert Downhill(p, x);
    LessIsIrreflexive(p[x]);
    forall k | k in Below(p, p[x]) ensures k in Below(p, x) {
      LessIsTransitive(k, p[x], x);
    }
    assert p[x] in Below(p, x) && p[x] !in Below(p, p[x]);
  }

  /** A forest has at most one root map ... */
  lemma {:induction false} RootsAreUnique(p: Parents, r: Parents, s: Parents, x: Address)
    requires IsForest(p) && AreRoots(p, r) && AreRoots(p, s) && x in p
    ensures r[x] == s[x]
    decreases Below(p, x)
  {
    assert RootAt(p, r, x) && RootAt(p, s, x);
    if p[x] != x {
      BelowShrinks(p, x);
      RootsAreUnique(p, r, s, p[x]);
    }
  }

  /** The addresses on the way from x to its root, both included. */
  ghost function Chain(p: Parents, x: Address): (c: set<Address>)
    requires IsForest(p) && x in p
    ensures x in c
    decreases Below(p, x)
  {
    if p[x] == x then {x}
    else
      BelowShrinks(p, x);
      {x} + Chain(p, p[x])
  }

  /** w follows the parents from x to y. */
  ghost predicate Climbs(p: Parents, w: seq<Address>, x: Address, y: Address) {
    && w != [] && w[0] == x && w[|w| - 1] == y
    && forall i | 0 <= i < |w| - 1 :: w[i] in p && w[i + 1] == p[w[i]]
  }

  /** A chain holds exactly what climbing from x meets. */
  lemma {:induction false} ChainIsClimb(p: Parents, x: Address, y: Address)
    requires IsForest(p) && x in p
    ensures y in Chain(p, x) <==> exists w :: Climbs(p, w, x, y)
    decreases Below(p, x)
  {
    if y == x { assert Climbs(p, [x], x, y); }
    if p[x] == x {
      if w :| Climbs(p, w, x, y) { StaysAtRoot(p, w, x, y); }
    } else {
      BelowShrinks(p, x);
      ChainIsClimb(p, p[x], y);
      if w :| Climbs(p, w, p[x], y) { assert Climbs(p, [x] + w, x, y); }
      if w :| Climbs(p, w, x, y) && y != x { assert w[1] == p[w[0]] && Climbs(p, w[1..], p[x], y); }
    }
  }

  lemma {:induction false} StaysAtRoot(p: Parents, w: seq<Address>, x: Address, y: Address)
    requires x in p && p[x] == x && Climbs(p, w, x, y)
    ensures y == x
    decreases |w|
  {
    if |w| > 1 {
      assert w[1] == p[w[0]];
      StaysAtRoot(p, w[1..], x, y);
    }
  }

  lemma {:induction false} ChainSharesItsRoot(p: Parents, root: Parents, x: Address, y: Address)
    requires IsForest(p) && AreRoots(p, root) && x in p && y in Chain(p, x)
    ensures y in p && root[y] == root[x]
    decreases Below(p, x)
  {
    if y != x {
      BelowShrinks(p, x);
      ChainSharesItsRoot(p, root, p[x], y);
      assert RootAt(p, root, x);
    }
  }

  ghost predicate HangsAt(p: Parents, q: Parents, x: Address, r: Address, y: Address)
    requires IsForest(p) && x in p && q.Keys == p.Keys
  {
    y in p ==> q[y] == if y in Chain(p, x) then r else p[y]
  }

  /** What `find(x)` makes of forest p: everything on the chain of x hangs directly from r, the rest stays. */
  ghost predicate IsCompression(p: Parents, q: Parents, x: Address, r: Address)
    requires IsForest(p) && x in p
  {
    && q.Keys == p.Keys
    && forall y {:trigger HangsAt(p, q, x, r, y)} :: HangsAt(p, q, x, r, y)
  }

  /** Every address met on the way from x then hangs directly from r, every other one where it did. */
  lemma CompressedAre(p: Parents, q: Parents, x: Address, r: Address, y: Address)
    requires IsForest(p) && x in p && IsCompression(p, q, x, r) && y in p
    ensures y in q && q[y] == if exists w :: Climbs(p, w, x, y) then r else p[y]
  {
    ChainIsClimb(p, x, y);
    assert HangsAt(p, q, x, r, y);
  }

  /** Path compression keeps the key set, the forest shape and the root of every key. */
  lemma CompressionKeepsRoots(p: Parents, q: Parents, root: Parents, x: Address)
    requires IsForest(p) && AreRoots(p, root) && x in p
    requires IsCompression(p, q, x, root[x])
    ensures IsForest(q) && AreRoots(q, root) && Tops(q) == Tops(p)
  {
    forall y | y in p
      ensures q[y] == p[y] || q[y] == root[y]
      ensures q[y] == y <==> p[y] == y
    {
      assert RootAt(p, root, y) && HangsAt(p, q, x, root[x], y);
      if y in Chain(p, x) { ChainSharesItsRoot(p, root, x, y); }
    }
    forall y ensures Downhill(q, y) && RootAt(q, root, y) {
      assert Downhill(p, y) && RootAt(p, root, y);
      if y in p { assert RootAt(p, root, root[y]); }
    }
  }

  /** Compressing the rest of the chain and then x itself compresses the chain of x. */
  lemma CompressionExtends(p: Parents, q: Parents, x: Address, r: Address)
    requires IsForest(p) && x in p && p[x] != x && p[x] in p
    requires IsCompression(p, q, p[x], r)
    ensures IsCompression(p, q[x := r], x, r)
  {
    BelowShrinks(p, x);
    var longer := q[x := r];
    assert longer.Keys == p.Keys;
    forall y ensures HangsAt(p, longer, x, r, y) {
      assert HangsAt(p, q, p[x], r, y);
    }
  }

  /** Hanging root `high` below the smaller root `low` joins their two trees and no others. */
  lemma LinkMovesOneTree(p: Parents, root: Parents, low: Address, high: Address)
    requires IsForest(p) && AreRoots(p, root) && low in p && high in p
    requires p[low] == low && p[high] == high && Less(low, high)
    ensures IsForest(p[high := low])
    ensures AreRoots(p[high := low], Joining(root, low, high))
    ensures Tops(p[high := low]) == Tops(p) - {high}
  {
    LessIsIrreflexive(low);
    var q, s := p[high := low], Joining(root, low, high);
    assert q.Keys == p.Keys;
    assert RootAt(p, root, low) && RootAt(p, root, high);
    forall x ensures Downhill(q, x) && RootAt(q, s, x) {
      assert Downhill(p, x) && RootAt(p, root, x);
      if x in p && root[x] == high { AtMostIsTransitive(low, high, x); }
    }
  }

  /** The root map in which the trees of two roots have become the tree of `low`. */
  ghost function Joining(root: Parents, low: Address, high: Address): Parents {
    map x | x in root :: if root[x] == high then low else root[x]
  }

  /** The addresses that are their own parent. */
  ghost function Tops(p: Parents): set<Address> {
    set x | x in p && p[x] == x
  }

  /** The forest's trees are exactly the connected components of the edges seen so far. */
  ghost predicate Represents(root: Parents, edges: set<Edge>) {
    forall a, b {:trigger root[a], root[b]} {:trigger Connected(root.Keys, edges, a, b)} | a in root && b in root ::
      root[a] == root[b] <==> Connected(root.Keys, edges, a, b)
  }

  lemma SingletonsRepresentNoEdges(root: Parents)
    requires forall x | x in root :: root[x] == x
    ensures Represents(root, {})
  {
    forall a, b | a in root && b in root ensures root[a] == root[b] <==> Connected(root.Keys, {}, a, b) {
      ConnectedToItself(root.Keys, {}, a);
      if Connected(root.Keys, {}, a, b) {
        var path :| PathBetween(root.Keys, {}, path, a, b);
        assert |path| > 1 ==> Hop(root.Keys, {}, path, 1);
      }
    }
  }

  /** Skipping an unknown neighbour is right: its edge adds no connection. */
  lemma UnknownEdgeRepresented(root: Parents, edges: set<Edge>, a: Address, b: Address)
    requires Represents(root, edges) && b !in root
    ensures Represents(root, edges + {(a, b)})
  {
    var nodes, more := root.Keys, edges + {(a, b)};
    assert KnownEdges(nodes, edges) == KnownEdges(nodes, more);
    forall x, y | x in root && y in root ensures root[x] == root[y] <==> Connected(nodes, more, x, y) {
      UnknownNeighboursLinkNothing(nodes, edges, x, y);
      UnknownNeighboursLinkNothing(nodes, more, x, y);
    }
  }

  lemma MergeConnects(root: Parents, edges: set<Edge>, a: Address, b: Address, x: Address, y: Address)
    requires Represents(root, edges) && a in root && b in root && x in root && y in root
    requires root[x] == root[a] && root[y] == root[b]
    ensures Connected(root.Keys, edges + {(a, b)}, x, y)
    ensures Connected(root.Keys, edges + {(a, b)}, y, x)
  {
    var nodes, more := root.Keys, edges + {(a, b)};
    ConnectedIsMonotone(nodes, edges, more, x, a);
    ConnectedIsMonotone(nodes, edges, more, b, y);
    ConnectedByEdge(nodes, more, a, b);
    ConnectedIsTransitive(nodes, more, x, a, b);
    ConnectedIsTransitive(nodes, more, x, b, y);
    ConnectedIsSymmetric(nodes, more, x, y);
  }

  /** The trees of a and b become one, named by the smaller of the two roots; every other tree stays. */
  ghost function Merge(root: Parents, a: Address, b: Address): Parents
    requires a in root && b in root
  {
    map x | x in root :: if root[x] == root[a] || root[x] == root[b] then Lesser(root[a], root[b]) else root[x]
  }

  lemma MergeIsJoining(root: Parents, a: Address, b: Address)
    requires a in root && b in root
    ensures root[a] == root[b] ==> Merge(root, a, b) == root
    ensures Less(root[a], root[b]) ==> Merge(root, a, b) == Joining(root, root[a], root[b])
    ensures Less(root[b], root[a]) ==> Merge(root, a, b) == Joining(root, root[b], root[a])
  {
    Trichotomy(root[a], root[b]);
  }

  /** A merge turns the components of `edges` into those of `edges` with the edge (a, b) added. */
  lemma MergeRepresents(root: Parents, edges: set<Edge>, a: Address, b: Address)
    requires Represents(root, edges) && a in root && b in root
    ensures Represents(Merge(root, a, b), edges + {(a, b)})
  {
    var nodes, more, merged := root.Keys, edges + {(a, b)}, Merge(root, a, b);
    forall x, y | Joined(nodes, more, x, y) ensures merged[x] == merged[y] {
      if Joined(nodes, edges, x, y) { ConnectedByEdge(nodes, edges, x, y); }
    }
    forall x, y | x in root && y in root ensures merged[x] == merged[y] <==> Connected(nodes, more, x, y) {
      if Connected(nodes, more, x, y) {
        var path :| PathBetween(nodes, more, path, x, y);
        LabelsAgreeAlongPaths(nodes, more, merged, path, x, y);
      }
      if merged[x] == merged[y] {
        if root[x] == root[y] {
          ConnectedIsMonotone(nodes, edges, more, x, y);
        } else if root[x] == root[a] || root[y] == root[b] {
          MergeConnects(root, edges, a, b, x, y);
        } else {
          MergeConnects(root, edges, a, b, y, x);
        }
      }
    }
    assert merged.Keys == nodes;
  }

  /** The roots of a forest are the smallest addresses of the components it represents. */
  lemma RootsNameComponents(p: Parents, root: Parents, edges: set<Edge>)
    requires AreRoots(p, root) && Represents(root, edges)
    ensures NamesComponents(root, p.Keys, edges)
    ensures root.Values == Tops(p)
  {
    forall a, b | Connected(p.Keys, edges, a, b) ensures a in p && AtMost(root[a], b) {
      ConnectedNodesAreKnown(p.Keys, edges, a, b);
      assert root[a] == root[b] && RootAt(p, root, b);
    }
    forall a ensures InOwnGroup(root, p.Keys, edges, a) {
      assert RootAt(p, root, a);
      if a in root { assert RootAt(p, root, root[a]); }
    }
    forall r ensures r in Tops(p) <==> r in root.Values {
      assert RootAt(p, root, r);
      if r in root.Values {
        var x :| x in root && root[x] == r;
        assert RootAt(p, root, x);
      }
    }
  }

  class UnionFind {
    var parent: Parents
    ghost var root: Parents  // the root of every address
    ghost var merges: nat    // how many unions found two different roots

    ghost predicate Valid()
      reads this
    {
      && IsForest(parent)
      && AreRoots(parent, root)
      && |Tops(parent)| + merges == |parent|
    }

    constructor (addrs: seq<Address>)
      ensures Valid() && merges == 0
      ensures parent == root == map a | a in addrs :: a
    {
      var p: Parents := map[];
      for i := 0 to |addrs|
        invariant p == map a | a in addrs[..i] :: a
      {
        assert addrs[..i + 1] == addrs[..i] + [addrs[i]];
        p := p[addrs[i] := addrs[i]];
      }
      assert addrs[..|addrs|] == addrs;
      parent, root, merges := p, p, 0;
      assert Tops(p) == p.Keys;
    }

    method Find(x: Address) returns (r: Address)
      requires Valid() && x in parent
      modifies `parent
      ensures Valid() && Tops(parent) == old(Tops(parent))
      ensures r == root[x]
      ensures IsCompression(old(parent), parent, x, r)
      decreases Below(parent, x)
    {
      assert RootAt(parent, root, x);
      if parent[x] != x {
        BelowShrinks(parent, x);
        var top := Find(parent[x]);
        CompressionExtends(old(parent), parent, x, top);
        parent := parent[x := top];
      }
      r := parent[x];
      CompressionKeepsRoots(old(parent), parent, root, x);
    }

    method Union(a: Address, b: Address)
      requires Valid() && a in parent
      modifies this
      ensures Valid() && parent.Keys == old(parent).Keys
      ensures b !in old(parent) ==> parent == old(parent) && root == old(root) && merges == old(merges)
      ensures b in old(parent) ==> root == Merge(old(root), a, b)
      ensures b in old(parent) ==> merges == old(merges) + if old(root[a] == root[b]) then 0 else 1
    {
      if b !in parent {
        return;
      }
      var ra := Find(a);
      var rb := Find(b);
      Trichotomy(ra, rb);
      MergeIsJoining(root, a, b);
      if ra == rb {
        return;
      }
      assert RootAt(parent, root, a) && RootAt(parent, root, b);
      if Less(ra, rb) {
        Link(ra, rb);
      } else {
        Link(rb, ra);
      }
    }

    /** The assignment that ends `union`. */
    method Link(low: Address, high: Address)
      requires Valid() && low in parent && high in parent
      requires parent[low] == low && parent[high] == high && Less(low, high)
      modifies this
      ensures Valid() && parent == old(parent)[high := low]
      ensures root == Joining(old(root), low, high) && merges == old(merges) + 1
    {
      LinkMovesOneTree(parent, root, low, high);
      parent := parent[high := low];
      root, merges := Joining(root, low, high), merges + 1;
      assert |parent| == |old(parent)| by { assert parent.Keys == old(parent).Keys; }
    }

    method Groups() returns (result: map<Address, Address>)
      requires Valid()
      modifies `parent
      ensures Valid() && parent.Keys == old(parent).Keys && Tops(parent) == old(Tops(parent))
      ensures result == root
    {
      result := map[];
      var rest := parent.Keys;
      while rest != {}
        invariant Valid() && parent.Keys == old(parent).Keys && Tops(parent) == old(Tops(parent))
        invariant rest <= parent.Keys && result.Keys == parent.Keys - rest
        invariant forall a | a in result :: result[a] == root[a]
        decreases rest
      {
        var a :| a in rest;
        var r := Find(a);
        result := result[a := r];
        rest := rest - {a};
      }
    }
  }
}
