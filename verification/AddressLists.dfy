/** Lists of addresses: when a list, a concatenation or a list of lists repeats an address. */
module AddressLists {
  import opened Addresses

  ghost predicate NoRepeats(s: seq<Address>) {
    forall i, j | 0 <= i < j < |s| :: s[i] != s[j]
  }

  /** A walk over a Go map's keys: each key once, in some order. */
  ghost predicate Walks(order: seq<Address>, keys: set<Address>) {
    NoRepeats(order) && forall a :: a in order <==> a in keys
  }

  lemma {:induction false} WalkLength(order: seq<Address>, keys: set<Address>)
    requires Walks(order, keys)
    ensures |order| == |keys|
  {
    if order == [] {
      assert keys == {};
    } else {
      var init, a := order[..|order| - 1], order[|order| - 1];
      assert a in order && a !in init;
      forall b ensures b in init <==> b in keys - {a} {
        assert b in order <==> b in init || b == a;
      }
      WalkLength(init, keys - {a});
    }
  }

  ghost function Flatten(parts: seq<seq<Address>>): seq<Address> {
    if parts == [] then [] else Flatten(parts[..|parts| - 1]) + parts[|parts| - 1]
  }

  lemma RepeatsOfSum(s: seq<Address>, t: seq<Address>)
    ensures NoRepeats(s + t) <==> NoRepeats(s) && NoRepeats(t) && forall a | a in s :: a !in t
  {
    var u := s + t;
    if NoRepeats(u) {
      forall i, j | 0 <= i < j < |s| ensures s[i] != s[j] { assert u[i] == s[i] && u[j] == s[j]; }
      forall i, j | 0 <= i < j < |t| ensures t[i] != t[j] { assert u[|s| + i] == t[i] && u[|s| + j] == t[j]; }
      forall i, j | 0 <= i < |s| && 0 <= j < |t| ensures s[i] != t[j] { assert u[i] == s[i] && u[|s| + j] == t[j]; }
    } else {
      var i, j :| 0 <= i < j < |u| && u[i] == u[j];
      if i < |s| <= j { assert s[i] in s && t[j - |s|] == s[i]; }
    }
  }

  ghost predicate InPart(parts: seq<seq<Address>>, i: int, a: Address) {
    0 <= i < |parts| && a in parts[i]
  }

  lemma {:induction false} InFlatten(parts: seq<seq<Address>>, a: Address)
    ensures a in Flatten(parts) <==> exists i :: InPart(parts, i, a)
  {
    if parts != [] {
      var init := parts[..|parts| - 1];
      InFlatten(init, a);
      forall i | 0 <= i < |init| ensures InPart(parts, i, a) <==> InPart(init, i, a) {}
      assert InPart(parts, |init|, a) <==> a in parts[|init|];
      assert Flatten(parts) == Flatten(init) + parts[|init|];
    }
  }

  /** No address lies in two parts. */
  ghost predicate PartsAreApart(parts: seq<seq<Address>>) {
    forall i, j, a {:trigger InPart(parts, i, a), InPart(parts, j, a)} | InPart(parts, i, a) && InPart(parts, j, a) ::
      i == j
  }

  lemma {:induction false} FlattenRepeats(parts: seq<seq<Address>>)
    requires forall i | 0 <= i < |parts| :: NoRepeats(parts[i])
    ensures NoRepeats(Flatten(parts)) <==> PartsAreApart(parts)
  {
    if parts != [] {
      var init, last := parts[..|parts| - 1], parts[|parts| - 1];
      FlattenRepeats(init);
      RepeatsOfSum(Flatten(init), last);
      forall i, a | 0 <= i < |init| ensures InPart(parts, i, a) <==> InPart(init, i, a) {}
      LastPartIsApart(parts, init);
    }
  }

  lemma LastPartIsApart(parts: seq<seq<Address>>, init: seq<seq<Address>>)
    requires parts != [] && init == parts[..|parts| - 1]
    ensures PartsAreApart(parts) <==>
              PartsAreApart(init) && forall a | a in Flatten(init) :: a !in parts[|parts| - 1]
  {
    var n := |init|;
    forall i, a | i != n ensures InPart(parts, i, a) <==> InPart(init, i, a) {}
    if PartsAreApart(parts) {
      forall a | a in Flatten(init) ensures a !in parts[n] {
        InFlatten(init, a);
        var i :| InPart(init, i, a);
        assert InPart(parts, i, a) && (a in parts[n] ==> InPart(parts, n, a));
      }
      forall i, j, a | InPart(init, i, a) && InPart(init, j, a) ensures i == j {
        assert InPart(parts, i, a) && InPart(parts, j, a);
      }
    } else {
      var i, j, a :| InPart(parts, i, a) && InPart(parts, j, a) && i != j;
      InFlatten(init, a);
      assert i != n ==> InPart(init, i, a);
      assert j != n ==> InPart(init, j, a);
    }
  }

  ghost predicate Shares(f: map<Address, seq<Address>>, p: Address, q: Address, a: Address) {
    p in f && q in f && a in f[p] && a in f[q]
  }

  /** The parts that a walk takes from f are apart exactly when no two keys share an address. */
  lemma PartsOfWalk(f: map<Address, seq<Address>>, order: seq<Address>, parts: seq<seq<Address>>)
    requires Walks(order, f.Keys) && |parts| == |order|
    requires forall i | 0 <= i < |order| :: order[i] in f && parts[i] == f[order[i]]
    ensures PartsAreApart(parts) <==> forall p, q, a | Shares(f, p, q, a) :: p == q
  {
    if PartsAreApart(parts) {
      forall p, q, a | Shares(f, p, q, a) ensures p == q {
        assert p in order && q in order;
        var i :| 0 <= i < |order| && order[i] == p;
        var j :| 0 <= j < |order| && order[j] == q;
        assert InPart(parts, i, a) && InPart(parts, j, a);
      }
    } else {
      var i, j, a :| InPart(parts, i, a) && InPart(parts, j, a) && i != j;
      assert Shares(f, order[i], order[j], a) && order[i] != order[j];
    }
  }

  /** Lists of equal length that agree up to their equal last elements are equal. */
  lemma SameUpToLast(p: Address, q: Address)
    requires p != [] && |p| == |q| && p[..|p| - 1] == q[..|q| - 1] && p[|p| - 1] == q[|q| - 1]
    ensures p == q
  {
    assert p == p[..|p| - 1] + [p[|p| - 1]] && q == q[..|q| - 1] + [q[|q| - 1]];
  }
}
