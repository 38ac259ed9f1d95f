/** PCI addresses and the order that Go's `<` gives strings.
    Dafny's own `<` on sequences means "proper prefix of", so the lexicographic order is defined here. */
module Addresses {
  type Address = string

  /** Lexicographic order; a proper prefix comes first. */
  predicate Less(a: Address, b: Address)
    decreases |b|
  {
    if b == [] then false
    else if a == [] then true
    else if a[0] != b[0] then a[0] < b[0]
    else Less(a[1..], b[1..])
  }

  /** What Go's `<` means: a is a proper prefix of b, or the first place at which they differ decides. */
  lemma {:induction false} LessIsLexicographic(a: Address, b: Address)
    ensures Less(a, b) <==>
              exists k: nat :: k <= |a| && k < |b| && a[..k] == b[..k] && (k == |a| || a[k] < b[k])
    decreases |a|
  {
    if a != [] && b != [] && a[0] == b[0] {
      var c, d := a[1..], b[1..];
      LessIsLexicographic(c, d);
      if Less(a, b) {
        var k: nat :| k <= |c| && k < |d| && c[..k] == d[..k] && (k == |c| || c[k] < d[k]);
        assert a[..k + 1] == [a[0]] + c[..k] && b[..k + 1] == [b[0]] + d[..k];
        assert a[..k + 1] == b[..k + 1] && (k + 1 == |a| || a[k + 1] < b[k + 1]);
      }
      if k: nat :| k <= |a| && k < |b| && a[..k] == b[..k] && (k == |a| || a[k] < b[k]) {
        assert k > 0;
        assert c[..k - 1] == a[..k][1..] && d[..k - 1] == b[..k][1..];
        assert c[..k - 1] == d[..k - 1] && (k - 1 == |c| || c[k - 1] < d[k - 1]);
      }
    } else if b != [] {
      assert a[..0] == b[..0];
      forall k: nat | 0 < k <= |a| && k < |b| ensures a[..k] != b[..k] {
        assert a[..k][0] != b[..k][0];
      }
    }
  }

  predicate AtMost(a: Address, b: Address) {
    a == b || Less(a, b)
  }

  lemma {:induction false} LessIsIrreflexive(a: Address)
    ensures !Less(a, a)
    decreases |a|
  {
    if a != [] { LessIsIrreflexive(a[1..]); }
  }

  lemma {:induction false} LessIsTransitive(a: Address, b: Address, c: Address)
    requires Less(a, b) && Less(b, c)
    ensures Less(a, c)
    decreases |c|
  {
    if a != [] && a[0] == b[0] && b[0] == c[0] { LessIsTransitive(a[1..], b[1..], c[1..]); }
  }

  lemma {:induction false} LessIsTotal(a: Address, b: Address)
    ensures Less(a, b) || a == b || Less(b, a)
    decreases |b|
  {
    if a != [] && b != [] && a[0] == b[0] {
      LessIsTotal(a[1..], b[1..]);
      assert a == [a[0]] + a[1..] && b == [b[0]] + b[1..];
    }
  }

  /** Of two addresses exactly one of "less", "equal" and "greater" holds. */
  lemma Trichotomy(a: Address, b: Address)
    ensures Less(a, b) ==> a != b && !Less(b, a)
    ensures !Less(a, b) ==> AtMost(b, a)
  {
    LessIsIrreflexive(a);
    LessIsTotal(a, b);
    if Less(a, b) && Less(b, a) { LessIsTransitive(a, b, a); }
  }

  /** The smaller of two addresses. */
  function Lesser(a: Address, b: Address): (r: Address)
    ensures r == a || r == b
    ensures AtMost(r, a) && AtMost(r, b)
  {
    Trichotomy(a, b);
    if Less(a, b) then a else b
  }

  /** Two addresses that are each at most the other are equal. */
  lemma AtMostIsAntisymmetric(a: Address, b: Address)
    requires AtMost(a, b) && AtMost(b, a)
    ensures a == b
  {
    Trichotomy(a, b);
  }

  lemma AtMostIsTransitive(a: Address, b: Address, c: Address)
    requires AtMost(a, b) && AtMost(b, c)
    ensures AtMost(a, c)
  {
    if Less(a, b) && Less(b, c) { LessIsTransitive(a, b, c); }
  }
}
