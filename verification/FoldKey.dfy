/**
 The case-fold key of a field name (internal/api/request_decode.go, jsonFieldFoldKey).
 Simple case folding (section 3.13 of the Unicode Standard) is a parameter: any function on
 runes whose orbits are finite.  Names are sequences of runes.
 */
module FoldKey {
  type Rune = nat
  type Name = seq<Rune>
  type Fold = Rune -> Rune

  function Iter(f: Fold, k: nat, r: Rune): Rune {
    if k == 0 then r else f(Iter(f, k - 1, r))
  }

  /** Every rune comes back to itself. */
  ghost predicate FiniteOrbits(f: Fold) {
    forall r: Rune :: Returns(f, r)
  }

  ghost predicate Returns(f: Fold, r: Rune) {
    exists n: nat :: n > 0 && Iter(f, n, r) == r
  }

  ghost predicate SameOrbit(f: Fold, a: Rune, b: Rune) {
    exists k: nat :: Iter(f, k, a) == b
  }

  // ---------------------------------------------------------------------------
  // Orbits are equivalence classes
  // ---------------------------------------------------------------------------

  lemma {:induction false} IterAdd(f: Fold, j: nat, k: nat, r: Rune)
    ensures Iter(f, j + k, r) == Iter(f, j, Iter(f, k, r))
    decreases j
  {
    if j > 0 {
      IterAdd(f, j - 1, k, r);
    }
  }

  lemma {:induction false} Period(f: Fold, n: nat, m: nat, r: Rune)
    requires Iter(f, n, r) == r
    ensures Iter(f, n * m, r) == r
    decreases m
  {
    if m > 0 {
      Period(f, n, m - 1, r);
      IterAdd(f, n, n * (m - 1), r);
      assert n * m == n + n * (m - 1);
    }
  }

  lemma OrbitRefl(f: Fold, a: Rune)
    ensures SameOrbit(f, a, a)
  {
    assert Iter(f, 0, a) == a;
  }

  lemma OrbitTrans(f: Fold, a: Rune, b: Rune, c: Rune)
    requires SameOrbit(f, a, b) && SameOrbit(f, b, c)
    ensures SameOrbit(f, a, c)
  {
    var j: nat :| Iter(f, j, a) == b;
    var k: nat :| Iter(f, k, b) == c;
    IterAdd(f, k, j, a);
  }

  lemma OrbitSym(f: Fold, a: Rune, b: Rune)
    requires FiniteOrbits(f) && SameOrbit(f, a, b)
    ensures SameOrbit(f, b, a)
  {
    var k: nat :| Iter(f, k, a) == b;
    assert Returns(f, a);
    var n: nat :| n > 0 && Iter(f, n, a) == a;
    Period(f, n, k, a);
    assert n * k >= k by {
      assert (n - 1) * k >= 0;
    }
    IterAdd(f, n * k - k, k, a);
  }

  // ---------------------------------------------------------------------------
  // The least rune of an orbit
  // ---------------------------------------------------------------------------

  ghost predicate IsLeast(f: Fold, r: Rune, m: Rune) {
    SameOrbit(f, r, m) && forall s: Rune :: SameOrbit(f, r, s) ==> m <= s
  }

  lemma {:induction false} LeastExists(f: Fold, r: Rune, s: Rune) returns (m: Rune)
    requires SameOrbit(f, r, s)
    ensures IsLeast(f, r, m)
    decreases s
  {
    if smaller: Rune :| smaller < s && SameOrbit(f, r, smaller) {
      m := LeastExists(f, r, smaller);
    } else {
      m := s;
    }
  }

  lemma SomeLeast(f: Fold, r: Rune)
    ensures exists m: Rune :: IsLeast(f, r, m)
  {
    OrbitRefl(f, r);
    var m := LeastExists(f, r, r);
  }

  ghost function OrbitKey(f: Fold, r: Rune): (m: Rune)
    ensures IsLeast(f, r, m)
  {
    SomeLeast(f, r);
    var m: Rune :| IsLeast(f, r, m);
    m
  }

  /** The least runes are equal exactly in one orbit. */
  lemma KeyDecidesOrbit(f: Fold, a: Rune, b: Rune)
    requires FiniteOrbits(f)
    ensures OrbitKey(f, a) == OrbitKey(f, b) <==> SameOrbit(f, a, b)
  {
    var m, n := OrbitKey(f, a), OrbitKey(f, b);
    if m == n {
      OrbitSym(f, b, m);
      OrbitTrans(f, a, m, b);
    }
    if SameOrbit(f, a, b) {
      OrbitSym(f, a, b);
      OrbitTrans(f, a, b, n);
      OrbitTrans(f, b, a, m);
    }
  }

  /** Fold-equality rune by rune. */
  ghost predicate FoldEqual(f: Fold, a: Name, b: Name) {
    |a| == |b| && forall i :: 0 <= i < |a| ==> SameOrbit(f, a[i], b[i])
  }

  ghost function KeyOf(f: Fold, name: Name): (key: Name)
    ensures |key| == |name|
  {
    seq(|name|, i requires 0 <= i < |name| => OrbitKey(f, name[i]))
  }

  /** Two names have one key exactly when they are fold-equal. */
  lemma KeyIffFoldEqual(f: Fold, a: Name, b: Name)
    requires FiniteOrbits(f)
    ensures KeyOf(f, a) == KeyOf(f, b) <==> FoldEqual(f, a, b)
  {
    var ka, kb := KeyOf(f, a), KeyOf(f, b);
    if |a| == |b| {
      forall i | 0 <= i < |a|
        ensures ka[i] == kb[i] <==> SameOrbit(f, a[i], b[i])
      {
        KeyDecidesOrbit(f, a[i], b[i]);
      }
    }
  }

  // ---------------------------------------------------------------------------
  // The loops
  // ---------------------------------------------------------------------------

  /** Every rune of an orbit is met within the first period. */
  lemma MetWithinPeriod(f: Fold, n: nat, r: Rune, s: Rune) returns (k: nat)
    requires n > 0 && Iter(f, n, r) == r && SameOrbit(f, r, s)
    ensures k < n && Iter(f, k, r) == s
  {
    var j: nat :| Iter(f, j, r) == s;
    k := j;
    while k >= n
      invariant Iter(f, k, r) == s
    {
      IterAdd(f, k - n, n, r);
      k := k - n;
    }
  }

  /** The inner loop: walks the orbit once. */
  method FoldRune(f: Fold, r: Rune) returns (folded: Rune)
    requires FiniteOrbits(f)
    ensures folded == OrbitKey(f, r)
  {
    assert Returns(f, r);
    ghost var n: nat :| n > 0 && Iter(f, n, r) == r;
    ghost var i: nat := 1;
    folded := r;
    var candidate := f(r);
    OrbitRefl(f, r);
    assert Iter(f, 1, r) == f(Iter(f, 0, r));
    while candidate != r
      invariant 1 <= i <= n && candidate == Iter(f, i, r)
      invariant SameOrbit(f, r, folded) && forall k: nat :: k < i ==> folded <= Iter(f, k, r)
      decreases n - i
    {
      if candidate < folded {
        folded := candidate;
      }
      candidate := f(candidate);
      i := i + 1;
    }
    forall s: Rune | SameOrbit(f, r, s)
      ensures folded <= s
    {
      var k := MetWithinPeriod(f, i, r, s);
    }
    LeastIsUnique(f, r, folded);
  }

  lemma LeastIsUnique(f: Fold, r: Rune, m: Rune)
    requires IsLeast(f, r, m)
    ensures m == OrbitKey(f, r)
  {
    assert IsLeast(f, r, OrbitKey(f, r));
  }

  method FieldFoldKey(f: Fold, name: Name) returns (key: Name)
    requires FiniteOrbits(f)
    ensures key == KeyOf(f, name)
  {
    key := [];
    for n := 0 to |name|
      invariant |key| == n && forall i :: 0 <= i < n ==> key[i] == OrbitKey(f, name[i])
    {
      var folded := FoldRune(f, name[n]);
      key := key + [folded];
    }
  }
}
