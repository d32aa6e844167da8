/**
 * Iteration orders of a map (a sequence that lists every key exactly once)
 * and the counting used to split a pool of cables into equal hands
 * (src/gameplay.rs `distribute_cables`).
 */
module Dealing {

  /** No entry of `s` repeats an earlier one. */
  predicate NoDups<K(==)>(s: seq<K>)
    decreases |s|
  {
    |s| == 0 || (s[|s| - 1] !in s[..|s| - 1] && NoDups(s[..|s| - 1]))
  }

  /** Entries of a sequence without repetitions at different places differ. */
  lemma {:induction false} NoDupsIndex<K>(s: seq<K>, i: int, j: int)
    requires NoDups(s) && 0 <= i < j < |s|
    ensures s[i] != s[j]
    decreases |s|
  {
    var t := s[..|s| - 1];
    assert s[i] == t[i];
    if j < |s| - 1 {
      NoDupsIndex(t, i, j);
      assert s[j] == t[j];
    }
  }

  lemma NoDupsAppend<K>(s: seq<K>, x: K)
    requires NoDups(s) && x !in s
    ensures NoDups(s + [x])
  {
    assert (s + [x])[..|s|] == s;
  }

  /**
   * `s` lists exactly the keys `keys`, each once: a HashMap iteration order.
   * That every key is listed follows from the count (EnumeratesCovers).
   */
  predicate Enumerates<K(==)>(s: seq<K>, keys: set<K>) {
    NoDups(s) && (forall i | 0 <= i < |s| :: s[i] in keys) && |s| == |keys|
  }

  /** A sequence without repetitions has as many distinct elements as entries. */
  lemma {:induction false} DistinctCount<K>(s: seq<K>)
    requires NoDups(s)
    ensures |set x | x in s| == |s|
  {
    if |s| > 0 {
      var t := s[..|s| - 1];
      DistinctCount(t);
      assert (set x | x in s) == (set x | x in t) + {s[|s| - 1]};
    }
  }

  /** An enumeration lists every key. */
  lemma EnumeratesCovers<K>(s: seq<K>, keys: set<K>)
    requires Enumerates(s, keys)
    ensures forall k | k in keys :: k in s
  {
    var listed := set x | x in s;
    DistinctCount(s);
    assert listed <= keys;
    assert |keys - listed| == |keys| - |listed|;
  }

  /**
   * An iteration order of a finite set of keys. The order of a HashMap is not
   * specified, so the method may produce any of them.
   */
  method Enumerate<K(==)>(keys: set<K>) returns (s: seq<K>)
    ensures Enumerates(s, keys)
    ensures forall k | k in keys :: k in s
  {
    s := [];
    var rest := keys;
    while rest != {}
      invariant rest <= keys
      invariant NoDups(s)
      invariant forall i | 0 <= i < |s| :: s[i] in keys && s[i] !in rest
      invariant forall k | k in keys :: k in s || k in rest
      invariant |s| + |rest| == |keys|
      decreases |rest|
    {
      var k :| k in rest;
      NoDupsAppend(s, k);
      s := s + [k];
      rest := rest - {k};
    }
  }

  /** The hands of a deal, joined in the order they were dealt. */
  function Concat<V>(hands: seq<seq<V>>): seq<V> {
    if |hands| == 0 then [] else Concat(hands[..|hands| - 1]) + hands[|hands| - 1]
  }

  /** `k` hands of `per` cables each, counted without multiplication. */
  function Times(k: nat, per: nat): nat {
    if k == 0 then 0 else per + Times(k - 1, per)
  }

  lemma TimesStep(k: nat, per: nat)
    requires k > 0
    ensures Times(k, per) == per + Times(k - 1, per)
  {
  }

  /** Dealing `len / n` cables to each of `n` hands leaves `len % n` over. */
  lemma {:induction false} TimesQuotient(len: nat, n: nat)
    requires n > 0
    ensures Times(n, len / n) + len % n == len
  {
    TimesMul(n, len / n);
  }

  lemma {:induction false} TimesMul(k: nat, per: nat)
    ensures Times(k, per) == k * per
  {
    if k > 0 {
      TimesMul(k - 1, per);
      assert k * per == (k - 1) * per + per;
    }
  }

  /**
   * Quotient and remainder by repeated subtraction, so that contracts can
   * speak of `a / n` and `a % n` without symbolic division for the solver.
   */
  function Quot(a: nat, n: nat): nat
    requires n > 0
    decreases a
  {
    if a < n then 0 else 1 + Quot(a - n, n)
  }

  function Rem(a: nat, n: nat): nat
    requires n > 0
    decreases a
  {
    if a < n then a else Rem(a - n, n)
  }

  /** `n` divides `a`. */
  predicate Divides(n: nat, a: nat)
    requires n > 0
  {
    Rem(a, n) == 0
  }

  /** The recursive quotient and remainder are Dafny's `/` and `%`. */
  lemma {:induction false} QuotRem(a: nat, n: nat)
    requires n > 0
    ensures Quot(a, n) == a / n && Rem(a, n) == a % n
    decreases a
  {
    if a >= n {
      QuotRem(a - n, n);
      ModShift(a - n, n);
      DivShift(a - n, n);
    } else {
      ModUnique(a, n, 0, a);
      DivUnique(a, n, 0, a);
    }
  }

  lemma DividesShift(n: nat, a: nat)
    requires n > 0
    ensures Divides(n, a + n) == Divides(n, a)
  {
  }

  /** `k` hands of `Quot(a, n)` cables leave `Rem(a, n)` of `a` over. */
  lemma QuotTimes(a: nat, n: nat)
    requires n > 0
    ensures Times(n, Quot(a, n)) + Rem(a, n) == a
  {
    QuotRem(a, n);
    TimesQuotient(a, n);
  }

  lemma ModShift(a: nat, n: nat)
    requires n > 0
    ensures (a + n) % n == a % n
  {
    assert a + n == (a / n + 1) * n + a % n;
    ModUnique(a + n, n, a / n + 1, a % n);
  }

  lemma DivShift(a: nat, n: nat)
    requires n > 0
    ensures (a + n) / n == a / n + 1
  {
    assert a + n == (a / n + 1) * n + a % n;
    DivUnique(a + n, n, a / n + 1, a % n);
  }

  lemma DivUnique(x: int, n: int, q: int, r: int)
    requires n > 0 && x == q * n + r && 0 <= r < n
    ensures x / n == q
  {
    ModUnique(x, n, q, r);
    var q' := x / n;
    assert x == q' * n + r;
    assert (q - q') * n == 0;
    if q > q' {
      MulAtLeast(q - q', n);
    } else if q < q' {
      MulAtLeast(q' - q, n);
    }
  }

  /** The remainder is the only `r` below `n` with `x == q * n + r`. */
  lemma ModUnique(x: int, n: int, q: int, r: int)
    requires n > 0 && x == q * n + r && 0 <= r < n
    ensures x % n == r
  {
    var q', r' := x / n, x % n;
    assert x == q' * n + r';
    assert q * n - q' * n == (q - q') * n;
    if q > q' {
      MulAtLeast(q - q', n);
    } else if q < q' {
      MulAtLeast(q' - q, n);
    }
  }

  lemma MulAtLeast(k: int, n: int)
    requires k >= 1 && n >= 0
    ensures k * n >= n
  {
    assert k * n == (k - 1) * n + n;
    assert (k - 1) * n >= 0;
  }
}
