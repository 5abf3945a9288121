/** Options and the counting of finite sets, shared by the other modules. */
module Common {
  datatype Option<T> = None | Some(value: T)

  lemma UnionCard(a: set<nat>, b: set<nat>)
    ensures |a + b| <= |a| + |b|
  {
    assert a + b == a + (b - a);
    assert |b - a| <= |b| by { assert b == (b - a) + (b * a); }
  }

  lemma SubsetCard(a: set<nat>, b: set<nat>)
    requires a <= b
    ensures |a| <= |b|
  {
    assert b == a + (b - a);
  }

  /** A set of numbers below n has at most n of them, and n exactly when it has all. */
  lemma {:induction false} BelowCard(a: set<nat>, n: nat)
    requires forall x :: x in a ==> x < n
    ensures |a| <= n && (|a| == n <==> forall x: nat :: x < n ==> x in a)
  {
    if n == 0 {
      assert a == {};
    } else {
      BelowCard(a - {n - 1}, n - 1);
      if n - 1 in a {
        forall x: nat | x < n - 1 ensures x in a <==> x in a - {n - 1} { }
      } else {
        assert a - {n - 1} == a;
      }
    }
  }

  ghost function Elems(a: seq<nat>): set<nat> {
    set x | x in a
  }

  lemma {:induction false} ElemsCard(a: seq<nat>)
    requires forall i, j :: 0 <= i < j < |a| ==> a[i] != a[j]
    ensures |Elems(a)| == |a|
  {
    if a == [] {
      assert Elems(a) == {};
    } else {
      var n := |a| - 1;
      ElemsCard(a[..n]);
      assert a == a[..n] + [a[n]];
      assert Elems(a) == Elems(a[..n]) + {a[n]};
    }
  }
}
