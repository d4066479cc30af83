/** Equally long vectors of numbers, compared from the left, cannot go down for ever. */
module Descent {
  ghost predicate DropsAt(a: seq<nat>, b: seq<nat>, k: nat)
    requires |a| == |b| && k < |a|
  {
    a[k] < b[k] && forall j | 0 <= j < k :: a[j] == b[j]
  }

  ghost predicate Below(a: seq<nat>, b: seq<nat>) {
    |a| == |b| && exists k :: 0 <= k < |a| && DropsAt(a, b, k)
  }

  ghost predicate Drops(f: nat -> seq<nat>, n: nat) {
    Below(f(n + 1), f(n))
  }

  lemma {:induction false} HeadNeverRises(f: nat -> seq<nat>, len: nat, i: nat, j: nat)
    requires len > 0 && i <= j && (forall n: nat :: |f(n)| == len) && forall n: nat :: Drops(f, n)
    ensures f(j)[0] <= f(i)[0]
    decreases j - i
  {
    if i < j {
      HeadNeverRises(f, len, i, j - 1);
      assert Drops(f, j - 1);
    }
  }

  /** From some point on the heads are all the same. */
  lemma {:induction false} HeadSettles(f: nat -> seq<nat>, len: nat, i: nat) returns (n: nat)
    requires len > 0 && (forall k: nat :: |f(k)| == len) && forall k: nat :: Drops(f, k)
    ensures forall j: nat | j >= n :: f(j)[0] == f(n)[0]
    decreases f(i)[0]
  {
    if j: nat :| j >= i && f(j)[0] < f(i)[0] {
      n := HeadSettles(f, len, j);
    } else {
      n := i;
      forall j: nat | j >= i ensures f(j)[0] == f(i)[0] { HeadNeverRises(f, len, i, j); }
    }
  }

  lemma {:induction false} NoInfiniteDescent(f: nat -> seq<nat>, len: nat)
    requires forall n: nat :: |f(n)| == len
    ensures exists n: nat :: !Drops(f, n)
    decreases len
  {
    if forall n: nat :: Drops(f, n) {
      assert Drops(f, 0);
      var n := HeadSettles(f, len, 0);
      var g := (k: nat) => f(n + k)[1..];
      NoInfiniteDescent(g, len - 1);
      var k: nat :| !Drops(g, k);
      TailDrops(f, n + k);
    }
  }

  lemma TailDrops(f: nat -> seq<nat>, n: nat)
    requires |f(n)| > 0 && |f(n + 1)| > 0 && Drops(f, n) && f(n + 1)[0] == f(n)[0]
    ensures Below(f(n + 1)[1..], f(n)[1..])
  {
    var d :| 0 <= d < |f(n)| && DropsAt(f(n + 1), f(n), d);
    assert DropsAt(f(n + 1)[1..], f(n)[1..], d - 1);
  }
}
