/** Walking round a ring of n places. */
module Rings {
  // The place i steps after `start`.
  function At(start: nat, i: nat, n: nat): nat
    requires n > 0
  {
    (start + i) % n
  }

  lemma {:induction false} ModulusOnce(x: nat, n: nat)
    requires n > 0 && x < 2 * n
    ensures x % n == if x < n then x else x - n
  {
    var q, r := x / n, x % n;
    assert x == n * q + r;
    assert q >= 2 ==> n * q >= n * 2;
  }

  lemma AtBounds(start: nat, i: nat, n: nat)
    requires start < n
    ensures At(start, i, n) < n && At(start, 0, n) == start && At(start, n, n) == start
  {
    ModulusOnce(start, n);
    ModulusOnce(start + n, n);
  }

  lemma AtValue(start: nat, i: nat, n: nat)
    requires start < n && i <= n
    ensures At(start, i, n) == if start + i < n then start + i else start + i - n
  {
    ModulusOnce(start + i, n);
  }

  lemma AtNext(start: nat, i: nat, n: nat)
    requires start < n && i < n
    ensures (At(start, i, n) + 1) % n == At(start, i + 1, n)
  {
    AtValue(start, i, n);
    AtValue(start, i + 1, n);
    ModulusOnce(At(start, i, n) + 1, n);
  }

  // Within one revolution every place is met once.
  lemma AtDiffers(start: nat, i: nat, j: nat, n: nat)
    requires start < n && i < j < n
    ensures At(start, i, n) != At(start, j, n)
  {
    AtValue(start, i, n);
    AtValue(start, j, n);
  }

  // Every place is met.
  lemma AtCovers(start: nat, k: nat, n: nat) returns (i: nat)
    requires start < n && k < n
    ensures i < n && At(start, i, n) == k
  {
    i := if k >= start then k - start else k + n - start;
    AtValue(start, i, n);
  }

  // How many steps lead from one place to another.
  function Dist(from: nat, to: nat, n: nat): (d: nat)
    requires from < n && to < n
    ensures d < n
  {
    if to >= from then to - from else to + n - from
  }

  lemma AtDist(from: nat, to: nat, n: nat)
    requires from < n && to < n
    ensures At(from, Dist(from, to, n), n) == to
  {
    AtValue(from, Dist(from, to, n), n);
  }

  lemma DistAt(from: nat, i: nat, n: nat)
    requires from < n && i < n
    ensures At(from, i, n) < n && Dist(from, At(from, i, n), n) == i
  {
    AtBounds(from, i, n);
    AtValue(from, i, n);
  }

  // d steps and then j more, both within one revolution.
  function Beyond(d: nat, j: nat, n: nat): (i: nat)
    requires d < n && j < n
    ensures i < n
  {
    if d + j < n then d + j else d + j - n
  }

  lemma AtBeyond(from: nat, d: nat, j: nat, n: nat)
    requires from < n && d < n && j < n
    ensures At(from, d, n) < n && At(At(from, d, n), j, n) == At(from, Beyond(d, j, n), n)
  {
    AtBounds(from, d, n);
    AtValue(from, d, n);
    AtValue(At(from, d, n), j, n);
    AtValue(from, Beyond(d, j, n), n);
  }
}
