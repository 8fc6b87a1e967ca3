/** Bytes, and positions in a ring of `n` cells. */
module Bytes {
  newtype byte = x: int | 0 <= x < 256

  /** `(head + offset) % n`, for offsets of at most one round. */
  function Wrap(head: nat, offset: nat, n: nat): (r: nat)
    requires head < n && offset <= n
    ensures r < n && r == if head + offset < n then head + offset else head + offset - n
  {
    ModOnce(head + offset, n);
    (head + offset) % n
  }

  lemma ModOnce(a: nat, n: nat)
    requires 0 < n && a < 2 * n
    ensures a % n == if a < n then a else a - n
  {
    var q, r := a / n, a % n;
    assert a == n * q + r;
    assert q >= 2 ==> n * q >= n * 2;
    assert q == 1 ==> n * q == n;
  }

  /** Two offsets short of a full round are at different cells. */
  lemma WrapApart(head: nat, a: nat, b: nat, n: nat)
    requires head < n && a < n && b < n
    ensures Wrap(head, a, n) == Wrap(head, b, n) <==> a == b
  {}

  /** Going on from a wrapped position. */
  lemma WrapOn(head: nat, a: nat, b: nat, n: nat)
    requires head < n && a + b <= n
    ensures Wrap(Wrap(head, a, n), b, n) == Wrap(head, a + b, n)
  {}
}
