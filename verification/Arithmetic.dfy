/** Products and quotients of natural numbers. */
module Arithmetic {

  lemma {:induction false} MulMono(x: nat, y: nat, z: nat)
    requires x <= y
    ensures x * z <= y * z
  {
    assert (y - x) * z >= 0;
    assert (y - x) * z == y * z - x * z;
  }

  lemma {:induction false} MulMono2(x: nat, y: nat, u: nat, v: nat)
    requires x <= y && u <= v
    ensures x * u <= y * v
  {
    MulMono(x, y, u);
    MulMono(u, v, y);
  }

  lemma {:induction false} MulCancel(x: nat, y: nat, z: nat)
    requires x * z <= y * z && z > 0
    ensures x <= y
  {
    assert (y + 1) * z == y * z + z;
    if y < x { MulMono(y + 1, x, z); }
  }

  /** Integer division. */
  function Div(n: nat, d: nat): (q: nat)
    requires d > 0
    ensures q * d <= n < (q + 1) * d
  {
    assert n == n / d * d + n % d;
    n / d
  }

  lemma {:induction false} DivGreatest(n: nat, d: nat, q: nat)
    requires d > 0 && q * d <= n
    ensures q <= Div(n, d)
  {
    if Div(n, d) < q { MulMono(Div(n, d) + 1, q, d); }
  }

  lemma {:induction false} DivBelow(n: nat, d: nat, k: nat)
    requires d > 0 && n < k * d
    ensures Div(n, d) < k
  {
    if k <= Div(n, d) { MulMono(k, Div(n, d), d); }
  }

  lemma {:induction false} ModIs(x: nat, n: nat, q: nat, r: nat)
    requires r < n && x == n * q + r
    ensures x % n == r
  {
    var d := x / n;
    assert x == n * d + x % n;
    assert (d + 1) * n == n * d + n && (q + 1) * n == n * q + n && q * n == n * q && d * n == n * d;
    if d < q { MulMono(d + 1, q, n); }
    if q < d { MulMono(q + 1, d, n); }
  }

  lemma {:induction false} DivExact(n: nat, d: nat)
    requires d > 0
    ensures Div(n * d, d) == n
  {
    DivGreatest(n * d, d, n);
    MulCancel(Div(n * d, d), n, d);
  }
}
