/** Division, remainder and powers of two, as far as cursors, numerals and delays need them. */
module Arithmetic {
  function Min(a: nat, b: nat): nat {
    if a < b then a else b
  }

  function Pow2(n: nat): nat {
    if n == 0 then 1 else 2 * Pow2(n - 1)
  }

  lemma DivModUnique(a: nat, n: nat, q: nat, r: nat)
    requires n > 0 && r < n && a == q * n + r
    ensures a / n == q && a % n == r
  {
    var p, t := a / n, a % n;
    assert a == p * n + t;
    Apart(p, q, n, t, r);
  }

  lemma Apart(p: nat, q: nat, n: nat, t: nat, r: nat)
    requires p * n + t == q * n + r && t < n && r < n
    ensures p == q
  {
    if p < q { Gap(p, q, n); }
    if q < p { Gap(q, p, n); }
  }

  lemma Gap(p: nat, q: nat, n: nat)
    requires p < q
    ensures q * n >= p * n + n
  {
    assert q * n == p * n + (q - p) * n;
    assert (q - p) * n == n + (q - p - 1) * n;
  }

  lemma ModAdd(a: nat, b: nat, n: nat)
    requires n > 0
    ensures (a % n + b) % n == (a + b) % n
  {
    var q, p := a / n, (a % n + b) / n;
    assert a + b == (q + p) * n + (a % n + b) % n by {
      assert a == q * n + a % n;
      assert a % n + b == p * n + (a % n + b) % n;
      assert (q + p) * n == q * n + p * n;
    }
    DivModUnique(a + b, n, q + p, (a % n + b) % n);
  }

  lemma NextStart(start: nat, stride: nat, j: nat, n: nat)
    requires n > 0 && j > 0
    ensures ((start + stride) % n + (j - 1) * stride) % n == (start + j * stride) % n
  {
    assert start + stride + (j - 1) * stride == start + j * stride;
    ModAdd(start + stride, (j - 1) * stride, n);
  }

  function CeilDiv(a: nat, b: nat): (c: nat)
    requires b > 0
    ensures c * b >= a && (c > 0 ==> (c - 1) * b < a)
  {
    (a + b - 1) / b
  }

  lemma Divide(d: nat, n: nat, limit: nat) returns (j: nat, o: nat)
    requires d < n && limit > 0
    ensures d == j * limit + o && o < limit && j < CeilDiv(n, limit)
  {
    j, o := d / limit, d % limit;
    if CeilDiv(n, limit) < j { Gap(CeilDiv(n, limit), j, limit); }
  }
}
