/** Values shared by the other modules. */
module Options {
  datatype Option<+T> = None | Some(value: T)

  function Min(a: int, b: int): int {
    if a < b then a else b
  }

  function Pow2(n: nat): (r: nat)
    ensures r > 0
  {
    if n == 0 then 1 else 2 * Pow2(n - 1)
  }

  lemma DivIs(i: int, p: int, h: int, r: int)
    requires p > 0 && i == h * p + r && 0 <= r < p
    ensures i / p == h
  {
    Euclid(i, p);
    var k := i / p;
    assert (h + 1) * p == h * p + p && (k + 1) * p == k * p + p;
    if k > h { Mono(h + 1, k, p); }
    if k < h { Mono(k + 1, h, p); }
  }

  lemma Euclid(i: int, p: int)
    requires p > 0
    ensures i == i / p * p + i % p && 0 <= i % p < p
  {
  }

  lemma Mono(x: int, y: int, p: int)
    requires x <= y && p >= 0
    ensures x * p <= y * p
  {
  }
}
