/** Division as counting down: how the loops over blocks and pieces keep count. */
module Division {

  function Min(a: nat, b: nat): nat {
    if a < b then a else b
  }

  lemma DivStep(x: nat, d: nat)
    requires 0 < d <= x
    ensures x / d == (x - d) / d + 1 && x % d == (x - d) % d
  {
    DivUnique(x, d, (x - d) / d + 1, (x - d) % d);
  }

  lemma DivUnique(x: nat, d: nat, q: nat, r: nat)
    requires 0 < d && x == q * d + r && r < d
    ensures x / d == q && x % d == r
  {
    var p := x / d - q;
    assert p * d == r - x % d;
    assert p >= 1 ==> p * d >= d;
    assert p <= -1 ==> p * d + d <= 0;
  }

  lemma WholeLeft(rest: nat, d: nat)
    requires d > 0 && rest / d > 0
    ensures rest >= d
  {
    if rest < d {
      DivUnique(rest, d, 0, rest);
    }
  }

  lemma PartialLeft(rest: nat, d: nat)
    requires d > 0 && rest / d == 0
    ensures rest == rest % d && rest < d
  {
    assert rest == d * (rest / d) + rest % d;
  }
}
