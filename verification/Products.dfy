/** Products of naturals under a name, so that proofs can treat them as opaque. */
module Products {
  const MIB: int := 1024 * 1024

  function Min(a: nat, b: nat): nat { if a < b then a else b }

  function Times(a: nat, b: nat): nat { a * b }

  lemma TimesStep(a: nat, b: nat)
    ensures Times(a + 1, b) == Times(a, b) + b && Times(0, b) == 0
  {
  }

  lemma {:induction false} TimesMonotone(a: nat, a': nat, b: nat)
    ensures a <= a' ==> Times(a, b) <= Times(a', b)
    decreases a'
  {
    if a < a' {
      hide Times;
      TimesStep(a' - 1, b);
      TimesMonotone(a, a' - 1, b);
    }
  }

  lemma TimesMinus(a: nat, a': nat, b: nat)
    requires a <= a'
    ensures Times(a' - a, b) == Times(a', b) - Times(a, b)
  {
  }

  lemma TimesAssociates(a: nat, b: nat, c: nat)
    ensures Times(a, Times(b, c)) == Times(Times(a, b), c)
  {
  }

  lemma DivTimes(x: nat, g: nat)
    requires g > 0
    ensures x == Times(x / g, g) + x % g && 0 <= x % g < g
  {
  }
}
