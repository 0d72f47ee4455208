/** Powers. */
module Powers {

  function Power(base: nat, n: nat): (r: nat)
    ensures base > 0 ==> r > 0
  {
    if n == 0 then 1 else base * Power(base, n - 1)
  }

  function Pow2(n: nat): (r: nat)
    ensures r >= n + 1
  {
    PowerOfTwo(n);
    Power(2, n)
  }

  lemma {:induction false} PowerOfTwo(n: nat)
    ensures Power(2, n) >= n + 1
  {
    if n > 0 { PowerOfTwo(n - 1); }
  }
}
