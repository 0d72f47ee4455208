/** Integer division and modulus of 64-bit integers (src/lvm.c). */
module IntegerDivision {
  import opened LuaValues

  /** Two's complement: the integer with the same low 64 bits. */
  function Wrap(x: int): (r: int)
    ensures MIN_INTEGER <= r <= MAX_INTEGER && (r - x) % 0x1_0000_0000_0000_0000 == 0
    ensures MIN_INTEGER <= x <= MAX_INTEGER ==> r == x
  {
    (x - MIN_INTEGER) % 0x1_0000_0000_0000_0000 + MIN_INTEGER
  }

  /** Division as C does it: towards zero, the remainder with the sign of `m`. */
  function CDiv(m: int, n: int): int
    requires n != 0
  {
    var q := Abs(m) / Abs(n);
    if (m < 0) == (n < 0) then q else -q
  }

  function CMod(m: int, n: int): int
    requires n != 0
  {
    var r := Abs(m) % Abs(n);
    if m < 0 then -r else r
  }

  function Abs(x: int): nat {
    if x < 0 then -x else x
  }

  datatype Result = Ok(value: int) | DivideByZero

  /** The C operators are not applied where they would overflow. */
  predicate CanDivide(m: int, n: int) {
    n != 0 && n != -1
  }

  function Div(m: int, n: int): Result {
    if n == 0 then DivideByZero
    else if n == -1 then Ok(Wrap(0 - m))
    else
      assert CanDivide(m, n);
      var q := CDiv(m, n);
      Ok(if (m < 0) != (n < 0) && CMod(m, n) != 0 then q - 1 else q)
  }

  function Mod(m: int, n: int): Result {
    if n == 0 then DivideByZero
    else if n == -1 then Ok(0)
    else
      assert CanDivide(m, n);
      var r := CMod(m, n);
      Ok(if r != 0 && (m < 0) != (n < 0) then r + n else r)
  }

  /** `q` is the floor of m / n, and `r` what remains, with the sign of n. */
  predicate IsFloor(m: int, n: int, q: int, r: int) {
    m == n * q + r && (if n > 0 then 0 <= r < n else n < r <= 0)
  }

  /** There is only one such pair. */
  lemma FloorUnique(m: int, n: int, q: int, r: int, q': int, r': int)
    requires n != 0 && IsFloor(m, n, q, r) && IsFloor(m, n, q', r')
    ensures q == q' && r == r'
  {
    assert n * (q - q') == r' - r;
    if q > q' { Multiples(n, q - q'); }
    if q < q' { Multiples(n, q' - q); }
  }

  lemma Multiples(n: int, k: int)
    requires k >= 1
    ensures if n >= 0 then n * k >= n else n * k <= n
  {
  }

  /** Division and modulus are floor and remainder; only the one quotient that is no
      integer of 64 bits wraps around. */
  lemma DivModExact(m: int, n: int)
    requires MIN_INTEGER <= m <= MAX_INTEGER && MIN_INTEGER <= n <= MAX_INTEGER && n != 0
    ensures Div(m, n).Ok? && Mod(m, n).Ok?
    ensures if m == MIN_INTEGER && n == -1 then Div(m, n).value == MIN_INTEGER && Mod(m, n).value == 0
            else IsFloor(m, n, Div(m, n).value, Mod(m, n).value)
    ensures MIN_INTEGER <= Div(m, n).value <= MAX_INTEGER && MIN_INTEGER <= Mod(m, n).value <= MAX_INTEGER
  {
    if n != -1 {
      var a, b := Abs(m), Abs(n);
      Division(a, b);
      FloorOfSigns(m, n, a / b, a % b);
    }
  }

  lemma Division(a: nat, b: nat)
    requires b > 0
    ensures a == b * (a / b) + a % b && 0 <= a / b <= a && (b > 1 ==> 2 * (a / b) <= a)
  {
    if b > 1 && a / b > 0 { Multiples(a / b, b); TwoTimes(a / b, b); }
  }

  lemma TwoTimes(x: nat, b: nat)
    requires b >= 2
    ensures 2 * x <= b * x
  {
  }

  lemma FloorOfSigns(m: int, n: int, q: int, r: int)
    requires n != 0 && Abs(m) == Abs(n) * q + r && 0 <= r < Abs(n)
    ensures var q' := if (m < 0) == (n < 0) then q else -q;
            var r' := if m < 0 then -r else r;
            if (m < 0) != (n < 0) && r' != 0 then IsFloor(m, n, q' - 1, r' + n) else IsFloor(m, n, q', r')
  {
    Signs(n, q);
  }

  lemma Signs(n: int, q: int)
    ensures (-n) * q == -(n * q) && n * (-q) == -(n * q) && n * (-q - 1) == -(n * q) - n && n * (q - 1) == n * q - n
  {
  }
}
