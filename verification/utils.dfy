/** Small arithmetic helpers of the router (`src/router/utils.hpp`) and the
    C++ integer division they rely on. */
module Utils {

  /** C++ `/` on `int`: the quotient is truncated toward zero, so its
      magnitude is the floor of the magnitudes' quotient and its sign is the
      product of the operands' signs. */
  function CDiv(a: int, b: int): (q: int)
    requires b != 0
    ensures a == 0 ==> q == 0
    ensures a != 0 ==> CAbs(q) == NatDiv(CAbs(a), CAbs(b))
    ensures q > 0 ==> (a > 0) == (b > 0)
    ensures q < 0 ==> (a > 0) != (b > 0)
  {
    var m: int := NatDiv(CAbs(a), CAbs(b));
    if a == 0 then 0 else if (a > 0) == (b > 0) then m else -m
  }

  function NatDiv(a: nat, b: nat): nat
    requires b > 0
  {
    a / b
  }

  function CAbs(a: int): nat { if a < 0 then -a else a }

  function Sum(v: seq<int>): int {
    if |v| == 0 then 0 else Sum(v[..|v| - 1]) + v[|v| - 1]
  }

  /** `average`: the sum divided by the element count with C++ truncation.
      An empty vector divides by zero, so the caller must pass a non-empty one. */
  function Average(v: seq<int>): (r: int)
    requires |v| > 0
    ensures Sum(v) != 0 ==> CAbs(r) == NatDiv(CAbs(Sum(v)), |v|)
    ensures r > 0 ==> Sum(v) > 0
    ensures r < 0 ==> Sum(v) < 0
  {
    CDiv(Sum(v), |v|)
  }

  lemma AverageExample()
    ensures Average([1, 2, 3, 4]) == 2
  {
    assert Sum([1, 2, 3, 4]) == 10 by {
      assert [1, 2, 3, 4][..3] == [1, 2, 3];
      assert [1, 2, 3][..2] == [1, 2];
      assert [1, 2][..1] == [1];
      assert [1][..0] == [];
    }
  }

  /** `sign(x)`: -1, 0 or 1 by the side of zero `x` is on. */
  function Sign(x: int): (s: int)
    ensures x < 0 ==> s == -1
    ensures x == 0 ==> s == 0
    ensures x > 0 ==> s == 1
  {
    if x < 0 then -1 else if x > 0 then 1 else 0
  }

  /** `randint(l, r)`: one draw of a uniform distribution on `[l, r]`. The
      model replaces the generator by an arbitrary `choice`; every choice
      yields a value in range and every value in range is some choice. */
  function RandInt(l: int, r: int, choice: nat): (v: int)
    requires l <= r
    ensures l <= v <= r
  {
    l + choice % (r - l + 1)
  }

  lemma RandIntCoversRange(l: int, r: int, v: int)
    requires l <= v <= r
    ensures exists choice: nat :: RandInt(l, r, choice) == v
  {
    var c: nat := v - l;
    assert RandInt(l, r, c) == v;
  }

  /** `randint(n)` is `randint(0, n - 1)`. */
  function RandIntN(n: int, choice: nat): (v: int)
    requires n >= 1
    ensures 0 <= v < n
  {
    RandInt(0, n - 1, choice)
  }

  /** A tie-break `randint<int>(0, 1)` used as a boolean. */
  function Coin(choice: nat): bool {
    RandInt(0, 1, choice) == 1
  }

  /** Both outcomes of the tie-break can be drawn, so a boolean tie-break
      parameter in place of the draw allows exactly what the generator
      allows. */
  lemma CoinCovers(b: bool)
    ensures !Coin(0) && Coin(1)
    ensures exists choice: nat :: Coin(choice) == b
  {
    var c: nat := if b then 1 else 0;
    assert Coin(c) == b;
  }
}
