/** Saturating arithmetic on signed machine integers (modula/Components/Include/SafeOps.h)
    and the generator of request handles built on it (modula/CoreModules/AuxRoutines). */
module SafeOps {
  datatype OperationStatus = SUCCESS | OVERFLOW | UNDERFLOW

  datatype Outcome = Outcome(value: int, status: OperationStatus)

  /** A signed type is given by its largest value; its smallest is one further from zero. */
  predicate Representable(max: int, x: int) {
    -max - 1 <= x <= max
  }

  /** Division as the language does it, towards zero. */
  function Quotient(a: int, b: int): int
    requires b != 0
  {
    if (a >= 0) == (b > 0) then Abs(a) / Abs(b) else -(Abs(a) / Abs(b))
  }

  function Abs(x: int): nat {
    if x < 0 then -x else x
  }

  /** What a saturating operation owes for the exact result `exact`. */
  function Saturated(max: int, exact: int): Outcome {
    if exact > max then Outcome(max, OVERFLOW)
    else if exact < -max - 1 then Outcome(-max - 1, UNDERFLOW)
    else Outcome(exact, SUCCESS)
  }

  function Add(max: int, a: int, b: int): (r: Outcome)
    requires max > 0 && Representable(max, a) && Representable(max, b)
    ensures r == Saturated(max, a + b)
    ensures -max - 1 <= a + b <= max ==> r == Outcome(a + b, SUCCESS)
    ensures a + b > max ==> r == Outcome(max, OVERFLOW)
    ensures a + b < -max - 1 ==> r == Outcome(-max - 1, UNDERFLOW)
  {
    var lowest := -max - 1;
    if a >= 0 && b >= 0 && max - a < b then Outcome(max, OVERFLOW)
    else if a < 0 && b < 0 && lowest - a > b then Outcome(lowest, UNDERFLOW)
    else Outcome(a + b, SUCCESS)
  }

  function Subtract(max: int, a: int, b: int): (r: Outcome)
    requires max > 0 && Representable(max, a) && Representable(max, b)
    ensures r == Saturated(max, a - b)
    ensures -max - 1 <= a - b <= max ==> r == Outcome(a - b, SUCCESS)
    ensures a - b > max ==> r == Outcome(max, OVERFLOW)
    ensures a - b < -max - 1 ==> r == Outcome(-max - 1, UNDERFLOW)
  {
    var lowest := -max - 1;
    if a >= 0 && b < 0 && a - max > b then Outcome(max, OVERFLOW)
    else if a < 0 && b >= 0 && a - lowest < b then Outcome(lowest, UNDERFLOW)
    else Outcome(a - b, SUCCESS)
  }

  function Multiply(max: int, a: int, b: int): Outcome
    requires max > 0 && Representable(max, a) && Representable(max, b)
  {
    var lowest := -max - 1;
    if a > 0 && b > 0 && Quotient(max, a) < b then Outcome(max, OVERFLOW)
    else if a < 0 && b < 0 && Quotient(max, a) > b then Outcome(max, OVERFLOW)
    else if a > 0 && b < 0 && Quotient(lowest, a) > b then Outcome(lowest, UNDERFLOW)
    else if a < 0 && b > 0 && Quotient(lowest, a) < b then Outcome(lowest, UNDERFLOW)
    else Outcome(a * b, SUCCESS)
  }

  lemma ProductsOrder(d: nat, x: nat, y: nat)
    requires x <= y
    ensures d * x <= d * y
  {
  }

  lemma QuotientBelowIff(n: nat, d: nat, x: nat)
    requires d > 0
    ensures n / d < x <==> d * x > n
  {
    var q := n / d;
    assert d * q <= n < d * (q + 1);
    if q < x { ProductsOrder(d, q + 1, x); } else { ProductsOrder(d, x, q); }
  }

  lemma SignsMultiply(a: int, b: int)
    ensures Abs(a) * Abs(b) == if (a >= 0) == (b >= 0) then a * b else -(a * b)
  {
  }

  /** The four guards of the product catch exactly the products that do not fit. */
  lemma MultiplySaturates(max: int, a: int, b: int)
    requires max > 0 && Representable(max, a) && Representable(max, b)
    ensures Multiply(max, a, b) == Saturated(max, a * b)
    ensures -max - 1 <= a * b <= max ==> Multiply(max, a, b) == Outcome(a * b, SUCCESS)
    ensures a * b > max ==> Multiply(max, a, b) == Outcome(max, OVERFLOW)
    ensures a * b < -max - 1 ==> Multiply(max, a, b) == Outcome(-max - 1, UNDERFLOW)
  {
    SignsMultiply(a, b);
    if a != 0 {
      QuotientBelowIff(max, Abs(a), Abs(b));
      QuotientBelowIff(max + 1, Abs(a), Abs(b));
    }
  }

  /** The arithmetic the guards evaluate before they compare, in the branch the signs pick. */
  function AddGuard(max: int, a: int, b: int): int {
    if a >= 0 && b >= 0 then max - a else if a < 0 && b < 0 then -max - 1 - a else 0
  }

  function SubtractGuard(max: int, a: int, b: int): int {
    if a >= 0 && b < 0 then a - max else if a < 0 && b >= 0 then a + max + 1 else 0
  }

  function MultiplyGuard(max: int, a: int, b: int): int {
    if (a > 0 && b > 0) || (a < 0 && b < 0) then Quotient(max, a)
    else if (a > 0 && b < 0) || (a < 0 && b > 0) then Quotient(-max - 1, a)
    else 0
  }

  lemma ProductGrows(d: nat, x: nat)
    requires d > 0
    ensures d * x >= x && (d > 1 && x > 0 ==> d * x > x)
  {
    assert d * x == x + (d - 1) * x;
  }

  lemma QuotientShrinks(n: nat, d: nat)
    requires d > 0
    ensures 0 <= n / d <= n && (d > 1 && n > 0 ==> n / d < n)
  {
    QuotientBelowIff(n, d, n + 1);
    ProductGrows(d, n + 1);
    QuotientBelowIff(n, d, n);
    ProductGrows(d, n);
  }

  lemma MaxQuotientFits(max: int, a: int)
    requires max > 0 && a != 0
    ensures Representable(max, Quotient(max, a))
  {
    QuotientShrinks(max, Abs(a));
    assert Abs(max) == max && Abs(Quotient(max, a)) == max / Abs(a);
  }

  lemma LowestQuotientFitsIff(max: int, a: int)
    requires max > 0 && a != 0
    ensures Representable(max, Quotient(-max - 1, a)) <==> a != -1
  {
    QuotientShrinks(max + 1, Abs(a));
  }

  /** The guards themselves stay in range, with one exception: a product with minus one on
      the left and a positive right factor divides the smallest value by minus one. */
  lemma GuardsFitIff(max: int, a: int, b: int)
    requires max > 0 && Representable(max, a) && Representable(max, b)
    ensures Representable(max, AddGuard(max, a, b)) && Representable(max, SubtractGuard(max, a, b))
    ensures Representable(max, MultiplyGuard(max, a, b)) <==> !(a == -1 && b > 0)
  {
    if a != 0 {
      MaxQuotientFits(max, a);
      LowestQuotientFitsIff(max, a);
    }
  }

  const INT64_MAX := 0x7FFF_FFFF_FFFF_FFFF

  class HandleGenerator {
    var handleGenerator: int
    /** Every handle ever given out. */
    ghost var issued: set<int>

    ghost predicate Valid()
      reads this
    {
      0 <= handleGenerator <= INT64_MAX && forall h :: h in issued ==> 0 < h <= handleGenerator
    }

    constructor ()
      ensures Valid() && issued == {}
    {
      handleGenerator, issued := 0, {};
    }

    /** A handle above all earlier ones, or -1 when the numbers have run out. */
    method GenerateUniqueHandle() returns (handle: int)
      requires Valid()
      modifies this
      ensures Valid() && (handle == -1 <==> old(handleGenerator) == INT64_MAX)
      ensures handle == -1 ==> issued == old(issued) && handleGenerator == old(handleGenerator)
      ensures handle != -1 ==> handle == handleGenerator == old(handleGenerator) + 1 && issued == old(issued) + {handle}
      ensures handle !in old(issued) && forall h :: h in old(issued) && handle != -1 ==> h < handle
    {
      var nextHandle := Add(INT64_MAX, handleGenerator, 1);
      if nextHandle.status == SUCCESS {
        handleGenerator := nextHandle.value;
        issued := issued + {nextHandle.value};
        return nextHandle.value;
      }
      return -1;
    }
  }
}
