/** `Calculator` and its unit tests (Books/Python/PythonCrashCourse/testing/test.py).
    Arguments are integers, as in the tests; `divide` is Python's true
    division, whose exact value is a rational number. */
module Calculator {
  import opened Wrappers

  function Add(a: int, b: int): int { a + b }

  function Subtract(a: int, b: int): int { a - b }

  function Multiply(a: int, b: int): int { a * b }

  datatype DivideError = DivisionByZero

  /** `divide`: `ValueError` for a zero divisor, else the quotient. */
  function Divide(a: int, b: int): (r: Result<real, DivideError>)
    ensures r.Err? <==> b == 0
    ensures r.Ok? ==> r.value * b as real == a as real
  {
    if b == 0 then Err(DivisionByZero) else Ok(a as real / b as real)
  }

  /** Division undoes multiplication by a non-zero factor. */
  lemma Inverses(a: int, b: int)
    ensures b != 0 ==> Divide(Multiply(a, b), b) == Ok(a as real)
  {
    if b != 0 {
      var q := Divide(Multiply(a, b), b).value;
      assert q * b as real == a as real * b as real;
    }
  }

  /** When `b` divides `a` the quotient is the exact integer quotient. */
  lemma DivideExact(a: int, b: int, k: int)
    requires b != 0 && a == k * b
    ensures Divide(a, b) == Ok(k as real)
  {
    Inverses(k, b);
  }

  /** The assertions of `TestCalculator`. */
  lemma TestCalculator()
    ensures Add(2, 3) == 5 && Add(-1, 1) == 0 && Add(0, 0) == 0
    ensures Subtract(5, 3) == 2 && Subtract(0, 5) == -5 && Subtract(10, 10) == 0
    ensures Multiply(3, 4) == 12 && Multiply(5, 0) == 0 && Multiply(-2, 3) == -6
    ensures Divide(10, 2) == Ok(5.0) && Divide(9, 3) == Ok(3.0) && Divide(5, 2) == Ok(2.5)
    ensures Divide(10, 0).Err?
  {
    DivideExact(10, 2, 5);
    DivideExact(9, 3, 3);
  }
}
