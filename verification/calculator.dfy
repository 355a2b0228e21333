/** pkg/calculator/calculator.go: the four arithmetic operations, over
    Dafny's exact `real` instead of float64. */
module Calculator {
  import opened Wrappers

  /** The message of the error `Divide` returns. */
  const DivisionByZero := "division by zero"

  /** Go's `(float64, error)` result of `Divide`: a value always, and an
      error message when the division was refused. */
  datatype Quotient = Quotient(value: real, err: Option<string>)

  /** The sum: taking `b` away again gives `a`. */
  function Add(a: real, b: real): (r: real)
    ensures r - b == a
  {
    a + b
  }

  /** The difference: adding `b` back gives `a`. */
  function Subtract(a: real, b: real): (r: real)
    ensures r + b == a
  {
    a - b
  }

  /** The product: zero exactly when a factor is, and dividing it by a
      non-zero `b` gives `a` back. */
  function Multiply(a: real, b: real): (r: real)
    ensures r == 0.0 <==> a == 0.0 || b == 0.0
    ensures b != 0.0 ==> r / b == a
  {
    a * b
  }

  /** Division that refuses a zero divisor, returning 0 alongside the error. */
  function Divide(a: real, b: real): (q: Quotient)
    ensures q.err.Some? <==> b == 0.0
    ensures q.err.Some? ==> q.value == 0.0 && q.err.value == DivisionByZero
    ensures q.err.None? ==> Multiply(q.value, b) == a
  {
    if b == 0.0 then Quotient(0.0, Some(DivisionByZero))
    else Quotient(a / b, None)
  }

  /** `Subtract` undoes `Add`, and `Add` undoes `Subtract`. */
  lemma AddSubtractInverse(a: real, b: real)
    ensures Subtract(Add(a, b), b) == a
    ensures Add(Subtract(a, b), b) == a
  {
  }

  /** `Divide` undoes `Multiply` by any non-zero factor. */
  lemma MultiplyDivideInverse(a: real, b: real)
    requires b != 0.0
    ensures Divide(Multiply(a, b), b) == Quotient(a, None)
  {
  }

  /** The seventeen cases of calculator_test.go. */
  lemma CalculatorExamples()
    ensures Add(2.0, 3.0) == 5.0 && Add(-2.0, -3.0) == -5.0 && Add(-2.0, 3.0) == 1.0
    ensures Add(0.0, 0.0) == 0.0
    ensures Subtract(5.0, 3.0) == 2.0 && Subtract(-5.0, -3.0) == -2.0
    ensures Subtract(-5.0, 3.0) == -8.0 && Subtract(0.0, 0.0) == 0.0
    ensures Multiply(2.0, 3.0) == 6.0 && Multiply(-2.0, -3.0) == 6.0
    ensures Multiply(-2.0, 3.0) == -6.0 && Multiply(0.0, 5.0) == 0.0
    ensures Divide(6.0, 3.0) == Quotient(2.0, None)
    ensures Divide(-6.0, -3.0) == Quotient(2.0, None)
    ensures Divide(-6.0, 3.0) == Quotient(-2.0, None)
    ensures Divide(0.0, 5.0) == Quotient(0.0, None)
    ensures Divide(5.0, 0.0) == Quotient(0.0, Some("division by zero"))
  {
  }
}
