/**
  The numeric helpers of the trading bot: rounding a quantity down to an exchange step,
  checking that a reply holds a non-empty dict or list, and a `float()` that never raises.
  Quantities are exact reals, as the helper does its arithmetic in `decimal.Decimal`.
 */
module TradeUtils {
  import opened Wrappers
  import opened Json

  /** The integer part of `x`, rounding toward zero (Decimal's integer division). */
  function Trunc(x: real): (n: int)
    ensures x >= 0.0 ==> n as real <= x < n as real + 1.0
    ensures x < 0.0 ==> n as real - 1.0 < x <= n as real
  {
    if x >= 0.0 then x.Floor else -((-x).Floor)
  }

  /**
    `quantity - quantity % step` in Decimal: Decimal's remainder keeps the sign of the
    dividend, so the result is `step` times the truncated quotient. A zero step makes
    Decimal raise InvalidOperation.
   */
  function RoundStepSize(quantity: real, step: real): (r: Result<real, Exc>)
    ensures r.Failure? <==> step == 0.0
    ensures r.Failure? ==> r.error == InvalidOperation
  {
    if step == 0.0 then Failure(InvalidOperation)
    else Success(step * Trunc(quantity / step) as real)
  }

  /** `x` is a whole multiple of a non-zero `step`. */
  predicate MultipleOf(x: real, step: real)
    requires step != 0.0
  {
    (x / step).Floor as real == x / step
  }

  /** For a non-negative quantity and a positive step the result rounds down to the step grid. */
  lemma RoundStepSizeBounds(quantity: real, step: real)
    requires quantity >= 0.0 && step > 0.0
    ensures RoundStepSize(quantity, step).Success?
    ensures MultipleOf(RoundStepSize(quantity, step).value, step)
    ensures 0.0 <= RoundStepSize(quantity, step).value <= quantity
    ensures quantity - RoundStepSize(quantity, step).value < step
  {
    var k := Trunc(quantity / step);
    assert RoundStepSize(quantity, step).value == step * (k as real);
    TruncBounds(quantity, step, k);
    ScaledMultiple(step, k);
  }

  /** The whole steps `k` in a non-negative quantity fill it to within one step. */
  lemma TruncBounds(q: real, s: real, k: int)
    requires q >= 0.0 && s > 0.0 && k == Trunc(q / s)
    ensures 0.0 <= s * (k as real) <= q
    ensures q - s * (k as real) < s
  {
    var y := q / s;
    QuotientNonNegative(q, s);
    assert k as real <= y < k as real + 1.0;
    ScaleBetween(s, k as real, y, q);
  }

  /** The quotient of a non-negative quantity by a positive step. */
  lemma QuotientNonNegative(q: real, s: real)
    requires q >= 0.0 && s > 0.0
    ensures q / s >= 0.0 && s * (q / s) == q
  {
  }

  /** Scaling `0 <= k <= y < k + 1` by a positive step `s`, where `s * y == q`. */
  lemma ScaleBetween(s: real, k: real, y: real, q: real)
    requires s > 0.0 && 0.0 <= k <= y < k + 1.0 && s * y == q
    ensures 0.0 <= s * k <= q
    ensures q - s * k < s
  {
    MulMonotone(s, 0.0, k);
    assert s * 0.0 == 0.0;
    MulMonotone(s, k, y);
    MulStrict(s, y, k + 1.0);
    assert s * (k + 1.0) == s * k + s;
    assert q < s * k + s;
  }

  /** A whole number of steps is on the step grid. */
  lemma ScaledMultiple(s: real, k: int)
    requires s != 0.0
    ensures MultipleOf(s * k as real, s)
  {
    assert (s * k as real) / s == k as real;
    assert (k as real).Floor == k;
  }

  lemma MulMonotone(s: real, a: real, b: real)
    requires s > 0.0 && a <= b
    ensures s * a <= s * b
  {
    assert s * b - s * a == s * (b - a);
  }

  lemma MulStrict(s: real, a: real, b: real)
    requires s > 0.0 && a < b
    ensures s * a < s * b
  {
    assert s * b - s * a == s * (b - a);
  }

  /** A quantity already on the step grid is left unchanged: rounding twice is rounding once. */
  lemma RoundStepSizeIdempotent(quantity: real, step: real)
    requires step != 0.0
    ensures RoundStepSize(RoundStepSize(quantity, step).value, step) == RoundStepSize(quantity, step)
  {
    var k := Trunc(quantity / step);
    var kr := k as real;
    var r := step * kr;
    assert RoundStepSize(quantity, step).value == r;
    assert r / step == kr;
    assert Trunc(r / step) == k;
    assert RoundStepSize(r, step).value == step * (Trunc(r / step) as real);
    assert step * (Trunc(r / step) as real) == r;
    assert RoundStepSize(r, step).Success?;
  }

  /** The kinds `isinstance` is asked about: `dict` or `list`. */
  datatype PyType = DictType | ListType

  /** `isinstance(v, t)` for a dict or list type. */
  predicate HasType(v: Json, t: PyType) {
    match t
    case DictType => v.Obj?
    case ListType => v.Arr?
  }

  /**
    `isinstance(data, type_data) and len(data) > 0`; on a dict or list Python's
    `bool(v)` agrees with `len(v) > 0`.
   */
  function ProofResult(data: Json, t: PyType): (ok: bool)
    ensures ok <==> HasType(data, t) && Truthy(data)
  {
    match data
    case Obj(m) => t == DictType && |m| > 0
    case Arr(a) => t == ListType && |a| > 0
    case _ => false
  }

  /** `float(value)`, with `''`, `None` and every value `float` rejects mapped to 0.0. */
  function SafeFloat(value: Json): (r: real)
    ensures PyFloat(value).Success? ==> r == PyFloat(value).value
    ensures PyFloat(value).Failure? ==> r == 0.0
  {
    if value == Str("") || value == Null then 0.0
    else
      match PyFloat(value)
      case Success(x) => x
      case Failure(_) => 0.0
  }
}
