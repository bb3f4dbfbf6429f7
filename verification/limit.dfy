/**
  The inclusive ranges a user may enter for the numeric trade settings, looked up by
  attribute name on the `Limit` class.
 */
module Limit {
  /** An inclusive range `(min, max)`. */
  datatype Range = Range(lo: int, hi: int)

  const Leverage: Range := Range(1, 20)
  const Balance: Range := Range(30, 70)
  const TakeProfit: Range := Range(5, 30)
  const Size: Range := Range(1, 5)

  /** The range returned when the class has no attribute of that name. */
  const Absent: Range := Range(0, 0)

  /**
    `getattr(Limit, name, (0, 0))` for a name the caller has already upper-cased: of the
    class attributes only the four ranges have upper-case names, so every other name
    falls back to `(0, 0)`.
   */
  function Attribute(name: string): (r: Range)
    ensures name == "LEVERAGE" ==> r == Leverage
    ensures name == "BALANCE" ==> r == Balance
    ensures name == "TAKE_PROFIT" ==> r == TakeProfit
    ensures name == "SIZE" ==> r == Size
    ensures name !in {"LEVERAGE", "BALANCE", "TAKE_PROFIT", "SIZE"} ==> r == Absent
  {
    if name == "LEVERAGE" then Leverage
    else if name == "BALANCE" then Balance
    else if name == "TAKE_PROFIT" then TakeProfit
    else if name == "SIZE" then Size
    else Absent
  }

  /** Every declared range is non-empty with min strictly below max; the fallback admits only 0. */
  lemma RangesOrdered(name: string)
    ensures name in {"LEVERAGE", "BALANCE", "TAKE_PROFIT", "SIZE"} ==> Attribute(name).lo < Attribute(name).hi
    ensures name !in {"LEVERAGE", "BALANCE", "TAKE_PROFIT", "SIZE"} ==> Attribute(name).lo == Attribute(name).hi == 0
  {
  }
}
