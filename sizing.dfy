/**
  Position sizing by risk: the money at risk divided by the pip distance to the stop
  times the value of a pip, with the EURUSD constants of the bot.
*/
module Sizing {

  /** Price units per pip. */
  const PipScale: real := 10000.0
  /** Account currency per pip for one standard lot. */
  const PipValue: real := 10.0

  function Abs(x: real): real {
    if x < 0.0 then -x else x
  }

  /** Distance from entry to stop, in pips. */
  function PipsAtRisk(entry: real, stop: real): real {
    Abs(entry - stop) * PipScale
  }

  /** The money the trade may lose: `riskPercent` percent of the balance. */
  function RiskAmount(balance: real, riskPercent: real): real {
    balance * (riskPercent / 100.0)
  }

  /**
    The position size in lots, before rounding to two decimals: the size at which
    hitting the stop loses exactly the risk amount.
  */
  function PositionSize(balance: real, riskPercent: real, entry: real, stop: real): (q: real)
    requires entry != stop
    ensures q * (PipsAtRisk(entry, stop) * PipValue) == RiskAmount(balance, riskPercent)
  {
    RiskAmount(balance, riskPercent) / (PipsAtRisk(entry, stop) * PipValue)
  }

  /** The size sent with an order: JavaScript gives a non-finite number when entry equals stop. */
  datatype Qty = Lots(size: real) | NotFinite

  function Quantity(balance: real, riskPercent: real, entry: real, stop: real): (q: Qty)
    ensures q.Lots? <==> entry != stop
    ensures q.Lots? ==> q.size * (PipsAtRisk(entry, stop) * PipValue) == RiskAmount(balance, riskPercent)
  {
    if entry == stop then NotFinite else Lots(PositionSize(balance, riskPercent, entry, stop))
  }

  /** The size depends on entry and stop only through their distance. */
  lemma SizeDependsOnDistanceOnly(balance: real, riskPercent: real, e1: real, s1: real, e2: real, s2: real)
    requires e1 != s1 && Abs(e1 - s1) == Abs(e2 - s2)
    ensures e2 != s2
    ensures PositionSize(balance, riskPercent, e1, s1) == PositionSize(balance, riskPercent, e2, s2)
  {
  }

  /** Swapping entry and stop gives the same size. */
  lemma SizeSymmetric(balance: real, riskPercent: real, entry: real, stop: real)
    requires entry != stop
    ensures PositionSize(balance, riskPercent, entry, stop) == PositionSize(balance, riskPercent, stop, entry)
  {
    SizeDependsOnDistanceOnly(balance, riskPercent, entry, stop, stop, entry);
  }

  /** With money at risk, a wider stop gives a strictly smaller position. */
  lemma SizeShrinksWithDistance(balance: real, riskPercent: real, e1: real, s1: real, e2: real, s2: real)
    requires balance > 0.0 && riskPercent > 0.0
    requires e1 != s1 && Abs(e1 - s1) < Abs(e2 - s2)
    ensures e2 != s2
    ensures PositionSize(balance, riskPercent, e2, s2) < PositionSize(balance, riskPercent, e1, s1)
  {
    var r := RiskAmount(balance, riskPercent);
    var d1 := PipsAtRisk(e1, s1) * PipValue;
    var d2 := PipsAtRisk(e2, s2) * PipValue;
    assert 0.0 < r;
    assert 0.0 < d1 < d2;
    assert r / d2 < r / d1 by {
      assert r / d2 * d2 == r && r / d1 * d1 == r;
      assert r / d2 * d1 < r / d2 * d2;
    }
  }

  /** Balance 10000, risk 1%, entry 1.1000, stop 1.0950: 50 pips, 100 at risk, 0.2 lots. */
  lemma SizeExample()
    ensures PipsAtRisk(1.1000, 1.0950) == 50.0
    ensures RiskAmount(10000.0, 1.0) == 100.0
    ensures PositionSize(10000.0, 1.0, 1.1000, 1.0950) == 0.2
  {
  }
}
