/** The comparison shown after a simulation: scenario A pays a 25% tax on
    the gross value at the future price, scenario B pays none. Both report
    a net value, a return on investment and a compound annual growth rate. */
module Scenarios {

  /** The tax scenario A pays on its gross value. */
  const TaxRate: real := 0.25

  /** `calculate_cagr`. Only its guard is modelled: the growth branch,
      `(pow(final / initial, 1 / years) - 1) * 100`, needs a fractional power,
      so it is kept as the ratio and the number of years it would be taken of. */
  datatype Cagr = NoGrowth | Growth(ratio: real, years: real)

  function CalculateCagr(initialValue: real, finalValue: real, years: real): (c: Cagr)
    ensures c.NoGrowth? <==> initialValue <= 0.0 || years <= 0.0
    ensures c.Growth? ==> c.years == years && c.ratio * initialValue == finalValue
  {
    if initialValue <= 0.0 || years <= 0.0 then NoGrowth
    else Growth(finalValue / initialValue, years)
  }

  /** Return on investment in percent, 0 when nothing was invested. */
  function Roi(netValue: real, invested: real): (roi: real)
    ensures invested <= 0.0 ==> roi == 0.0
    ensures invested > 0.0 ==> netValue == invested + invested * roi / 100.0
  {
    if invested > 0.0 then (netValue - invested) / invested * 100.0 else 0.0
  }

  /** A gain is a positive return and a loss a negative one. */
  lemma RoiSign(netValue: real, invested: real)
    requires invested > 0.0
    ensures Roi(netValue, invested) > 0.0 <==> netValue > invested
    ensures Roi(netValue, invested) == 0.0 <==> netValue == invested
  {
    var roi := Roi(netValue, invested);
    assert netValue - invested == invested * roi / 100.0;
    if roi > 0.0 {
      assert invested * roi > 0.0;
    } else if roi < 0.0 {
      assert invested * -roi > 0.0;
    }
  }

  /** A larger net value on the same investment is a larger return. */
  lemma RoiMonotone(net1: real, net2: real, invested: real)
    requires invested > 0.0 && net1 <= net2
    ensures Roi(net1, invested) <= Roi(net2, invested)
    ensures net1 < net2 ==> Roi(net1, invested) < Roi(net2, invested)
  {
    var r1 := Roi(net1, invested);
    var r2 := Roi(net2, invested);
    assert invested * (r2 - r1) / 100.0 == net2 - net1;
  }

  /** One column of the comparison. */
  datatype Scenario = Scenario(gross: real, taxes: real, net: real, roi: real, cagr: Cagr)

  /** Scenario A: the bitcoin bought is sold at the future price and taxed. */
  function ScenarioA(btc: real, futurePrice: real, invested: real, years: real): (s: Scenario)
    ensures s.gross == btc * futurePrice
    ensures s.taxes == TaxRate * s.gross && s.net + s.taxes == s.gross
    ensures s.roi == Roi(s.net, invested) && s.cagr == CalculateCagr(invested, s.net, years)
  {
    var gross := btc * futurePrice;
    var taxes := gross * TaxRate;
    var net := gross - taxes;
    Scenario(gross, taxes, net, Roi(net, invested), CalculateCagr(invested, net, years))
  }

  /** Scenario B: the same bitcoin at the same price, untaxed. */
  function ScenarioB(btc: real, futurePrice: real, invested: real, years: real): (s: Scenario)
    ensures s.gross == btc * futurePrice
    ensures s.taxes == 0.0 && s.net == s.gross
    ensures s.roi == Roi(s.net, invested) && s.cagr == CalculateCagr(invested, s.net, years)
  {
    var gross := btc * futurePrice;
    Scenario(gross, 0.0, gross, Roi(gross, invested), CalculateCagr(invested, gross, years))
  }

  /** What scenario B keeps over scenario A. */
  function Difference(btc: real, futurePrice: real, invested: real, years: real): (d: real)
    ensures d == ScenarioA(btc, futurePrice, invested, years).taxes
  {
    ScenarioB(btc, futurePrice, invested, years).net - ScenarioA(btc, futurePrice, invested, years).net
  }

  /** Both scenarios value the same bitcoin at the same price, and the whole
      difference between them is scenario A's tax: a quarter of the gross value. */
  lemma DifferenceIsTax(btc: real, futurePrice: real, invested: real, years: real)
    ensures ScenarioA(btc, futurePrice, invested, years).gross == ScenarioB(btc, futurePrice, invested, years).gross
    ensures Difference(btc, futurePrice, invested, years) == 0.25 * ScenarioB(btc, futurePrice, invested, years).gross
    ensures ScenarioA(btc, futurePrice, invested, years).net == 0.75 * ScenarioB(btc, futurePrice, invested, years).gross
  {
  }

  /** With no negative holdings or prices, scenario B is never worse than
      scenario A, in net value, in return and in growth ratio. */
  lemma UntaxedNeverWorse(btc: real, futurePrice: real, invested: real, years: real)
    requires btc >= 0.0 && futurePrice >= 0.0
    ensures ScenarioA(btc, futurePrice, invested, years).net <= ScenarioB(btc, futurePrice, invested, years).net
    ensures ScenarioA(btc, futurePrice, invested, years).roi <= ScenarioB(btc, futurePrice, invested, years).roi
    ensures ScenarioA(btc, futurePrice, invested, years).cagr.Growth? <==> ScenarioB(btc, futurePrice, invested, years).cagr.Growth?
    ensures ScenarioA(btc, futurePrice, invested, years).cagr.Growth? ==>
      ScenarioA(btc, futurePrice, invested, years).cagr.ratio <= ScenarioB(btc, futurePrice, invested, years).cagr.ratio
  {
    var a := ScenarioA(btc, futurePrice, invested, years);
    var b := ScenarioB(btc, futurePrice, invested, years);
    DifferenceIsTax(btc, futurePrice, invested, years);
    assert b.gross >= 0.0;
    if invested > 0.0 {
      RoiMonotone(a.net, b.net, invested);
      if years > 0.0 {
        assert (b.cagr.ratio - a.cagr.ratio) * invested == b.net - a.net;
      }
    }
  }
}
