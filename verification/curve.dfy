/** The empirical performance curve of one turbine: inflow wind speed (m/s)
    to thrust coefficient and electrical power (W). Coefficients are those of
    the reference turbine fit, written exactly as reals. */
module Curve {

  /** One evaluation of the curve: thrust coefficient and power. */
  datatype Sample = Sample(ct: real, power: real)

  /** Speed below which the turbine is parked. */
  const CutIn: real := 4.0
  /** Last speed on the partial-load power polynomial. */
  const RatedSpeed: real := 10.0
  /** Last speed at which the turbine operates. */
  const CutOut: real := 25.0
  /** Thrust coefficient reported while parked. */
  const IdleCt: real := 0.1

  /** Horner evaluation of the polynomial whose first `n` coefficients,
      highest degree first, are `cs[..n]`. */
  function Horner(cs: seq<real>, n: nat, u: real): real
    requires n <= |cs|
  {
    if n == 0 then 0.0 else Horner(cs, n - 1, u) * u + cs[n - 1]
  }

  /** The 6th-degree fit of the thrust coefficient. */
  function CtPoly(u: real): real
  {
    Horner([7.3139922126945e-7, -6.68905596915255e-5, 2.3937885e-3, -0.0420283143,
            0.3716111285, -1.5686969749, 3.2991094727], 7, u)
  }

  /** The 7th-degree fit of the partial-load power, in kW. */
  function PowerPoly(u: real): real
  {
    Horner([3.234808e-4, -0.0331940121, 1.3883148012, -30.3162345004,
            367.6835557011, -2441.6860655008, 8345.6777042343, -11352.9366182805], 8, u)
  }

  /** The curve. The thrust coefficient and the power are chosen by two
      separate threshold chains; every speed (negative ones included) gets a
      value. */
  function TurbineModel(u: real, ratedPower: real): (s: Sample)
    ensures u < CutIn || CutOut < u ==> s == Sample(IdleCt, 0.0)
    ensures CutIn <= u <= CutOut ==> s.ct == CtPoly(u)
    ensures CutIn <= u <= RatedSpeed ==> s.power == 1000.0 * PowerPoly(u)
    ensures RatedSpeed < u <= CutOut ==> s.power == ratedPower
  {
    var ct :=
      if u < CutIn then IdleCt
      else if u <= CutOut then CtPoly(u)
      else IdleCt;
    var power :=
      if u < CutIn then 0.0
      else if u <= RatedSpeed then PowerPoly(u) * 1000.0
      else if u <= CutOut then ratedPower
      else 0.0;
    Sample(ct, power)
  }

  /** The four operating regimes of a turbine, as one partition of the speed
      axis shared by both curves. */
  datatype Regime = Parked | PartialLoad | FullLoad | CutOff

  function RegimeOf(u: real): Regime
  {
    if u < CutIn then Parked
    else if u <= RatedSpeed then PartialLoad
    else if u <= CutOut then FullLoad
    else CutOff
  }

  /** Reference definition of the curve, one case per regime. */
  function RegimeSample(r: Regime, u: real, ratedPower: real): Sample
  {
    match r
    case Parked => Sample(IdleCt, 0.0)
    case PartialLoad => Sample(CtPoly(u), 1000.0 * PowerPoly(u))
    case FullLoad => Sample(CtPoly(u), ratedPower)
    case CutOff => Sample(IdleCt, 0.0)
  }

  /** The two threshold chains agree with the single regime partition: the
      ct polynomial's interval [CutIn, CutOut] is exactly the union of the
      partial-load and full-load regimes. */
  lemma ModelByRegime(u: real, ratedPower: real)
    ensures TurbineModel(u, ratedPower) == RegimeSample(RegimeOf(u), u, ratedPower)
  {
  }

  /** Above rated speed the power does not depend on the speed. */
  lemma RatedPlateau(u: real, v: real, ratedPower: real)
    requires RatedSpeed < u <= CutOut && RatedSpeed < v <= CutOut
    ensures TurbineModel(u, ratedPower).power == TurbineModel(v, ratedPower).power == ratedPower
  {
  }

  /** The cut-in speed 4 opens the partial-load regime on its right; 10 and
      25 close the regime on their left (partial load and full load). At the
      cut-out speed only the thrust coefficient is polynomial: it is the
      polynomial's value, not the parked value, while the power is rated. */
  lemma BoundaryOwnership(ratedPower: real)
    ensures RegimeOf(CutIn) == PartialLoad && RegimeOf(RatedSpeed) == PartialLoad
    ensures RegimeOf(CutOut) == FullLoad
    ensures TurbineModel(4.0, ratedPower) == Sample(0.8275972479861975552, 24560.2757063)
    ensures TurbineModel(10.0, ratedPower) == Sample(0.7251665258169, 1328720.5910825)
    ensures TurbineModel(25.0, ratedPower) == Sample(0.05600330538310546875, ratedPower)
    ensures TurbineModel(25.0, ratedPower).ct != IdleCt
  {
  }
}
