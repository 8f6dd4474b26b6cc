/** The commission constants of `AmSystem` and the first-bonus rate table
    with its lookup. Volumes are exact reals rather than 32-bit floats. */
module Rates {
  import opened Wrappers

  const PvBvRatio: real := 1.0
  const FirstBonusMaxRate: real := 0.21

  const LeadershipBonusRate: real := 0.06
  const LeadershipMinimumAssure: real := 60.0
  const LeadershipFullPv: real := 1000.0
  const LeadershipPartialPv: real := 400.0

  const RubyBonusFullPv: real := 2000.0
  const RubyBonusRate: real := 0.02

  const MdBonusFullBv: real := 1000.0
  const MdBonusRate: real := 0.01

  const SpPvMinimum: real := 1000.0
  const SpPvCondition: real := 400.0

  /** The personal volume a newly created member starts with. */
  const DefaultPv: real := 20.0

  /** One row of the first-bonus table: from volume `pv` on, the rate is `rate`. */
  datatype PVRate = PVRate(pv: real, rate: real)

  /** `firstBonusRates`, highest threshold first. */
  const FirstBonusRates: seq<PVRate> := [
    PVRate(1000.0, FirstBonusMaxRate),
    PVRate(680.0, 0.18),
    PVRate(400.0, 0.15),
    PVRate(240.0, 0.12),
    PVRate(120.0, 0.09),
    PVRate(60.0, 0.06),
    PVRate(20.0, 0.03),
    PVRate(-0.1, 0.00)
  ]

  /** `first { pv >= it.pv }` over the rows from index `from` on: the index of
      the first row whose threshold the volume reaches, if any. */
  function FirstMatch(table: seq<PVRate>, pv: real, from: nat): (r: Option<nat>)
    requires from <= |table|
    ensures r.Some? ==> from <= r.value < |table| && pv >= table[r.value].pv
    ensures r.Some? ==> forall j :: from <= j < r.value ==> pv < table[j].pv
    ensures r.None? ==> forall j :: from <= j < |table| ==> pv < table[j].pv
    decreases |table| - from
  {
    if from == |table| then None
    else if pv >= table[from].pv then Some(from)
    else FirstMatch(table, pv, from + 1)
  }

  /** The table read as a step function of the volume. */
  lemma RateSteps(pv: real)
    requires pv >= -0.1
    ensures FirstMatch(FirstBonusRates, pv, 0).Some?
    ensures FirstBonusRates[FirstMatch(FirstBonusRates, pv, 0).value].rate ==
      if pv >= 1000.0 then 0.21
      else if pv >= 680.0 then 0.18
      else if pv >= 400.0 then 0.15
      else if pv >= 240.0 then 0.12
      else if pv >= 120.0 then 0.09
      else if pv >= 60.0 then 0.06
      else if pv >= 20.0 then 0.03
      else 0.0
  {
    var t := FirstBonusRates;
    assert FirstMatch(t, pv, 7) == Some(7);
    assert FirstMatch(t, pv, 6) == if pv >= 20.0 then Some(6) else Some(7);
    assert FirstMatch(t, pv, 5) == if pv >= 60.0 then Some(5) else FirstMatch(t, pv, 6);
    assert FirstMatch(t, pv, 4) == if pv >= 120.0 then Some(4) else FirstMatch(t, pv, 5);
    assert FirstMatch(t, pv, 3) == if pv >= 240.0 then Some(3) else FirstMatch(t, pv, 4);
    assert FirstMatch(t, pv, 2) == if pv >= 400.0 then Some(2) else FirstMatch(t, pv, 3);
    assert FirstMatch(t, pv, 1) == if pv >= 680.0 then Some(1) else FirstMatch(t, pv, 2);
  }

  /** `AmBonus.getFirstBonusRate`: the rate of the first row whose threshold the
      volume reaches. Below the last threshold the lookup throws, so a volume
      under -0.1 is excluded. */
  function GetFirstBonusRate(pv: real): (r: real)
    requires pv >= -0.1
    ensures 0.0 <= r <= FirstBonusMaxRate
    ensures r == FirstBonusMaxRate <==> pv >= 1000.0
    ensures pv < 20.0 ==> r == 0.0
  {
    RateSteps(pv);
    FirstBonusRates[FirstMatch(FirstBonusRates, pv, 0).value].rate
  }

  /** A larger volume never earns a smaller first-bonus rate. */
  lemma RateMonotone(a: real, b: real)
    requires -0.1 <= a <= b
    ensures GetFirstBonusRate(a) <= GetFirstBonusRate(b)
  {
    RateSteps(a);
    RateSteps(b);
  }

  /** The table's thresholds strictly decrease and its rates never increase
      going down; the last row accepts every non-negative volume. */
  lemma TableOrdered()
    ensures forall j, k :: 0 <= j < k < |FirstBonusRates| ==>
      FirstBonusRates[j].pv > FirstBonusRates[k].pv && FirstBonusRates[j].rate >= FirstBonusRates[k].rate
    ensures FirstBonusRates[|FirstBonusRates| - 1].pv < 0.0
  {
  }

  /** `pv2bv`: business volume from point volume. */
  function PvToBv(pv: real): (bv: real)
    ensures bv == pv
  {
    pv * PvBvRatio
  }
}
