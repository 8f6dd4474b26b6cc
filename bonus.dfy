/** `AmBonus`: the nine bonus categories of an ABO, each computed on demand
    from the partner lists and the volumes. Business volume equals point
    volume (`PvToBv` is the identity), so the formulas are written on volumes. */
module Bonus {
  import opened Wrappers
  import opened Rates
  import opened Entities
  import opened Forest
  import opened MemberNetwork
  import opened Partners

  function Max(a: real, b: real): (r: real)
    ensures r >= a && r >= b && (r == a || r == b)
  {
    if a >= b then a else b
  }

  /** Every entry of `ns` is an independent node created after `lo`. */
  ghost predicate IndependentAfter(b: Book, ns: seq<Node>, lo: int)
    requires Ok(b)
  {
    forall k :: 0 <= k < |ns| ==> lo < ns[k] < |b.children| && IsIndependent(b, ns[k])
  }

  lemma PartnersAfter(b: Book, x: Node)
    requires Ok(b) && x < |b.children|
    ensures IndependentAfter(b, IndependentPartners(b, x), x)
  {
    var r := IndependentPartners(b, x);
    assert forall k :: 0 <= k < |r| ==> r[k] in r;
  }

  // ---------------------------------------------------------------------------
  // First bonus

  /** `FirstBonus.groupBonus`: the group volume times the ABO's own rate. */
  function GroupBonus(b: Book, n: Node): (r: real)
    requires Ok(b) && n < |b.children| && IsAbo(b, n)
    ensures r >= 0.0
    ensures b.group[n] < 20.0 ==> r == 0.0
    ensures b.group[n] >= 1000.0 ==> r == b.group[n] * FirstBonusMaxRate
  {
    PvToBv(b.group[n]) * FirstBonusRate(b, n)
  }

  /** The group bonuses of a list of ABOs, added up. */
  function GroupBonusSum(b: Book, ns: seq<Node>): (r: real)
    requires Ok(b) && Nodes(b, ns) && forall k :: 0 <= k < |ns| ==> IsAbo(b, ns[k])
    ensures r >= 0.0
  {
    if ns == [] then 0.0 else GroupBonusSum(b, ns[..|ns| - 1]) + GroupBonus(b, ns[|ns| - 1])
  }

  /** `FirstBonus.amount`: every ABO qualifies; the amount is the ABO's group
      bonus less the group bonus of each of its ABO partners (the stair-step
      difference). */
  function FirstBonus(b: Book, x: Node): (r: real)
    requires Ok(b) && x < |b.children| && IsAbo(b, x)
    ensures r <= GroupBonus(b, x)
    ensures AboPartners(b, x) == [] ==> r == GroupBonus(b, x)
  {
    var ps := AboPartners(b, x);
    assert forall k :: 0 <= k < |ps| ==> ps[k] in ps;
    GroupBonus(b, x) - GroupBonusSum(b, ps)
  }

  /** The loop of `FirstBonus.amount`: starts from the group bonus and takes
      each partner's group bonus off in turn. */
  method FirstBonusAmount(b: Book, x: Node) returns (amount: real)
    requires Ok(b) && x < |b.children| && IsAbo(b, x)
    ensures amount == FirstBonus(b, x)
  {
    var ps := AboPartners(b, x);
    assert forall k :: 0 <= k < |ps| ==> ps[k] in ps;
    amount := GroupBonus(b, x);
    var k := 0;
    while k < |ps|
      invariant 0 <= k <= |ps| && Nodes(b, ps[..k]) && Abos(b, ps[..k])
      invariant amount == GroupBonus(b, x) - GroupBonusSum(b, ps[..k])
    {
      GroupBonusSumStep(b, ps, k);
      amount := amount - GroupBonus(b, ps[k]);
      k := k + 1;
    }
    assert ps[..k] == ps;
  }

  /** The stair-step example: an ABO with a group of 1200 over one ABO
      partner with a group of 500 earns 21% of 1200 less 15% of 500, that is
      252 - 75 = 177. */
  lemma FirstBonusExample()
    ensures var b := Book([[1], []], [Member(Abo, 1, "A", [], NoPin), Member(Abo, 2, "B", [], NoPin)],
                          [700.0, 500.0], [1200.0, 500.0]);
      Ok(b) && FirstBonus(b, 0) == 177.0
  {
    var b := Book([[1], []], [Member(Abo, 1, "A", [], NoPin), Member(Abo, 2, "B", [], NoPin)],
                  [700.0, 500.0], [1200.0, 500.0]);
    RateSteps(1200.0);
    RateSteps(500.0);
    assert [1][..0] == [];
    assert AboPartners(b, 0) == [1];
  }

  /** Every node of the list is an ABO. */
  ghost predicate Abos(b: Book, ns: seq<Node>)
    requires Ok(b) && Nodes(b, ns)
  {
    forall k :: 0 <= k < |ns| ==> IsAbo(b, ns[k])
  }

  /** The group bonus sum over one more ABO of the list adds its group bonus. */
  lemma GroupBonusSumStep(b: Book, ns: seq<Node>, k: nat)
    requires Ok(b) && Nodes(b, ns) && (forall i :: 0 <= i < |ns| ==> IsAbo(b, ns[i])) && k < |ns|
    ensures Nodes(b, ns[..k]) && Abos(b, ns[..k]) && Nodes(b, ns[..k + 1]) && Abos(b, ns[..k + 1])
    ensures GroupBonusSum(b, ns[..k + 1]) == GroupBonusSum(b, ns[..k]) + GroupBonus(b, ns[k])
  {
    assert ns[..k + 1][..k] == ns[..k];
  }

  // ---------------------------------------------------------------------------
  // Leadership bonus

  /** `LeadershipBonus.isQualified`: some independent partner, and not a
      single one with a personal group under 400. */
  predicate LeadershipQualified(b: Book, x: Node)
    requires Ok(b) && x < |b.children|
    ensures LeadershipQualified(b, x) ==> IndependentPartners(b, x) != []
    ensures |IndependentPartners(b, x)| >= 2 ==> LeadershipQualified(b, x)
  {
    var ind := IndependentPartners(b, x);
    !(|ind| == 0 || (|ind| == 1 && PersonalGroup(b, x) < LeadershipPartialPv))
  }

  /** `purePassUpBV`: 6% of the personal group. */
  function PurePassUp(b: Book, x: Node): (r: real)
    requires Ok(b) && x < |b.children|
    ensures r >= LeadershipMinimumAssure <==> PersonalGroup(b, x) >= LeadershipFullPv
  {
    PvToBv(PersonalGroup(b, x)) * LeadershipBonusRate
  }

  /** `LeadershipBonus.passUpBV`: a qualified ABO passes up 6% of its personal
      group but at least the minimum guarantee of 60; an unqualified one passes
      up its independent partners' pass-ups and its own 6%. */
  function LeadershipPassUp(b: Book, x: Node): (r: real)
    requires Ok(b) && x < |b.children|
    ensures LeadershipQualified(b, x) ==> r >= LeadershipMinimumAssure && r >= PurePassUp(b, x)
    decreases |b.children| - x, 1
  {
    PartnersAfter(b, x);
    if LeadershipQualified(b, x) then Max(PurePassUp(b, x), LeadershipMinimumAssure)
    else LeadershipPassUpSum(b, IndependentPartners(b, x), x) + PurePassUp(b, x)
  }

  /** The leadership pass-ups of `ns`, added up. */
  function LeadershipPassUpSum(b: Book, ns: seq<Node>, lo: int): (r: real)
    requires Ok(b) && -1 <= lo && IndependentAfter(b, ns, lo)
    ensures (forall k :: 0 <= k < |ns| ==> LeadershipQualified(b, ns[k])) ==>
      r >= LeadershipMinimumAssure * (|ns| as real)
    decreases |b.children| - lo, 0, |ns|
  {
    if ns == [] then 0.0
    else LeadershipPassUpSum(b, ns[..|ns| - 1], lo) + LeadershipPassUp(b, ns[|ns| - 1])
  }

  /** `LeadershipBonus.amount`: nothing unless qualified; otherwise the
      independent partners' pass-ups, less what the ABO's own 6% falls short
      of 60 when its personal group is under 1000. */
  function LeadershipAmount(b: Book, x: Node): (r: real)
    requires Ok(b) && x < |b.children|
    ensures !LeadershipQualified(b, x) ==> r == 0.0
    ensures |IndependentPartners(b, x)| == 1 && PersonalGroup(b, x) < LeadershipPartialPv ==> r == 0.0
  {
    if !LeadershipQualified(b, x) then 0.0
    else
      PartnersAfter(b, x);
      var bonus := LeadershipPassUpSum(b, IndependentPartners(b, x), x);
      if PersonalGroup(b, x) >= LeadershipFullPv then bonus
      else
        var less := LeadershipMinimumAssure - PurePassUp(b, x);
        if less > 0.0 then bonus - less else bonus
  }

  /** A qualified ABO receives its partners' pass-ups: in full once its
      personal group reaches 1000, and below that less exactly the shortfall
      of its own 6% below 60 (nothing when there is none). */
  lemma LeadershipAmountBounds(b: Book, x: Node)
    requires Ok(b) && x < |b.children| && LeadershipQualified(b, x)
    ensures IndependentAfter(b, IndependentPartners(b, x), x)
    ensures var sum := LeadershipPassUpSum(b, IndependentPartners(b, x), x);
      && LeadershipAmount(b, x) <= sum
      && LeadershipAmount(b, x) >= sum - Max(0.0, LeadershipMinimumAssure - PurePassUp(b, x))
      && (PersonalGroup(b, x) >= LeadershipFullPv ==> LeadershipAmount(b, x) == sum)
      && (PersonalGroup(b, x) < LeadershipFullPv ==>
            LeadershipAmount(b, x) == sum - Max(0.0, LeadershipMinimumAssure - PurePassUp(b, x)))
  {
    PartnersAfter(b, x);
  }

  // ---------------------------------------------------------------------------
  // Ruby bonus

  /** `RubyBonus.isQualified`: a personal group of at least 2000. */
  predicate RubyQualified(b: Book, x: Node)
    requires Ok(b) && x < |b.children|
    ensures RubyQualified(b, x) ==> b.group[x] >= RubyBonusFullPv + 1000.0 * (|IndependentPartners(b, x)| as real)
    ensures RubyQualified(b, x) ==> PurePassUp(b, x) >= LeadershipMinimumAssure
  {
    PersonalGroup(b, x) >= RubyBonusFullPv
  }

  /** The members the ruby loop counts: those that are not independent ABOs,
      skipping ABOs qualified as Platinum. */
  function RubyMembers(b: Book, cs: seq<Node>): (r: seq<Node>)
    requires Ok(b) && Nodes(b, cs)
    ensures Nodes(b, r)
  {
    if cs == [] then []
    else
      var c := cs[|cs| - 1];
      var counted := !IsIndependent(b, c) && !(IsAbo(b, c) && IsQualifiedPin(b, c, PT));
      RubyMembers(b, cs[..|cs| - 1]) + (if counted then [c] else [])
  }

  /** `isQualifiedPIN` answers no for every title, so the Platinum exception
      never removes anybody. */
  lemma {:induction false} RubySkipsNothing(b: Book, cs: seq<Node>)
    requires Ok(b) && Nodes(b, cs)
    ensures RubyMembers(b, cs) == SupportIn(b, cs)
  {
    if cs != [] {
      RubySkipsNothing(b, cs[..|cs| - 1]);
    }
  }

  /** `RubyBonus.amount`: nothing unless qualified; otherwise 2% of the
      counted members' groups plus the ABO's own personal volume. */
  function RubyAmount(b: Book, x: Node): (r: real)
    requires Ok(b) && x < |b.children|
    ensures !RubyQualified(b, x) ==> r == 0.0
    ensures RubyQualified(b, x) ==>
      r == (SumOver(b.group, SupportIn(b, b.children[x])) + b.personal[x]) * RubyBonusRate
  {
    RubySkipsNothing(b, b.children[x]);
    if !RubyQualified(b, x) then 0.0
    else (SumOver(b.group, RubyMembers(b, b.children[x])) + PvToBv(b.personal[x])) * RubyBonusRate
  }

  /** One more child in the ruby loop adds its group volume when it is
      counted and nothing otherwise. */
  lemma RubyStep(b: Book, cs: seq<Node>, k: nat)
    requires Ok(b) && Nodes(b, cs) && k < |cs|
    ensures Nodes(b, cs[..k]) && Nodes(b, cs[..k + 1])
    ensures SumOver(b.group, RubyMembers(b, cs[..k + 1])) == SumOver(b.group, RubyMembers(b, cs[..k])) +
      (if !IsIndependent(b, cs[k]) && !(IsAbo(b, cs[k]) && IsQualifiedPin(b, cs[k], PT)) then b.group[cs[k]] else 0.0)
  {
    var next := cs[..k + 1];
    assert next[..k] == cs[..k] && next[k] == cs[k];
    var before := RubyMembers(b, cs[..k]);
    if !IsIndependent(b, cs[k]) {
      SumOverAppend(b.group, before, cs[k]);
    } else {
      assert RubyMembers(b, next) == before;
    }
  }

  /** The loop of `RubyBonus.amount` over `supportMembers`. */
  method RubyAmountLoop(b: Book, x: Node) returns (amount: real)
    requires Ok(b) && x < |b.children|
    ensures amount == RubyAmount(b, x)
  {
    if !RubyQualified(b, x) {
      return 0.0;
    }
    var cs := b.children[x];
    var bonus := 0.0;
    var k := 0;
    while k < |cs|
      invariant 0 <= k <= |cs|
      invariant Nodes(b, cs[..k]) && bonus == SumOver(b.group, RubyMembers(b, cs[..k]))
    {
      var c := cs[k];
      RubyStep(b, cs, k);
      if !IsAbo(b, c) || !IsIndependent(b, c) {
        if !(IsAbo(b, c) && IsQualifiedPin(b, c, PT)) {
          bonus := bonus + PvToBv(b.group[c]);
        }
      }
      k := k + 1;
    }
    assert cs[..k] == cs;
    bonus := bonus + PvToBv(b.personal[x]);
    amount := bonus * RubyBonusRate;
  }

  /** When the volumes roll up, the ruby bonus is 2% of the personal group
      once that reaches 2000, and nothing below. */
  lemma RubyIsTwoPercent(b: Book, x: Node)
    requires Ok(b) && x < |b.children| && Rollup(b.children, b.personal, b.group)
    ensures RubyAmount(b, x) == if PersonalGroup(b, x) >= 2000.0 then PersonalGroup(b, x) * 0.02 else 0.0
  {
    RubySkipsNothing(b, b.children[x]);
    PersonalGroupRollup(b, x);
  }

  // ---------------------------------------------------------------------------
  // Monthly depth bonus

  /** `MonthlyDepthBonus.isQualified`: three or more independent partners. */
  predicate MdQualified(b: Book, x: Node)
    requires Ok(b) && x < |b.children|
    ensures MdQualified(b, x) ==> LeadershipQualified(b, x)
    ensures MdQualified(b, x) ==> IndependentVolume(b, x) >= 3000.0
  {
    |IndependentPartners(b, x)| >= 3
  }

  /** 1% of the larger of each partner's personal group and 1000, added up. */
  function MdFloorSum(b: Book, ns: seq<Node>): (r: real)
    requires Ok(b) && Nodes(b, ns)
    ensures r >= MdBonusFullBv * MdBonusRate * (|ns| as real)
  {
    if ns == [] then 0.0
    else MdFloorSum(b, ns[..|ns| - 1]) + Max(PvToBv(PersonalGroup(b, ns[|ns| - 1])), MdBonusFullBv) * MdBonusRate
  }

  /** `MonthlyDepthBonus.passUp`: nothing from an ABO that is not
      independent; otherwise 1% of its personal group, plus 1% of each
      independent partner's personal group raised to 1000 when it qualifies
      itself, or else its partners' own pass-ups. */
  function MdPassUp(b: Book, x: Node): (r: real)
    requires Ok(b) && x < |b.children|
    ensures !IsIndependent(b, x) ==> r == 0.0
    ensures IsIndependent(b, x) && MdQualified(b, x) ==>
      r >= PvToBv(PersonalGroup(b, x)) * MdBonusRate + 10.0 * (|IndependentPartners(b, x)| as real)
    decreases |b.children| - x, 1
  {
    PartnersAfter(b, x);
    if !IsIndependent(b, x) then 0.0
    else
      var ind := IndependentPartners(b, x);
      PvToBv(PersonalGroup(b, x)) * MdBonusRate +
        (if MdQualified(b, x) then MdFloorSum(b, ind) else MdPassUpSum(b, ind, x))
  }

  /** The monthly-depth pass-ups of `ns`, added up. */
  function MdPassUpSum(b: Book, ns: seq<Node>, lo: int): real
    requires Ok(b) && -1 <= lo && IndependentAfter(b, ns, lo)
    decreases |b.children| - lo, 0, |ns|
  {
    if ns == [] then 0.0 else MdPassUpSum(b, ns[..|ns| - 1], lo) + MdPassUp(b, ns[|ns| - 1])
  }

  /** The pass-ups of the independent partners of each of `ns`, added up:
      the second tier below the ABO. */
  function SecondTier(b: Book, ns: seq<Node>): (r: real)
    requires Ok(b) && Nodes(b, ns)
    ensures (forall k :: 0 <= k < |ns| ==> IndependentPartners(b, ns[k]) == []) ==> r == 0.0
  {
    if ns == [] then 0.0
    else
      var n := ns[|ns| - 1];
      PartnersAfter(b, n);
      SecondTier(b, ns[..|ns| - 1]) + MdPassUpSum(b, IndependentPartners(b, n), n)
  }

  /** 1% of what each of `ns` lacks of a personal group of 1000. */
  function Shortfall(b: Book, ns: seq<Node>): (r: real)
    requires Ok(b) && Nodes(b, ns)
    ensures r >= 0.0
  {
    if ns == [] then 0.0
    else
      var pg := PvToBv(PersonalGroup(b, ns[|ns| - 1]));
      Shortfall(b, ns[..|ns| - 1]) + (if pg < MdBonusFullBv then (MdBonusFullBv - pg) * MdBonusRate else 0.0)
  }

  /** `MonthlyDepthBonus.amount`: nothing unless qualified; otherwise the
      second-tier pass-ups less the first tier's shortfall. */
  function MdAmount(b: Book, x: Node): (r: real)
    requires Ok(b) && x < |b.children|
    ensures MdQualified(b, x) ==> r <= SecondTier(b, IndependentPartners(b, x))
  {
    if !MdQualified(b, x) then 0.0
    else
      var ind := IndependentPartners(b, x);
      SecondTier(b, ind) - Shortfall(b, ind)
  }

  /** The inner loop of `MonthlyDepthBonus.amount`: the pass-ups of the
      independent partners of `n`, added up. */
  method PartnerPassUps(b: Book, n: Node) returns (sum: real)
    requires Ok(b) && n < |b.children|
    ensures IndependentAfter(b, IndependentPartners(b, n), n)
    ensures sum == MdPassUpSum(b, IndependentPartners(b, n), n)
  {
    var subs := IndependentPartners(b, n);
    PartnersAfter(b, n);
    sum := 0.0;
    var j := 0;
    while j < |subs|
      invariant 0 <= j <= |subs| && IndependentAfter(b, subs[..j], n)
      invariant sum == MdPassUpSum(b, subs[..j], n)
    {
      PassUpSumStep(b, subs, n, j);
      sum := sum + MdPassUp(b, subs[j]);
      j := j + 1;
    }
    assert subs[..j] == subs;
  }

  /** The pass-up sum over one more of the listed partners adds its pass-up. */
  lemma PassUpSumStep(b: Book, ns: seq<Node>, lo: int, j: nat)
    requires Ok(b) && -1 <= lo && IndependentAfter(b, ns, lo) && j < |ns|
    ensures IndependentAfter(b, ns[..j], lo) && IndependentAfter(b, ns[..j + 1], lo)
    ensures MdPassUpSum(b, ns[..j + 1], lo) == MdPassUpSum(b, ns[..j], lo) + MdPassUp(b, ns[j])
  {
    assert ns[..j + 1][..j] == ns[..j];
  }

  /** The outer loop of `MonthlyDepthBonus.amount`: the second-tier pass-ups. */
  method SecondTierLoop(b: Book, ind: seq<Node>) returns (bonus: real)
    requires Ok(b) && Nodes(b, ind)
    ensures bonus == SecondTier(b, ind)
  {
    bonus := 0.0;
    var i := 0;
    while i < |ind|
      invariant 0 <= i <= |ind|
      invariant bonus == SecondTier(b, ind[..i])
    {
      var inner := PartnerPassUps(b, ind[i]);
      assert ind[..i + 1][..i] == ind[..i];
      bonus := bonus + inner;
      i := i + 1;
    }
    assert ind[..i] == ind;
  }

  /** One more first-tier partner in the shortfall loop. */
  lemma ShortfallStep(b: Book, ns: seq<Node>, i: nat)
    requires Ok(b) && Nodes(b, ns) && i < |ns|
    ensures Nodes(b, ns[..i]) && Nodes(b, ns[..i + 1])
    ensures Shortfall(b, ns[..i + 1]) == Shortfall(b, ns[..i]) +
      (if PvToBv(PersonalGroup(b, ns[i])) < MdBonusFullBv then (MdBonusFullBv - PvToBv(PersonalGroup(b, ns[i]))) * MdBonusRate else 0.0)
  {
    var next := ns[..i + 1];
    assert next[..i] == ns[..i] && next[i] == ns[i];
  }

  /** The shortfall loop of `MonthlyDepthBonus.amount`: each first-tier
      personal group under 1000 takes 1% of what it lacks off `bonus`. */
  method ShortfallLoop(b: Book, ind: seq<Node>, bonus0: real) returns (bonus: real)
    requires Ok(b) && Nodes(b, ind)
    ensures bonus == bonus0 - Shortfall(b, ind)
  {
    bonus := bonus0;
    var i := 0;
    while i < |ind|
      invariant 0 <= i <= |ind|
      invariant Nodes(b, ind[..i]) && bonus == bonus0 - Shortfall(b, ind[..i])
    {
      var pg := PvToBv(PersonalGroup(b, ind[i]));
      ShortfallStep(b, ind, i);
      if pg < MdBonusFullBv {
        bonus := bonus - (MdBonusFullBv - pg) * MdBonusRate;
      }
      i := i + 1;
    }
    assert ind[..i] == ind;
  }

  /** `MonthlyDepthBonus.amount` as the source computes it: the nested loop,
      then the shortfall loop. */
  method MdAmountLoop(b: Book, x: Node) returns (amount: real)
    requires Ok(b) && x < |b.children|
    ensures amount == MdAmount(b, x)
  {
    if !MdQualified(b, x) {
      return 0.0;
    }
    var ind := IndependentPartners(b, x);
    assert forall k :: 0 <= k < |ind| ==> ind[k] in ind;
    var bonus := SecondTierLoop(b, ind);
    amount := ShortfallLoop(b, ind, bonus);
  }

  // ---------------------------------------------------------------------------
  // All nine categories

  /** The categories in the order of `AmBonus.bonuses`. */
  datatype Category = First | Leadership | Ruby | MonthlyDepth | Emerald | Diamond | DiamondPlus | OneTime | Faa

  const Categories: seq<Category> := [First, Leadership, Ruby, MonthlyDepth, Emerald, Diamond, DiamondPlus, OneTime, Faa]

  /** The five categories whose qualification is not implemented. */
  predicate IsStub(c: Category)
  {
    c in {Emerald, Diamond, DiamondPlus, OneTime, Faa}
  }

  /** `isQualified` of each category. */
  predicate Qualified(b: Book, x: Node, c: Category)
    requires Ok(b) && x < |b.children|
    ensures Qualified(b, x, c) ==> !IsStub(c)
    ensures c == MonthlyDepth && Qualified(b, x, c) ==> LeadershipQualified(b, x)
  {
    match c
    case First => true
    case Leadership => LeadershipQualified(b, x)
    case Ruby => RubyQualified(b, x)
    case MonthlyDepth => MdQualified(b, x)
    case _ => false
  }

  /** `amount` of each category. */
  function Amount(b: Book, x: Node, c: Category): (r: real)
    requires Ok(b) && x < |b.children| && IsAbo(b, x)
    ensures IsStub(c) ==> r == 0.0
  {
    match c
    case First => FirstBonus(b, x)
    case Leadership => LeadershipAmount(b, x)
    case Ruby => RubyAmount(b, x)
    case MonthlyDepth => MdAmount(b, x)
    case _ => 0.0
  }

  /** No category pays an ABO that does not qualify for it, and the five
      stubs never qualify. */
  lemma PaysOnlyWhenQualified(b: Book, x: Node, c: Category)
    requires Ok(b) && x < |b.children| && IsAbo(b, x)
    ensures !Qualified(b, x, c) ==> Amount(b, x, c) == 0.0
    ensures IsStub(c) ==> !Qualified(b, x, c) && Amount(b, x, c) == 0.0
  {
  }

  /** The amounts of the categories `cs`, added up. */
  function SumAmounts(b: Book, x: Node, cs: seq<Category>): real
    requires Ok(b) && x < |b.children| && IsAbo(b, x)
  {
    if cs == [] then 0.0 else SumAmounts(b, x, cs[..|cs| - 1]) + Amount(b, x, cs[|cs| - 1])
  }

  /** `AmBonus.total`: the amounts of all nine categories. */
  function TotalBonus(b: Book, x: Node): real
    requires Ok(b) && x < |b.children| && IsAbo(b, x)
  {
    SumAmounts(b, x, Categories)
  }

  /** One more category adds its amount. */
  lemma SumAmountsSnoc(b: Book, x: Node, cs: seq<Category>, c: Category)
    requires Ok(b) && x < |b.children| && IsAbo(b, x)
    ensures SumAmounts(b, x, cs + [c]) == SumAmounts(b, x, cs) + Amount(b, x, c)
  {
    assert (cs + [c])[..|cs|] == cs;
  }

  lemma {:induction false} SumAmountsConcat(b: Book, x: Node, cs: seq<Category>, ds: seq<Category>)
    requires Ok(b) && x < |b.children| && IsAbo(b, x)
    ensures SumAmounts(b, x, cs + ds) == SumAmounts(b, x, cs) + SumAmounts(b, x, ds)
    decreases |ds|
  {
    if ds != [] {
      var init := ds[..|ds| - 1];
      SumAmountsConcat(b, x, cs, init);
      assert (cs + ds)[..|cs + ds| - 1] == cs + init;
      assert (cs + ds)[|cs + ds| - 1] == ds[|ds| - 1];
    } else {
      assert cs + ds == cs;
    }
  }

  /** The five stubs add nothing, whatever their order. */
  lemma {:induction false} StubsPayNothing(b: Book, x: Node, cs: seq<Category>)
    requires Ok(b) && x < |b.children| && IsAbo(b, x)
    requires forall k :: 0 <= k < |cs| ==> IsStub(cs[k])
    ensures SumAmounts(b, x, cs) == 0.0
  {
    if cs != [] {
      StubsPayNothing(b, x, cs[..|cs| - 1]);
      PaysOnlyWhenQualified(b, x, cs[|cs| - 1]);
    }
  }

  /** Only the first, leadership, ruby and monthly-depth bonuses contribute
      to the total. */
  lemma TotalOfFour(b: Book, x: Node)
    requires Ok(b) && x < |b.children| && IsAbo(b, x)
    ensures TotalBonus(b, x) ==
      Amount(b, x, First) + Amount(b, x, Leadership) + Amount(b, x, Ruby) + Amount(b, x, MonthlyDepth)
  {
    CategoriesSplit(b, x);
    StubsPayNothing(b, x, [Emerald, Diamond, DiamondPlus, OneTime, Faa]);
    SumOfFour(b, x);
  }

  /** The nine categories are the four paying ones followed by the five stubs. */
  lemma CategoriesSplit(b: Book, x: Node)
    requires Ok(b) && x < |b.children| && IsAbo(b, x)
    ensures SumAmounts(b, x, Categories) ==
      SumAmounts(b, x, [First, Leadership, Ruby, MonthlyDepth]) + SumAmounts(b, x, [Emerald, Diamond, DiamondPlus, OneTime, Faa])
  {
    var four: seq<Category> := [First, Leadership, Ruby, MonthlyDepth];
    var stubs: seq<Category> := [Emerald, Diamond, DiamondPlus, OneTime, Faa];
    assert Categories == four + stubs;
    SumAmountsConcat(b, x, four, stubs);
  }

  /** The four paying categories, added one after the other. */
  lemma SumOfFour(b: Book, x: Node)
    requires Ok(b) && x < |b.children| && IsAbo(b, x)
    ensures SumAmounts(b, x, [First, Leadership, Ruby, MonthlyDepth]) ==
      Amount(b, x, First) + Amount(b, x, Leadership) + Amount(b, x, Ruby) + Amount(b, x, MonthlyDepth)
  {
    SumAmountsSnoc(b, x, [], First);
    assert [] + [First] == [First];
    SumAmountsSnoc(b, x, [First], Leadership);
    assert [First] + [Leadership] == [First, Leadership];
    SumAmountsSnoc(b, x, [First, Leadership], Ruby);
    assert [First, Leadership] + [Ruby] == [First, Leadership, Ruby];
    SumAmountsSnoc(b, x, [First, Leadership, Ruby], MonthlyDepth);
    assert [First, Leadership, Ruby] + [MonthlyDepth] == [First, Leadership, Ruby, MonthlyDepth];
  }

  /** `recordAmount`: stores the nine amounts in the record and changes
      nothing else in it. */
  function RecordAmount(b: Book, x: Node, record: MonthlyRecord): (r: MonthlyRecord)
    requires Ok(b) && x < |b.children| && IsAbo(b, x)
    ensures r.month == record.month && r.pin == record.pin
    ensures r.groupPV == record.groupPV && r.personalPV == record.personalPV
    ensures r.personalGroupPV == record.personalGroupPV
    ensures r.firstBonus == Amount(b, x, First) && r.leadershipBonus == Amount(b, x, Leadership) && r.rubyBonus == Amount(b, x, Ruby)
    ensures r.monthlyDepthBonus == Amount(b, x, MonthlyDepth) && r.emeraldBonus == Amount(b, x, Emerald) && r.diamondBonus == Amount(b, x, Diamond)
    ensures r.diamondPlusBonus == Amount(b, x, DiamondPlus) && r.oneTimeBonus == Amount(b, x, OneTime) && r.faaBonus == Amount(b, x, Faa)
  {
    record.(firstBonus := Amount(b, x, First), leadershipBonus := Amount(b, x, Leadership),
            rubyBonus := Amount(b, x, Ruby), monthlyDepthBonus := Amount(b, x, MonthlyDepth),
            emeraldBonus := Amount(b, x, Emerald), diamondBonus := Amount(b, x, Diamond),
            diamondPlusBonus := Amount(b, x, DiamondPlus), oneTimeBonus := Amount(b, x, OneTime),
            faaBonus := Amount(b, x, Faa))
  }

  /** The nine stored amounts add up to the total. */
  lemma RecordedTotal(b: Book, x: Node, record: MonthlyRecord)
    requires Ok(b) && x < |b.children| && IsAbo(b, x)
    ensures var r := RecordAmount(b, x, record);
      r.firstBonus + r.leadershipBonus + r.rubyBonus + r.monthlyDepthBonus + r.emeraldBonus +
      r.diamondBonus + r.diamondPlusBonus + r.oneTimeBonus + r.faaBonus == TotalBonus(b, x)
  {
    TotalOfFour(b, x);
  }
}
