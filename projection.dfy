/** The FIRE projection of the dashboard: year by year from the current age
    to 65, investable capital compounds with the yearly savings added,
    real estate optionally appreciates, and the four spending tiers and the
    user's own target (each x25, the 4% rule) grow with inflation. Also the
    split of net worth into investable capital and real estate that feeds
    the projection. */
module Projection {
  import opened Text
  import opened Records
  import opened ReturnEstimator

  /** The four FIRE spending tiers, in the order the application lists them. */
  datatype Tier = Lean | Barista | Regular | Fat

  const TierOrder: seq<Tier> := [Lean, Barista, Regular, Fat]

  /** Yearly spending of a tier. */
  function TierExpense(t: Tier): real
  {
    match t
    case Lean => 600000.0
    case Barista => 800000.0
    case Regular => 1000000.0
    case Fat => 2500000.0
  }

  /** Position of a tier in TierOrder. */
  function TierIndex(t: Tier): (i: nat)
    ensures i < |TierOrder| && TierOrder[i] == t
  {
    match t
    case Lean => 0
    case Barista => 1
    case Regular => 2
    case Fat => 3
  }

  /** A tier's nest egg. */
  function TierTarget(t: Tier): real
  {
    Target(TierExpense(t))
  }

  /** The nest egg a yearly spending needs: 25 years of it. */
  function Target(expense: real): real
  {
    expense * 25.0
  }

  /** The yearly growth factor of a percentage rate. */
  function Factor(percent: real): real
  {
    1.0 + percent / 100.0
  }

  /** A running target after one more year of inflation. */
  function Grow(level: real, inflation: real): real
  {
    level * Factor(inflation)
  }

  /** The arguments of the projection. */
  datatype Inputs = Inputs(
    currentAge: int,
    investable: real,
    house: real,
    savings: real,
    investReturn: real,
    houseGrowth: real,
    inflation: real,
    customExpense: real,
    includeHouseGrowth: bool)

  /** The projected ages: current age up to 65, none once past 65. */
  function Ages(currentAge: int): seq<int>
  {
    if currentAge > 65 then [] else seq(66 - currentAge, k => currentAge + k)
  }

  /** Number of yearly steps: one fewer than the ages, and none when there
      are no ages (the loop runs over an empty range then). */
  function Steps(currentAge: int): nat
  {
    if currentAge > 65 then 0 else 65 - currentAge
  }

  /** Investable capital after k years. */
  function InvestAt(p: Inputs, k: nat): real
  {
    if k == 0 then p.investable else (InvestAt(p, k - 1) + p.savings) * Factor(p.investReturn)
  }

  /** Real estate after k years: it appreciates only when growth is on and
      its current value is positive. */
  function HouseAt(p: Inputs, k: nat): real
  {
    if k == 0 then p.house
    else
      var h := HouseAt(p, k - 1);
      if p.includeHouseGrowth && h > 0.0 then h * Factor(p.houseGrowth) else h
  }

  /** A target after k years of inflation. */
  function Inflated(x: real, inflation: real, k: nat): real
  {
    if k == 0 then x else Inflated(x, inflation, k - 1) * Factor(inflation)
  }

  /** The projected wealth over n steps: n + 1 points. */
  function WealthCurve(p: Inputs, n: nat): seq<real>
  {
    if n == 0 then [InvestAt(p, 0) + HouseAt(p, 0)]
    else WealthCurve(p, n - 1) + [InvestAt(p, n) + HouseAt(p, n)]
  }

  /** A target inflated over n steps: n + 1 points. */
  function TargetCurve(x: real, inflation: real, n: nat): seq<real>
  {
    if n == 0 then [x] else TargetCurve(x, inflation, n - 1) + [Inflated(x, inflation, n)]
  }

  datatype Curves = Curves(
    ages: seq<int>,
    wealth: seq<real>,
    levels: map<Tier, seq<real>>,
    custom: seq<real>)

  /** The projection: the ages from the current age to 65, then one step
      per year after the first. */
  method FireCurves(p: Inputs) returns (c: Curves)
    ensures c.ages == Ages(p.currentAge)
    ensures c.wealth == WealthCurve(p, Steps(p.currentAge))
    ensures forall t :: t in c.levels && c.levels[t] == TargetCurve(TierTarget(t), p.inflation, Steps(p.currentAge))
    ensures c.custom == TargetCurve(Target(p.customExpense), p.inflation, Steps(p.currentAge))
  {
    var ages := if p.currentAge > 65 then [] else seq(66 - p.currentAge, k => p.currentAge + k);
    var steps := if |ages| == 0 then 0 else |ages| - 1;
    assert steps == Steps(p.currentAge);
    var wealth, levelCurves, custom := ProjectYears(p, TierTarget, Target(p.customExpense), steps);
    c := Curves(ages, wealth, levelCurves, custom);
  }

  /** The yearly loop, updating the running capital, real estate, tier
      targets (starting from `base`) and custom target, and appending each
      to its curve. */
  method ProjectYears(p: Inputs, base: Tier -> real, customBase: real, steps: nat)
    returns (wealth: seq<real>, levelCurves: map<Tier, seq<real>>, custom: seq<real>)
    ensures wealth == WealthCurve(p, steps)
    ensures forall t :: t in levelCurves && levelCurves[t] == TargetCurve(base(t), p.inflation, steps)
    ensures custom == TargetCurve(customBase, p.inflation, steps)
  {
    var currInvest := p.investable;
    var currHouse := p.house;
    wealth := [currInvest + currHouse];
    levelCurves := map t | t in TierOrder :: [base(t)];
    custom := [customBase];
    var currLevels := map t | t in TierOrder :: base(t);
    var currCustom := customBase;
    forall t: Tier ensures t in TierOrder {
      assert TierOrder[TierIndex(t)] == t;
    }
    assert TiersAt(base, p.inflation, 0, currLevels, levelCurves);
    for i := 0 to steps
      invariant currInvest == InvestAt(p, i) && currHouse == HouseAt(p, i)
      invariant wealth == WealthCurve(p, i)
      invariant TiersAt(base, p.inflation, i, currLevels, levelCurves)
      invariant currCustom == Inflated(customBase, p.inflation, i)
      invariant custom == TargetCurve(customBase, p.inflation, i)
    {
      var invest := (currInvest + p.savings) * (1.0 + p.investReturn / 100.0);
      var house := currHouse;
      if p.includeHouseGrowth && currHouse > 0.0 {
        house := currHouse * (1.0 + p.houseGrowth / 100.0);
      }
      YearStep(p, i, currInvest, currHouse, wealth, invest, house);
      currInvest, currHouse := invest, house;
      wealth := wealth + [currInvest + currHouse];
      ghost var oldLevels, oldCurves := currLevels, levelCurves;
      currLevels, levelCurves := InflateTiers(currLevels, levelCurves, p.inflation);
      TiersAdvance(base, p.inflation, i, oldLevels, oldCurves, currLevels, levelCurves);
      var level := currCustom * (1.0 + p.inflation / 100.0);
      TierAdvance(customBase, p.inflation, i, currCustom, custom, level, custom + [level]);
      currCustom := level;
      custom := custom + [currCustom];
    }
  }

  /** Part-way through the tier loop: the tiers in `done` have grown by one
      year, the others are as they were. */
  predicate Partly(levels: map<Tier, real>, curves: map<Tier, seq<real>>,
                   levels': map<Tier, real>, curves': map<Tier, seq<real>>, inflation: real, done: set<Tier>)
  {
    && (forall t :: t in levels && t in curves && t in levels' && t in curves')
    && (forall t :: t in done ==>
          levels'[t] == Grow(levels[t], inflation) && curves'[t] == curves[t] + [levels'[t]])
    && (forall t :: t !in done ==> levels'[t] == levels[t] && curves'[t] == curves[t])
  }

  /** Growing one more tier. */
  lemma PartlyStep(levels: map<Tier, real>, curves: map<Tier, seq<real>>,
                   levels': map<Tier, real>, curves': map<Tier, seq<real>>, inflation: real, done: set<Tier>,
                   t: Tier, v: real)
    requires Partly(levels, curves, levels', curves', inflation, done) && t !in done
    requires v == Grow(levels'[t], inflation)
    ensures Partly(levels, curves, levels'[t := v], curves'[t := curves'[t] + [v]], inflation, done + {t})
  {
  }

  /** Once every tier is done, the loop has taken one full year. */
  lemma PartlyDone(levels: map<Tier, real>, curves: map<Tier, seq<real>>,
                   levels': map<Tier, real>, curves': map<Tier, seq<real>>, inflation: real, done: set<Tier>)
    requires Partly(levels, curves, levels', curves', inflation, done)
    requires forall k :: 0 <= k < |TierOrder| ==> TierOrder[k] in done
    ensures OneYear(levels, curves, levels', curves', inflation)
  {
    forall t ensures t in done {
      assert TierOrder[TierIndex(t)] == t;
    }
  }

  /** The inner loop over the tiers: every tier's running target grows by
      one year of inflation and is appended to that tier's curve; the
      order in which the tiers are visited does not matter. */
  method InflateTiers(levels: map<Tier, real>, curves: map<Tier, seq<real>>, inflation: real)
    returns (levels': map<Tier, real>, curves': map<Tier, seq<real>>)
    requires forall t :: t in levels && t in curves
    ensures OneYear(levels, curves, levels', curves', inflation)
  {
    levels', curves' := levels, curves;
    ghost var done: set<Tier> := {};
    for j := 0 to |TierOrder|
      invariant Partly(levels, curves, levels', curves', inflation, done)
      invariant forall k :: 0 <= k < j ==> TierOrder[k] in done
      invariant forall k :: j <= k < |TierOrder| ==> TierOrder[k] !in done
    {
      var t := TierOrder[j];
      var v := levels'[t] * (1.0 + inflation / 100.0);
      var curve := curves'[t] + [v];
      PartlyStep(levels, curves, levels', curves', inflation, done, t, v);
      levels' := levels'[t := v];
      curves' := curves'[t := curve];
      done := done + {t};
    }
    PartlyDone(levels, curves, levels', curves', inflation, done);
  }

  /** Every tier's running target has grown by one year of inflation, and
      the grown target has been appended to the tier's curve. */
  predicate OneYear(levels: map<Tier, real>, curves: map<Tier, seq<real>>,
                    levels': map<Tier, real>, curves': map<Tier, seq<real>>, inflation: real)
  {
    && (forall t :: t in levels && t in curves)
    && (forall t :: t in levels' && levels'[t] == Grow(levels[t], inflation))
    && (forall t :: t in curves' && curves'[t] == curves[t] + [levels'[t]])
  }

  /** One pass of the tier loop takes every tier from i to i + 1 years of
      inflation. */
  lemma TiersAdvance(base: Tier -> real, inflation: real, i: nat,
                     levels: map<Tier, real>, curves: map<Tier, seq<real>>,
                     levels': map<Tier, real>, curves': map<Tier, seq<real>>)
    requires TiersAt(base, inflation, i, levels, curves)
    requires OneYear(levels, curves, levels', curves', inflation)
    ensures TiersAt(base, inflation, i + 1, levels', curves')
  {
    forall t
      ensures levels'[t] == Inflated(base(t), inflation, i + 1)
      ensures curves'[t] == TargetCurve(base(t), inflation, i + 1)
    {
      TierAdvance(base(t), inflation, i, levels[t], curves[t], levels'[t], curves'[t]);
    }
  }

  /** One year of one tier: its target times the factor, appended. */
  lemma TierAdvance(x: real, inflation: real, i: nat, level: real, curve: seq<real>, level': real, curve': seq<real>)
    requires level == Inflated(x, inflation, i) && curve == TargetCurve(x, inflation, i)
    requires level' == Grow(level, inflation) && curve' == curve + [level']
    ensures level' == Inflated(x, inflation, i + 1) && curve' == TargetCurve(x, inflation, i + 1)
  {
    TargetStep(x, inflation, i);
  }

  /** Every tier's running target and curve have had i years of inflation. */
  predicate TiersAt(base: Tier -> real, inflation: real, i: nat, levels: map<Tier, real>, curves: map<Tier, seq<real>>)
  {
    forall t ::
      && t in levels && levels[t] == Inflated(base(t), inflation, i)
      && t in curves && curves[t] == TargetCurve(base(t), inflation, i)
  }

  /** One more year of inflation: the running target times the factor,
      appended to the curve. */
  lemma TargetStep(x: real, inflation: real, i: nat)
    ensures Inflated(x, inflation, i + 1) == Grow(Inflated(x, inflation, i), inflation)
    ensures TargetCurve(x, inflation, i + 1) == TargetCurve(x, inflation, i) + [Inflated(x, inflation, i + 1)]
  {
  }

  /** One more year of capital and real estate, appended to the wealth curve. */
  lemma YearStep(p: Inputs, i: nat, invest: real, house: real, wealth: seq<real>, invest': real, house': real)
    requires invest == InvestAt(p, i) && house == HouseAt(p, i) && wealth == WealthCurve(p, i)
    requires invest' == (invest + p.savings) * (1.0 + p.investReturn / 100.0)
    requires house' == if p.includeHouseGrowth && house > 0.0 then house * (1.0 + p.houseGrowth / 100.0) else house
    ensures invest' == InvestAt(p, i + 1) && house' == HouseAt(p, i + 1)
    ensures wealth + [invest' + house'] == WealthCurve(p, i + 1)
  {
  }

  /** The curves' shapes: ages run from the current age to 65, and every
      curve has one point per age; past 65 there are no ages, but every
      curve still has its single starting point. */
  lemma {:induction false} CurveLengths(p: Inputs, n: nat, x: real)
    ensures |WealthCurve(p, n)| == n + 1
    ensures |TargetCurve(x, p.inflation, n)| == n + 1
  {
    if n > 0 {
      CurveLengths(p, n - 1, x);
    }
  }

  lemma ProjectionShape(p: Inputs, x: real)
    ensures p.currentAge <= 65 ==>
      |Ages(p.currentAge)| == |WealthCurve(p, Steps(p.currentAge))| == |TargetCurve(x, p.inflation, Steps(p.currentAge))|
    ensures p.currentAge <= 65 ==>
      Ages(p.currentAge)[0] == p.currentAge && Ages(p.currentAge)[|Ages(p.currentAge)| - 1] == 65
    ensures p.currentAge > 65 ==>
      Ages(p.currentAge) == [] && |WealthCurve(p, Steps(p.currentAge))| == |TargetCurve(x, p.inflation, Steps(p.currentAge))| == 1
  {
    CurveLengths(p, Steps(p.currentAge), x);
  }

  /** Point k of each curve is the running value after k years; the first
      points are capital plus real estate, and the targets themselves. */
  lemma {:induction false} CurvePoints(p: Inputs, n: nat, x: real, k: nat)
    requires k <= n
    ensures |WealthCurve(p, n)| == n + 1 && WealthCurve(p, n)[k] == InvestAt(p, k) + HouseAt(p, k)
    ensures |TargetCurve(x, p.inflation, n)| == n + 1 && TargetCurve(x, p.inflation, n)[k] == Inflated(x, p.inflation, k)
    ensures WealthCurve(p, n)[0] == p.investable + p.house && TargetCurve(x, p.inflation, n)[0] == x
  {
    CurveLengths(p, n, x);
    if n > 0 {
      if k < n {
        CurvePoints(p, n - 1, x, k);
      }
      CurvePoints(p, n - 1, x, 0);
    }
  }

  /** x^k for real x. */
  function Power(x: real, k: nat): real
  {
    if k == 0 then 1.0 else Power(x, k - 1) * x
  }

  /** Inflating k times is multiplying by the yearly factor to the k-th power. */
  lemma {:induction false} InflatedClosedForm(x: real, inflation: real, k: nat)
    ensures Inflated(x, inflation, k) == x * Power(Factor(inflation), k)
  {
    if k > 0 {
      InflatedClosedForm(x, inflation, k - 1);
      var f := Factor(inflation);
      assert x * Power(f, k - 1) * f == x * (Power(f, k - 1) * f);
    }
  }

  /** With non-negative inflation a non-negative target never shrinks. */
  lemma {:induction false} InflatedGrows(x: real, inflation: real, i: nat, j: nat)
    requires x >= 0.0 && inflation >= 0.0 && i <= j
    ensures 0.0 <= Inflated(x, inflation, i) <= Inflated(x, inflation, j)
    decreases j
  {
    if j > i {
      InflatedGrows(x, inflation, i, j - 1);
      var y := Inflated(x, inflation, j - 1);
      assert y * Factor(inflation) >= y * 1.0;
    } else if i > 0 {
      InflatedGrows(x, inflation, i - 1, i - 1);
      var y := Inflated(x, inflation, i - 1);
      assert y * Factor(inflation) >= 0.0;
    }
  }

  /** Every target curve (tiers and the custom one, for a non-negative
      spending) is non-decreasing when inflation is non-negative. */
  lemma TargetCurveNonDecreasing(x: real, inflation: real, n: nat, i: nat, j: nat)
    requires x >= 0.0 && inflation >= 0.0 && i <= j <= n
    ensures |TargetCurve(x, inflation, n)| == n + 1
    ensures TargetCurve(x, inflation, n)[i] <= TargetCurve(x, inflation, n)[j]
  {
    var p := Inputs(0, 0.0, 0.0, 0.0, 0.0, 0.0, inflation, 0.0, false);
    CurvePoints(p, n, x, i);
    CurvePoints(p, n, x, j);
    InflatedGrows(x, inflation, i, j);
  }

  /** Real estate stays at its starting value when growth is off or when
      that value is not positive. */
  lemma {:induction false} HouseFlat(p: Inputs, k: nat)
    requires !p.includeHouseGrowth || p.house <= 0.0
    ensures HouseAt(p, k) == p.house
  {
    if k > 0 {
      HouseFlat(p, k - 1);
    }
  }

  /** With growth on, positive real estate compounds every year (for a
      growth rate above -100%). */
  lemma {:induction false} HouseCompounds(p: Inputs, k: nat)
    requires p.includeHouseGrowth && p.house > 0.0 && p.houseGrowth > -100.0
    ensures HouseAt(p, k) == p.house * Power(Factor(p.houseGrowth), k)
    ensures HouseAt(p, k) > 0.0
  {
    if k > 0 {
      HouseCompounds(p, k - 1);
      var f := Factor(p.houseGrowth);
      var h := HouseAt(p, k - 1);
      assert f > 0.0;
      assert h * f > 0.0;
      assert p.house * Power(f, k - 1) * f == p.house * (Power(f, k - 1) * f);
    }
  }

  /** With non-negative capital, savings and return, capital never shrinks. */
  lemma {:induction false} InvestGrows(p: Inputs, k: nat)
    requires p.investable >= 0.0 && p.savings >= 0.0 && p.investReturn >= 0.0
    ensures 0.0 <= InvestAt(p, k) <= InvestAt(p, k + 1)
  {
    if k > 0 {
      InvestGrows(p, k - 1);
    }
    var v := InvestAt(p, k) + p.savings;
    assert v * Factor(p.investReturn) >= v * 1.0;
  }

  // ---- The projection's starting point (the FIRE tab) ----

  /** Categories the FIRE tab treats as real estate: 房產 or 固定. */
  predicate HouseCategory(category: string)
  {
    Contains(category, "房產") || Contains(category, "固定")
  }

  function HouseValue(a: ValuedAsset): real
  {
    if HouseCategory(a.category) then a.value else 0.0
  }

  /** Starting capital and real estate as the FIRE tab computes them:
      (base_wealth - house_part, house_part). With no asset rows both are 0. */
  function HouseSplitAsWritten(assets: seq<ValuedAsset>, netWorth: real, includeHouse: bool): (real, real)
  {
    if assets == [] then (0.0, 0.0)
    else
      var houses := Sum(assets, HouseValue);
      var baseWealth := if includeHouse then netWorth else netWorth - houses;
      var housePart := if includeHouse then houses else 0.0;
      (baseWealth - housePart, housePart)
  }

  /** In both modes the capital is net worth minus the 房產/固定 rows; real
      estate is that sum when included and 0 otherwise. */
  lemma HouseSplitAsWrittenModes(assets: seq<ValuedAsset>, netWorth: real, includeHouse: bool)
    requires assets != []
    ensures HouseSplitAsWritten(assets, netWorth, includeHouse).0 == netWorth - Sum(assets, HouseValue)
    ensures HouseSplitAsWritten(assets, netWorth, includeHouse).1 == (if includeHouse then Sum(assets, HouseValue) else 0.0)
  {
  }

  /** A 房地產 (real estate) row: the return estimator leaves it out in its
      "exclude real estate" mode, but the split counts it as investable
      capital, so the capital compounded at the estimated rate is not the
      capital the rate was estimated over. */
  lemma HouseSplitAsWrittenMisses()
    ensures
      var a := ValuedAsset("H", "房地產", 100.0);
      && PropertyLike(a.category)
      && !HouseCategory(a.category)
      && Considered([a], false) == []
      && HouseSplitAsWritten([a], 100.0, false).0 == 100.0
      && HouseSplitAsWritten([a], 100.0, false).0 != TotalValue(Considered([a], false)) - 0.0
  {
    var c := "房地產";
    assert OccursAt(c, "地產", 1);
    ContainsAt(c, "地產");
    ContainsAt(c, "房產");
    ContainsAt(c, "固定");
    assert c[0..2][1] == c[1] && c[1..3][1] == c[2];
    assert c[0..2][0] == c[0] && c[1..3][0] == c[1];
    assert !OccursAt(c, "房產", 0) && !OccursAt(c, "房產", 1);
    assert !OccursAt(c, "固定", 0) && !OccursAt(c, "固定", 1);
    var a := ValuedAsset("H", c, 100.0);
    assert [a][..0] == [];
    assert Considered([a], false) == [];
    assert Sum([a], HouseValue) == 0.0;
  }

  function PropertyValue(a: ValuedAsset): real
  {
    if PropertyLike(a.category) then a.value else 0.0
  }

  /** The split with the same real-estate test as the return estimator. */
  function HouseSplit(assets: seq<ValuedAsset>, netWorth: real, includeHouse: bool): (real, real)
  {
    if assets == [] then (0.0, 0.0)
    else
      var houses := Sum(assets, PropertyValue);
      var baseWealth := if includeHouse then netWorth else netWorth - houses;
      var housePart := if includeHouse then houses else 0.0;
      (baseWealth - housePart, housePart)
  }

  /** With the shared test, the projected capital is exactly the asset base
      the "exclude real estate" estimate weighs, less the liabilities, and
      capital plus real estate is the net worth when real estate is
      included. */
  lemma HouseSplitMatchesEstimate(assets: seq<ValuedAsset>, liabilities: real, includeHouse: bool)
    requires assets != []
    ensures var s := HouseSplit(assets, TotalValue(assets) - liabilities, includeHouse);
      && s.0 == TotalValue(Considered(assets, false)) - liabilities
      && (includeHouse ==> s.0 + s.1 == TotalValue(assets) - liabilities)
      && (!includeHouse ==> s.1 == 0.0)
  {
    SumConsidered(assets, false, ValueOf);
    SumOfParts(assets, Masked(ValueOf, false), PropertyValue, ValueOf);
  }

  /** The FIRE tab's call as written: the 房產/固定 split, a fixed 3%
      real-estate growth and 3% inflation, real estate growing only when it
      is included; age, savings, return and spending pass through. */
  function PlanInputs(assets: seq<ValuedAsset>, netWorth: real, includeHouse: bool,
                      age: int, savings: real, investReturn: real, expense: real): (p: Inputs)
    ensures p.investable == (if assets == [] then 0.0 else netWorth - Sum(assets, HouseValue))
    ensures p.house == (if assets != [] && includeHouse then Sum(assets, HouseValue) else 0.0)
    ensures p.currentAge == age && p.savings == savings && p.investReturn == investReturn
    ensures p.customExpense == expense
    ensures p.houseGrowth == 3.0 && p.inflation == 3.0 && p.includeHouseGrowth == includeHouse
  {
    var s := HouseSplitAsWritten(assets, netWorth, includeHouse);
    Inputs(age, s.0, s.1, savings, investReturn, 3.0, 3.0, expense, includeHouse)
  }

  /** The same call with the estimator's real-estate test: with the
      estimator's inputs, the capital compounded is the base the rate was
      estimated over, and capital plus real estate is the net worth when
      real estate is included. */
  function PlanInputsCorrected(assets: seq<ValuedAsset>, liabilities: real, includeHouse: bool,
                               age: int, savings: real, investReturn: real, expense: real): (p: Inputs)
    ensures assets != [] ==> p.investable == TotalValue(Considered(assets, false)) - liabilities
    ensures assets != [] && includeHouse ==> p.investable + p.house == TotalValue(assets) - liabilities
    ensures !includeHouse ==> p.house == 0.0
    ensures assets == [] ==> p.investable == 0.0 && p.house == 0.0
    ensures p.currentAge == age && p.savings == savings && p.investReturn == investReturn
    ensures p.customExpense == expense
    ensures p.houseGrowth == 3.0 && p.inflation == 3.0 && p.includeHouseGrowth == includeHouse
  {
    var s := HouseSplit(assets, TotalValue(assets) - liabilities, includeHouse);
    var p := Inputs(age, s.0, s.1, savings, investReturn, 3.0, 3.0, expense, includeHouse);
    if assets == [] then p
    else
      HouseSplitMatchesEstimate(assets, liabilities, includeHouse);
      p
  }
}
