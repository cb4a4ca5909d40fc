/** The expected-return estimator of the FIRE tab: a value-weighted
    average of per-category return rates over the derived asset table. */
module ReturnEstimator {
  import opened Text
  import opened Records
  import opened Valuation

  /** Expected annual return (%) per category keyword, in the order the
      lookup tries them; a category takes the rate of the first keyword
      it contains. */
  const ReturnsMap: seq<(string, real)> := [
    ("美股", 10.0), ("台股", 8.0), ("虛擬貨幣", 25.0),
    ("現金", 1.0), ("房產", 3.0), ("固定資產", 3.0)]

  /** Rate of a category that contains no keyword. */
  const DefaultRate: real := 3.0

  /** Rate reported when there is nothing to weigh. */
  const FallbackRate: real := 5.0

  const NoAssetsText: string := "無資產"
  const NoValidAssetsText: string := "無有效資產可計算"

  /** The lookup from keyword j onwards. */
  function RateFrom(category: string, j: nat): real
    decreases |ReturnsMap| - j
  {
    if j >= |ReturnsMap| then DefaultRate
    else if Contains(category, ReturnsMap[j].0) then ReturnsMap[j].1
    else RateFrom(category, j + 1)
  }

  function RateFor(category: string): real
  {
    RateFrom(category, 0)
  }

  predicate KeyIn(category: string, j: int)
  {
    0 <= j < |ReturnsMap| && Contains(category, ReturnsMap[j].0)
  }

  /** The rate is that of the first keyword the category contains, and the
      default when it contains none. */
  lemma {:induction false} RateFromFirstMatch(category: string, start: nat, j: nat)
    requires start <= j
    ensures KeyIn(category, j) && (forall k :: start <= k < j ==> !KeyIn(category, k))
      ==> RateFrom(category, start) == ReturnsMap[j].1
    ensures (forall k :: start <= k < |ReturnsMap| ==> !KeyIn(category, k))
      ==> RateFrom(category, start) == DefaultRate
    decreases |ReturnsMap| - start
  {
    if start < |ReturnsMap| && !KeyIn(category, start) {
      if start < j {
        RateFromFirstMatch(category, start + 1, j);
      } else {
        RateFromFirstMatch(category, start + 1, start + 1);
      }
    }
  }

  lemma RateForFirstMatch(category: string)
    ensures forall j :: (KeyIn(category, j) && (forall k :: 0 <= k < j ==> !KeyIn(category, k)))
                        ==> RateFor(category) == ReturnsMap[j].1
    ensures (forall k :: 0 <= k < |ReturnsMap| ==> !KeyIn(category, k)) ==> RateFor(category) == DefaultRate
  {
    forall j | KeyIn(category, j) && (forall k :: 0 <= k < j ==> !KeyIn(category, k))
      ensures RateFor(category) == ReturnsMap[j].1
    {
      RateFromFirstMatch(category, 0, j);
    }
    RateFromFirstMatch(category, 0, 0);
  }

  /** Every rate the lookup can give lies between 1% and 25%. */
  lemma {:induction false} RateFromBounds(category: string, j: nat)
    ensures 1.0 <= RateFrom(category, j) <= 25.0
    decreases |ReturnsMap| - j
  {
    if j < |ReturnsMap| && !Contains(category, ReturnsMap[j].0) {
      RateFromBounds(category, j + 1);
    }
  }

  /** Categories the "exclude real estate" mode leaves out. */
  predicate PropertyLike(category: string)
  {
    Contains(category, "房產") || Contains(category, "固定") || Contains(category, "地產")
  }

  predicate Weighed(a: ValuedAsset, includeHouse: bool)
  {
    includeHouse || !PropertyLike(a.category)
  }

  /** The rows that take part in the estimate, in table order. */
  function Considered(assets: seq<ValuedAsset>, includeHouse: bool): seq<ValuedAsset>
    decreases |assets|
  {
    if assets == [] then []
    else
      var a := assets[|assets| - 1];
      Considered(assets[..|assets| - 1], includeHouse) + (if Weighed(a, includeHouse) then [a] else [])
  }

  /** A row takes part exactly when it is in the table and is not excluded. */
  lemma {:induction false} ConsideredMembers(assets: seq<ValuedAsset>, includeHouse: bool, a: ValuedAsset)
    ensures a in Considered(assets, includeHouse) <==> a in assets && Weighed(a, includeHouse)
    decreases |assets|
  {
    if assets != [] {
      var init := assets[..|assets| - 1];
      ConsideredMembers(init, includeHouse, a);
      assert assets == init + [assets[|assets| - 1]];
    }
  }

  /** f over the considered rows, or 0 for a row that is left out. */
  function Masked(f: ValuedAsset -> real, includeHouse: bool): ValuedAsset -> real
  {
    (a: ValuedAsset) => if Weighed(a, includeHouse) then f(a) else 0.0
  }

  lemma {:induction false} SumConsidered(assets: seq<ValuedAsset>, includeHouse: bool, f: ValuedAsset -> real)
    ensures Sum(Considered(assets, includeHouse), f) == Sum(assets, Masked(f, includeHouse))
    decreases |assets|
  {
    if assets != [] {
      var init := assets[..|assets| - 1];
      var a := assets[|assets| - 1];
      SumConsidered(init, includeHouse, f);
      SumAppend(Considered(init, includeHouse), if Weighed(a, includeHouse) then [a] else [], f);
      assert Sum([a], f) == f(a) by { assert [a][..0] == []; }
    }
  }

  /** rate x value of a row, for a given category-to-rate lookup. */
  function RateTimes(rate: string -> real): ValuedAsset -> real
  {
    (a: ValuedAsset) => rate(a.category) * a.value
  }

  lemma RateTimesOf(rate: string -> real, a: ValuedAsset)
    ensures RateTimes(rate)(a) == rate(a.category) * a.value
  {
  }

  /** One group of the category group-by: a category and its summed value. */
  datatype Group = Group(category: string, value: real)

  /** Python's string order: code point by code point, a proper prefix first. */
  predicate Before(a: string, b: string)
    decreases |a|
  {
    if a == [] then b != []
    else if b == [] then false
    else if a[0] != b[0] then a[0] < b[0]
    else Before(a[1..], b[1..])
  }

  lemma {:induction false} BeforeIrreflexive(a: string)
    ensures !Before(a, a)
    decreases |a|
  {
    if a != [] { BeforeIrreflexive(a[1..]); }
  }

  lemma {:induction false} BeforeTotal(a: string, b: string)
    requires a != b
    ensures Before(a, b) || Before(b, a)
    decreases |a|
  {
    if a != [] && b != [] && a[0] == b[0] {
      assert a == [a[0]] + a[1..] && b == [b[0]] + b[1..];
      BeforeTotal(a[1..], b[1..]);
    }
  }

  lemma {:induction false} BeforeTransitive(a: string, b: string, c: string)
    requires Before(a, b) && Before(b, c)
    ensures Before(a, c)
    decreases |a|
  {
    if a != [] && b != [] && c != [] && a[0] == b[0] && b[0] == c[0] {
      BeforeTransitive(a[1..], b[1..], c[1..]);
    }
  }

  /** Groups in ascending category order, hence each category once. */
  predicate SortedGroups(gs: seq<Group>)
  {
    forall i, j :: 0 <= i < j < |gs| ==> Before(gs[i].category, gs[j].category)
  }

  function CategoriesOf(gs: seq<Group>): set<string>
  {
    set g | g in gs :: g.category
  }

  function RowCategories(rows: seq<ValuedAsset>): set<string>
  {
    set a | a in rows :: a.category
  }

  /** Sum of the group values, first group first. */
  function GroupTotal(gs: seq<Group>): real
  {
    if gs == [] then 0.0 else gs[0].value + GroupTotal(gs[1..])
  }

  /** Σ w(category, value) over the groups, first group first. */
  function GroupFold(gs: seq<Group>, w: (string, real) -> real): real
  {
    if gs == [] then 0.0 else w(gs[0].category, gs[0].value) + GroupFold(gs[1..], w)
  }

  /** Σ w(category, value) over the rows, last row last. */
  function RowFold(rows: seq<ValuedAsset>, w: (string, real) -> real): real
    decreases |rows|
  {
    if rows == [] then 0.0
    else RowFold(rows[..|rows| - 1], w) + w(rows[|rows| - 1].category, rows[|rows| - 1].value)
  }

  /** w distributes over adding two values of the same category. */
  predicate AdditiveAt(w: (string, real) -> real, c: string, x: real, y: real)
  {
    w(c, x + y) == w(c, x) + w(c, y)
  }

  /** rate x value, as a weight of a category and a value. */
  function RateWeight(rate: string -> real): (string, real) -> real
  {
    (c: string, x: real) => rate(c) * x
  }

  /** Sum of rate x value over the groups. */
  function GroupRateSum(gs: seq<Group>, rate: string -> real): real
  {
    GroupFold(gs, RateWeight(rate))
  }

  /** Add one row's value to its category, keeping the groups in order. */
  function AddToGroups(gs: seq<Group>, category: string, v: real): seq<Group>
  {
    if gs == [] then [Group(category, v)]
    else if gs[0].category == category then [Group(category, gs[0].value + v)] + gs[1..]
    else if Before(category, gs[0].category) then [Group(category, v)] + gs
    else [gs[0]] + AddToGroups(gs[1..], category, v)
  }

  lemma CategoriesOfCons(g: Group, gs: seq<Group>)
    ensures CategoriesOf([g] + gs) == {g.category} + CategoriesOf(gs)
  {
    var r := [g] + gs;
    assert forall x :: x in r <==> x == g || x in gs;
  }

  /** Adding a row adds its category, if new, and no other. */
  lemma {:induction false} AddToGroupsCategories(gs: seq<Group>, category: string, v: real)
    ensures CategoriesOf(AddToGroups(gs, category, v)) == CategoriesOf(gs) + {category}
  {
    if gs == [] {
      CategoriesOfCons(Group(category, v), []);
    } else {
      assert gs == [gs[0]] + gs[1..];
      CategoriesOfCons(gs[0], gs[1..]);
      if gs[0].category == category {
        CategoriesOfCons(Group(category, gs[0].value + v), gs[1..]);
      } else if Before(category, gs[0].category) {
        CategoriesOfCons(Group(category, v), gs);
      } else {
        AddToGroupsCategories(gs[1..], category, v);
        CategoriesOfCons(gs[0], AddToGroups(gs[1..], category, v));
      }
    }
  }

  /** Adding a row adds its value to the total of the groups. */
  lemma {:induction false} AddToGroupsTotal(gs: seq<Group>, category: string, v: real)
    ensures GroupTotal(AddToGroups(gs, category, v)) == GroupTotal(gs) + v
  {
    var r := AddToGroups(gs, category, v);
    if gs == [] {
      assert r[1..] == [];
    } else if gs[0].category == category {
      assert r[1..] == gs[1..];
    } else if Before(category, gs[0].category) {
      assert r[1..] == gs;
    } else {
      AddToGroupsTotal(gs[1..], category, v);
      assert r[1..] == AddToGroups(gs[1..], category, v);
    }
  }

  /** Adding a row adds its weight to the groups' weight, provided the
      weight is additive where the row merges into an existing group. */
  lemma {:induction false} AddToGroupsFold(gs: seq<Group>, category: string, v: real, w: (string, real) -> real)
    requires forall g :: g in gs && g.category == category ==> AdditiveAt(w, category, g.value, v)
    ensures GroupFold(AddToGroups(gs, category, v), w) == GroupFold(gs, w) + w(category, v)
  {
    var r := AddToGroups(gs, category, v);
    if gs == [] {
      assert r[1..] == [];
    } else if gs[0].category == category {
      assert gs[0] in gs;
      assert r[1..] == gs[1..];
    } else if Before(category, gs[0].category) {
      assert r[1..] == gs;
    } else {
      assert forall g :: g in gs[1..] ==> g in gs;
      AddToGroupsFold(gs[1..], category, v, w);
      assert r[1..] == AddToGroups(gs[1..], category, v);
    }
  }

  /** A sorted sequence of groups is a first group before all the others,
      followed by a sorted rest. */
  lemma SortedCons(g: Group, gs: seq<Group>)
    ensures SortedGroups([g] + gs) <==>
      SortedGroups(gs) && forall x :: x in gs ==> Before(g.category, x.category)
  {
    var r := [g] + gs;
    if SortedGroups(gs) && forall x :: x in gs ==> Before(g.category, x.category) {
      forall i, j | 0 <= i < j < |r| ensures Before(r[i].category, r[j].category) {
        assert r[j] == gs[j - 1] && gs[j - 1] in gs;
        if i > 0 {
          assert r[i] == gs[i - 1];
        }
      }
    }
    if SortedGroups(r) {
      forall x | x in gs ensures Before(g.category, x.category) {
        var k :| 0 <= k < |gs| && gs[k] == x;
        assert r[0] == g && r[k + 1] == x;
        assert Before(r[0].category, r[k + 1].category);
      }
      forall i, j | 0 <= i < j < |gs| ensures Before(gs[i].category, gs[j].category) {
        assert r[i + 1] == gs[i] && r[j + 1] == gs[j];
      }
    }
  }

  lemma {:induction false} AddToGroupsSorted(gs: seq<Group>, category: string, v: real)
    requires SortedGroups(gs)
    ensures SortedGroups(AddToGroups(gs, category, v))
  {
    if gs != [] {
      var g, tail := gs[0], gs[1..];
      assert gs == [g] + tail;
      SortedCons(g, tail);
      if g.category == category {
        SortedCons(Group(category, g.value + v), tail);
      } else if Before(category, g.category) {
        forall x | x in gs ensures Before(category, x.category) {
          if x != g {
            BeforeTransitive(category, g.category, x.category);
          }
        }
        SortedCons(Group(category, v), gs);
      } else {
        BeforeTotal(category, g.category);
        var rest := AddToGroups(tail, category, v);
        AddToGroupsSorted(tail, category, v);
        AddToGroupsCategories(tail, category, v);
        forall x | x in rest ensures Before(g.category, x.category) {
          assert x.category in CategoriesOf(rest);
          if x.category != category {
            var y :| y in tail && y.category == x.category;
          }
        }
        SortedCons(g, rest);
      }
    }
  }

  /** The category group-by: one group per category, ascending. */
  function GroupByCategory(rows: seq<ValuedAsset>): seq<Group>
    decreases |rows|
  {
    if rows == [] then []
    else
      var a := rows[|rows| - 1];
      AddToGroups(GroupByCategory(rows[..|rows| - 1]), a.category, a.value)
  }

  lemma {:induction false} GroupBySorted(rows: seq<ValuedAsset>)
    ensures SortedGroups(GroupByCategory(rows))
    decreases |rows|
  {
    if rows != [] {
      var init := rows[..|rows| - 1];
      var a := rows[|rows| - 1];
      GroupBySorted(init);
      AddToGroupsSorted(GroupByCategory(init), a.category, a.value);
    }
  }

  lemma {:induction false} GroupByCategories(rows: seq<ValuedAsset>)
    ensures CategoriesOf(GroupByCategory(rows)) == RowCategories(rows)
    decreases |rows|
  {
    if rows != [] {
      var init := rows[..|rows| - 1];
      var a := rows[|rows| - 1];
      GroupByCategories(init);
      AddToGroupsCategories(GroupByCategory(init), a.category, a.value);
      assert rows == init + [a];
      assert RowCategories(rows) == RowCategories(init) + {a.category};
    }
  }

  lemma {:induction false} GroupByTotal(rows: seq<ValuedAsset>)
    ensures GroupTotal(GroupByCategory(rows)) == TotalValue(rows)
    decreases |rows|
  {
    if rows != [] {
      var init := rows[..|rows| - 1];
      var a := rows[|rows| - 1];
      GroupByTotal(init);
      AddToGroupsTotal(GroupByCategory(init), a.category, a.value);
    }
  }

  lemma RateWeightOf(rate: string -> real, c: string, x: real)
    ensures RateWeight(rate)(c, x) == rate(c) * x
  {
  }

  lemma RateWeightAdditive(rate: string -> real)
    ensures forall c, x, y :: AdditiveAt(RateWeight(rate), c, x, y)
  {
    forall c, x, y ensures AdditiveAt(RateWeight(rate), c, x, y) {
      RateWeightOf(rate, c, x + y);
      RateWeightOf(rate, c, x);
      RateWeightOf(rate, c, y);
      var r := rate(c);
      assert r * (x + y) == r * x + r * y;
    }
  }

  lemma {:induction false} RowRateSumIsSum(rows: seq<ValuedAsset>, rate: string -> real)
    ensures RowFold(rows, RateWeight(rate)) == Sum(rows, RateTimes(rate))
    decreases |rows|
  {
    if rows != [] {
      var a := rows[|rows| - 1];
      RowRateSumIsSum(rows[..|rows| - 1], rate);
      RateTimesOf(rate, a);
      RateWeightOf(rate, a.category, a.value);
    }
  }

  /** The group-by neither loses nor invents weight, for any weight that is
      additive within a category. */
  lemma {:induction false} GroupByFold(rows: seq<ValuedAsset>, w: (string, real) -> real)
    requires forall c, x, y :: AdditiveAt(w, c, x, y)
    ensures GroupFold(GroupByCategory(rows), w) == RowFold(rows, w)
    decreases |rows|
  {
    if rows != [] {
      var init := rows[..|rows| - 1];
      var a := rows[|rows| - 1];
      GroupByFold(init, w);
      AddToGroupsFold(GroupByCategory(init), a.category, a.value, w);
    }
  }

  /** The group-by has each category of the rows once, in ascending order,
      and neither loses nor invents value or rate-weighted value. */
  lemma GroupByFacts(rows: seq<ValuedAsset>)
    ensures SortedGroups(GroupByCategory(rows))
    ensures CategoriesOf(GroupByCategory(rows)) == RowCategories(rows)
    ensures GroupTotal(GroupByCategory(rows)) == TotalValue(rows)
    ensures forall rate :: GroupRateSum(GroupByCategory(rows), rate) == Sum(rows, RateTimes(rate))
  {
    GroupBySorted(rows);
    GroupByCategories(rows);
    GroupByTotal(rows);
    forall rate ensures GroupRateSum(GroupByCategory(rows), rate) == Sum(rows, RateTimes(rate)) {
      RateWeightAdditive(rate);
      GroupByFold(rows, RateWeight(rate));
      RowRateSumIsSum(rows, rate);
    }
  }

  /** Sorted groups never repeat a category. */
  lemma SortedGroupsDistinct(gs: seq<Group>)
    requires SortedGroups(gs)
    ensures forall i, j :: 0 <= i < j < |gs| ==> gs[i].category != gs[j].category
  {
    forall i, j | 0 <= i < j < |gs| ensures gs[i].category != gs[j].category {
      if gs[i].category == gs[j].category {
        BeforeIrreflexive(gs[i].category);
      }
    }
  }

  /** The weighted return accumulated group by group: Σ rate x (value / total). */
  function GroupWeighted(gs: seq<Group>, total: real, rate: string -> real): real
    requires total != 0.0
  {
    if gs == [] then 0.0
    else rate(gs[0].category) * (gs[0].value / total) + GroupWeighted(gs[1..], total, rate)
  }

  lemma {:induction false} GroupWeightedIsRatio(gs: seq<Group>, total: real, rate: string -> real)
    requires total != 0.0
    ensures GroupWeighted(gs, total, rate) == GroupRateSum(gs, rate) / total
  {
    if gs != [] {
      GroupWeightedIsRatio(gs[1..], total, rate);
      var r, v := rate(gs[0].category), gs[0].value;
      RateWeightOf(rate, gs[0].category, v);
      assert r * (v / total) == (r * v) / total;
    }
  }

  /** The rate the estimator reports (before rounding). */
  function ExpectedReturn(assets: seq<ValuedAsset>, includeHouse: bool): real
  {
    if assets == [] then FallbackRate
    else
      var rows := Considered(assets, includeHouse);
      var total := TotalValue(rows);
      if total == 0.0 then FallbackRate
      else GroupWeighted(GroupByCategory(rows), total, RateFor)
  }

  /** One line of the explanation: category, its share of the total, its rate. */
  datatype Line = Line(category: string, weight: real, rate: real)

  datatype Explanation = Note(text: string) | Breakdown(includesProperty: bool, lines: seq<Line>)

  datatype Estimate = Estimate(rate: real, explanation: Explanation)

  function LineFor(g: Group, total: real): Line
    requires total != 0.0
  {
    Line(g.category, g.value / total, RateFor(g.category))
  }

  /** The inner lookup loop: scan the keywords in order and take the rate
      of the first one the category contains, the default if none. */
  method LookupRate(category: string) returns (r: real)
    ensures r == RateFor(category)
  {
    r := DefaultRate;
    var j := 0;
    while j < |ReturnsMap|
      invariant 0 <= j <= |ReturnsMap|
      invariant RateFrom(category, j) == RateFor(category)
      invariant r == DefaultRate
    {
      if Contains(category, ReturnsMap[j].0) {
        r := ReturnsMap[j].1;
        break;
      }
      j := j + 1;
    }
  }

  lemma GroupWeightedStep(gs: seq<Group>, i: nat, total: real, rate: string -> real)
    requires total != 0.0 && i < |gs|
    ensures GroupWeighted(gs[i..], total, rate)
      == rate(gs[i].category) * (gs[i].value / total) + GroupWeighted(gs[i + 1..], total, rate)
  {
    assert gs[i..][1..] == gs[i + 1..];
  }

  /** The state of the group loop after the first i groups: the weighted
      sum so far, and one line per group weighed, for a given rate lookup. */
  predicate Weighing(groups: seq<Group>, total: real, rate: string -> real, i: nat, weighted: real, lines: seq<Line>)
    requires total != 0.0
  {
    && i <= |groups|
    && weighted + GroupWeighted(groups[i..], total, rate) == GroupWeighted(groups, total, rate)
    && |lines| == i
    && forall k :: 0 <= k < i ==> lines[k] == Line(groups[k].category, groups[k].value / total, rate(groups[k].category))
  }

  /** Weighing group i moves the loop state from i to i + 1. */
  lemma WeighingStep(groups: seq<Group>, total: real, rate: string -> real, i: nat, weighted: real, lines: seq<Line>)
    requires total != 0.0 && i < |groups| && Weighing(groups, total, rate, i, weighted, lines)
    ensures
      var g := groups[i];
      Weighing(groups, total, rate, i + 1, weighted + rate(g.category) * (g.value / total),
               lines + [Line(g.category, g.value / total, rate(g.category))])
  {
    GroupWeightedStep(groups, i, total, rate);
  }

  /** The loop over the category groups: each group's rate times its
      share of the total is added up, and one explanation line is kept per
      group, in group order. */
  method WeighGroups(groups: seq<Group>, total: real) returns (weighted: real, lines: seq<Line>)
    requires total != 0.0
    ensures weighted == GroupWeighted(groups, total, RateFor)
    ensures |lines| == |groups|
    ensures forall k :: 0 <= k < |groups| ==> lines[k] == LineFor(groups[k], total)
  {
    weighted := 0.0;
    lines := [];
    for i := 0 to |groups|
      invariant Weighing(groups, total, RateFor, i, weighted, lines)
    {
      var category := groups[i].category;
      var r := LookupRate(category);
      var weight := groups[i].value / total;
      WeighingStep(groups, total, RateFor, i, weighted, lines);
      weighted := weighted + r * weight;
      lines := lines + [Line(category, weight, r)];
    }
    assert groups[|groups|..] == [];
  }

  /** The estimator: the two fallbacks, then a loop over the category
      groups looking up each rate and accumulating rate x weight. */
  method PredictReturn(assets: seq<ValuedAsset>, includeHouse: bool) returns (e: Estimate)
    ensures e.rate == ExpectedReturn(assets, includeHouse)
    ensures assets == [] ==> e.explanation == Note(NoAssetsText)
    ensures assets != [] && TotalValue(Considered(assets, includeHouse)) == 0.0 ==>
      e.explanation == Note(NoValidAssetsText)
    ensures assets != [] && TotalValue(Considered(assets, includeHouse)) != 0.0 ==>
      var total := TotalValue(Considered(assets, includeHouse));
      var groups := GroupByCategory(Considered(assets, includeHouse));
      && e.explanation.Breakdown?
      && e.explanation.includesProperty == includeHouse
      && |e.explanation.lines| == |groups|
      && forall k :: 0 <= k < |groups| ==> e.explanation.lines[k] == LineFor(groups[k], total)
  {
    if assets == [] {
      return Estimate(FallbackRate, Note(NoAssetsText));
    }
    var rows := Considered(assets, includeHouse);
    var total := TotalValue(rows);
    if total == 0.0 {
      return Estimate(FallbackRate, Note(NoValidAssetsText));
    }
    var weighted, lines := WeighGroups(GroupByCategory(rows), total);
    e := Estimate(weighted, Breakdown(includeHouse, lines));
  }

  /** With some value to weigh, the estimate is Σ rate x value / Σ value
      over the considered rows: the grouping changes nothing. */
  lemma ExpectedReturnIsRowAverage(assets: seq<ValuedAsset>, includeHouse: bool)
    requires assets != []
    requires TotalValue(Considered(assets, includeHouse)) != 0.0
    ensures ExpectedReturn(assets, includeHouse) ==
      Sum(Considered(assets, includeHouse), RateTimes(RateFor)) / TotalValue(Considered(assets, includeHouse))
  {
    var rows := Considered(assets, includeHouse);
    GroupByFacts(rows);
    GroupWeightedIsRatio(GroupByCategory(rows), TotalValue(rows), RateFor);
  }

  /** The estimate does not depend on the order of the asset rows. */
  lemma ExpectedReturnOrderFree(a: seq<ValuedAsset>, b: seq<ValuedAsset>, includeHouse: bool)
    requires multiset(a) == multiset(b)
    ensures ExpectedReturn(a, includeHouse) == ExpectedReturn(b, includeHouse)
  {
    assert |a| == |multiset(a)| == |multiset(b)| == |b|;
    if a != [] {
      SumConsidered(a, includeHouse, ValueOf);
      SumConsidered(b, includeHouse, ValueOf);
      SumPermutation(a, b, Masked(ValueOf, includeHouse));
      SumConsidered(a, includeHouse, RateTimes(RateFor));
      SumConsidered(b, includeHouse, RateTimes(RateFor));
      SumPermutation(a, b, Masked(RateTimes(RateFor), includeHouse));
      if TotalValue(Considered(a, includeHouse)) != 0.0 {
        ExpectedReturnIsRowAverage(a, includeHouse);
        ExpectedReturnIsRowAverage(b, includeHouse);
      }
    }
  }

  /** In the "exclude real estate" mode no property-like row takes part,
      so adding or removing one never moves the estimate. */
  lemma PropertyNeverWeighed(assets: seq<ValuedAsset>, p: ValuedAsset)
    requires PropertyLike(p.category)
    ensures forall a :: a in Considered(assets, false) ==> !PropertyLike(a.category)
    ensures assets != [] ==> ExpectedReturn(assets + [p], false) == ExpectedReturn(assets, false)
  {
    forall a | a in Considered(assets, false) ensures !PropertyLike(a.category) {
      ConsideredMembers(assets, false, a);
    }
    var extended := assets + [p];
    assert extended[..|extended| - 1] == assets;
    assert extended[|extended| - 1] == p;
    assert !Weighed(p, false);
    assert Considered(extended, false) == Considered(assets, false) + [];
    assert Considered(extended, false) == Considered(assets, false);
  }

  lemma MulMono(x: real, y: real, c: real)
    requires x <= y && c >= 0.0
    ensures x * c <= y * c
  {
    assert (y - x) * c >= 0.0;
  }

  lemma RatioBounds(s: real, t: real, lo: real, hi: real)
    requires t > 0.0 && lo * t <= s <= hi * t
    ensures lo <= s / t <= hi
  {
    var q := s / t;
    assert q * t == s;
    if q < lo {
      MulMono(q, lo, t);
    }
    if q > hi {
      MulMono(hi, q, t);
    }
  }

  /** With rates in [lo, hi] and non-negative values, Σ rate x value lies
      between lo and hi times Σ value. */
  lemma {:induction false} RateSumBounds(rows: seq<ValuedAsset>, rate: string -> real, lo: real, hi: real)
    requires forall a :: a in rows ==> a.value >= 0.0
    requires forall c :: lo <= rate(c) <= hi
    ensures lo * TotalValue(rows) <= Sum(rows, RateTimes(rate)) <= hi * TotalValue(rows)
    decreases |rows|
  {
    if rows != [] {
      var init, a := rows[..|rows| - 1], rows[|rows| - 1];
      assert a in rows;
      assert forall x :: x in init ==> x in rows;
      RateSumBounds(init, rate, lo, hi);
      var t0, s0 := TotalValue(init), Sum(init, RateTimes(rate));
      assert TotalValue(rows) == t0 + a.value;
      assert Sum(rows, RateTimes(rate)) == s0 + rate(a.category) * a.value;
      BoundStep(lo, hi, t0, s0, rate(a.category), a.value);
    }
  }

  /** One more row keeps the weighted sum between the bounds. */
  lemma BoundStep(lo: real, hi: real, t0: real, s0: real, r: real, v: real)
    requires lo * t0 <= s0 <= hi * t0 && lo <= r <= hi && v >= 0.0
    ensures lo * (t0 + v) <= s0 + r * v <= hi * (t0 + v)
  {
    MulMono(lo, r, v);
    MulMono(r, hi, v);
  }

  /** With positive asset values (as the valuation guarantees) the estimate
      lies between the smallest and the largest rate, 1% and 25%. */
  lemma ExpectedReturnBounds(assets: seq<ValuedAsset>, includeHouse: bool)
    requires forall a :: a in assets ==> a.value > 0.0
    ensures 1.0 <= ExpectedReturn(assets, includeHouse) <= 25.0
  {
    var rows := Considered(assets, includeHouse);
    forall a | a in rows ensures a.value > 0.0 {
      ConsideredMembers(assets, includeHouse, a);
    }
    TotalOfPositives(rows);
    if assets != [] && TotalValue(rows) != 0.0 {
      ExpectedReturnIsRowAverage(assets, includeHouse);
      forall c ensures 1.0 <= RateFor(c) <= 25.0 {
        RateFromBounds(c, 0);
      }
      RateSumBounds(rows, RateFor, 1.0, 25.0);
      var t, s := TotalValue(rows), Sum(rows, RateTimes(RateFor));
      RatioBounds(s, t, 1.0, 25.0);
    }
  }

  /** On the asset table the valuation derives, the estimate always lies
      between 1% and 25%: every row it emits has a positive value. */
  lemma EstimateOfValuation(us: seq<Holding>, tw: seq<Holding>, fixed: seq<FixedAsset>, includeHouse: bool)
    ensures 1.0 <= ExpectedReturn(Emitted(us, tw, fixed), includeHouse) <= 25.0
  {
    var u, t, f := EmitHoldings(us, ExchangeRate), EmitHoldings(tw, 1.0), EmitFixed(fixed);
    assert forall a :: a in Emitted(us, tw, fixed) ==> a in u || a in t || a in f;
    ExpectedReturnBounds(Emitted(us, tw, fixed), includeHouse);
  }
}
