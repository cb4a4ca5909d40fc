/** Portfolio valuation: turns the holdings, fixed-asset and liability
    sheets into the derived asset table and the four headline figures
    (net worth, total assets, total liabilities, monthly burn). */
module Valuation {
  import opened Text
  import opened Records

  /** TWD per USD, fixed in the application. */
  const ExchangeRate: real := 32.5

  /** The custom price when it is positive, the market price otherwise. */
  function EffectivePrice(h: Holding): real
  {
    if h.customPrice > 0.0 then h.customPrice else h.marketPrice
  }

  function HoldingValue(h: Holding, rate: real): real
  {
    EffectivePrice(h) * h.shares * rate
  }

  /** The display-cleanliness rule: a row is shown only when its key is
      neither blank nor the text "None" and its value is positive. */
  predicate Shown(key: string, value: real)
  {
    key != "" && key != "None" && value > 0.0
  }

  /** What the derived table says of an asset row. */
  predicate Clean(a: ValuedAsset)
  {
    Shown(a.name, a.value)
  }

  function HoldingAsset(h: Holding, rate: real): ValuedAsset
  {
    ValuedAsset(Strip(h.code), h.category, HoldingValue(h, rate))
  }

  function FixedAssetValued(f: FixedAsset): ValuedAsset
  {
    ValuedAsset(Strip(f.item), f.category, f.value)
  }

  /** The asset rows one holdings sheet contributes, in sheet order. */
  function EmitHoldings(rows: seq<Holding>, rate: real): (r: seq<ValuedAsset>)
    ensures |r| <= |rows|
    ensures forall a :: a in r ==> Clean(a)
    decreases |rows|
  {
    if rows == [] then []
    else
      var a := HoldingAsset(rows[|rows| - 1], rate);
      EmitHoldings(rows[..|rows| - 1], rate) + (if Clean(a) then [a] else [])
  }

  /** The asset rows the fixed-asset sheet contributes, in sheet order. */
  function EmitFixed(rows: seq<FixedAsset>): (r: seq<ValuedAsset>)
    ensures |r| <= |rows|
    ensures forall a :: a in r ==> Clean(a)
    decreases |rows|
  {
    if rows == [] then []
    else
      var a := FixedAssetValued(rows[|rows| - 1]);
      EmitFixed(rows[..|rows| - 1]) + (if Clean(a) then [a] else [])
  }

  /** The whole derived asset table: US rows, then TW rows, then fixed assets. */
  function Emitted(us: seq<Holding>, tw: seq<Holding>, fixed: seq<FixedAsset>): seq<ValuedAsset>
  {
    EmitHoldings(us, ExchangeRate) + EmitHoldings(tw, 1.0) + EmitFixed(fixed)
  }

  function TotalAmount(liabs: seq<Liability>): real
    decreases |liabs|
  {
    if liabs == [] then 0.0 else TotalAmount(liabs[..|liabs| - 1]) + liabs[|liabs| - 1].amount
  }

  function TotalMonthly(liabs: seq<Liability>): real
    decreases |liabs|
  {
    if liabs == [] then 0.0 else TotalMonthly(liabs[..|liabs| - 1]) + liabs[|liabs| - 1].monthly
  }

  datatype Summary = Summary(
    assets: seq<ValuedAsset>,
    totalAssets: real,
    totalLiabilities: real,
    totalMonthly: real,
    netWorth: real)

  /** One holdings loop of the main page (US rows with the exchange rate,
      TW rows with rate 1): append every row that is shown. */
  method ValueHoldingRows(rows: seq<Holding>, rate: real) returns (assets: seq<ValuedAsset>)
    ensures assets == EmitHoldings(rows, rate)
  {
    assets := [];
    for i := 0 to |rows|
      invariant assets == EmitHoldings(rows[..i], rate)
    {
      var p := rows[i].customPrice;
      if p <= 0.0 { p := rows[i].marketPrice; }
      assert p == EffectivePrice(rows[i]);
      var v := p * rows[i].shares * rate;
      var code := Strip(rows[i].code);
      assert ValuedAsset(code, rows[i].category, v) == HoldingAsset(rows[i], rate);
      if code != "" && code != "None" && v > 0.0 {
        assets := assets + [ValuedAsset(code, rows[i].category, v)];
      }
      assert rows[..i + 1][..i] == rows[..i];
    }
    assert rows[..|rows|] == rows;
  }

  /** The fixed-asset loop of the main page: 現值 is the value itself. */
  method ValueFixedRows(rows: seq<FixedAsset>) returns (assets: seq<ValuedAsset>)
    ensures assets == EmitFixed(rows)
  {
    assets := [];
    for i := 0 to |rows|
      invariant assets == EmitFixed(rows[..i])
    {
      var name := Strip(rows[i].item);
      var v := rows[i].value;
      if name != "" && name != "None" && v > 0.0 {
        assets := assets + [ValuedAsset(name, rows[i].category, v)];
      }
      assert rows[..i + 1][..i] == rows[..i];
    }
    assert rows[..|rows|] == rows;
  }

  /** The valuation block of the main page: the derived asset table from
      the three asset sheets, then the totals and the net worth. */
  method Valuate(us: seq<Holding>, tw: seq<Holding>, fixed: seq<FixedAsset>, liabs: seq<Liability>)
    returns (s: Summary)
    ensures s.assets == Emitted(us, tw, fixed)
    ensures forall a :: a in s.assets ==> Clean(a)
    ensures s.totalAssets == TotalValue(s.assets)
    ensures s.totalLiabilities == TotalAmount(liabs)
    ensures s.totalMonthly == TotalMonthly(liabs)
    ensures s.netWorth == s.totalAssets - s.totalLiabilities
  {
    var usAssets := ValueHoldingRows(us, ExchangeRate);
    var twAssets := ValueHoldingRows(tw, 1.0);
    var fixedAssets := ValueFixedRows(fixed);
    var assets := usAssets + twAssets + fixedAssets;
    var totalAssets := TotalValue(assets);
    var totalLiab := TotalAmount(liabs);
    var totalMonthly := TotalMonthly(liabs);
    s := Summary(assets, totalAssets, totalLiab, totalMonthly, totalAssets - totalLiab);
  }

  /** Row i of a holdings sheet is shown and values to a. */
  predicate HoldingRowGives(rows: seq<Holding>, rate: real, i: int, a: ValuedAsset)
  {
    0 <= i < |rows| && Clean(HoldingAsset(rows[i], rate)) && a == HoldingAsset(rows[i], rate)
  }

  /** Row i of the fixed-asset sheet is shown and values to a. */
  predicate FixedRowGives(rows: seq<FixedAsset>, i: int, a: ValuedAsset)
  {
    0 <= i < |rows| && Clean(FixedAssetValued(rows[i])) && a == FixedAssetValued(rows[i])
  }

  /** An asset row comes from a holdings sheet exactly when some row of
      that sheet is shown and values to it: key stripped, category kept,
      value = effective price x shares x rate. */
  lemma EmitHoldingsFrom(rows: seq<Holding>, rate: real, a: ValuedAsset)
    ensures a in EmitHoldings(rows, rate) <==> exists i :: HoldingRowGives(rows, rate, i, a)
  {
    EmitHoldingsSound(rows, rate, a);
    if exists i :: HoldingRowGives(rows, rate, i, a) {
      var i :| HoldingRowGives(rows, rate, i, a);
      EmitHoldingsComplete(rows, rate, i, a);
    }
  }

  /** Every emitted row comes from some row of the sheet. */
  lemma {:induction false} EmitHoldingsSound(rows: seq<Holding>, rate: real, a: ValuedAsset)
    ensures a in EmitHoldings(rows, rate) ==> exists i :: HoldingRowGives(rows, rate, i, a)
    decreases |rows|
  {
    if rows != [] {
      var n := |rows| - 1;
      var init := rows[..n];
      var last := HoldingAsset(rows[n], rate);
      var head, tail := EmitHoldings(init, rate), if Clean(last) then [last] else [];
      assert EmitHoldings(rows, rate) == head + tail;
      assert a in head + tail <==> a in head || a in tail;
      if a in head {
        EmitHoldingsSound(init, rate, a);
        var i :| HoldingRowGives(init, rate, i, a);
        assert HoldingRowGives(rows, rate, i, a);
      } else if a in tail {
        assert HoldingRowGives(rows, rate, n, a);
      }
    }
  }

  /** A shown row of the sheet is emitted. */
  lemma {:induction false} EmitHoldingsComplete(rows: seq<Holding>, rate: real, i: int, a: ValuedAsset)
    requires HoldingRowGives(rows, rate, i, a)
    ensures a in EmitHoldings(rows, rate)
    decreases |rows|
  {
    var n := |rows| - 1;
    var init := rows[..n];
    var last := HoldingAsset(rows[n], rate);
    var head, tail := EmitHoldings(init, rate), if Clean(last) then [last] else [];
    assert EmitHoldings(rows, rate) == head + tail;
    if i < n {
      assert HoldingRowGives(init, rate, i, a);
      EmitHoldingsComplete(init, rate, i, a);
      assert a in head;
    } else {
      assert a in tail;
    }
  }

  /** An asset row comes from the fixed-asset sheet exactly when some row
      of it is shown, with its stripped name and its 現值 as the value. */
  lemma EmitFixedFrom(rows: seq<FixedAsset>, a: ValuedAsset)
    ensures a in EmitFixed(rows) <==> exists i :: FixedRowGives(rows, i, a)
  {
    EmitFixedSound(rows, a);
    if exists i :: FixedRowGives(rows, i, a) {
      var i :| FixedRowGives(rows, i, a);
      EmitFixedComplete(rows, i, a);
    }
  }

  /** Every emitted row comes from some row of the sheet. */
  lemma {:induction false} EmitFixedSound(rows: seq<FixedAsset>, a: ValuedAsset)
    ensures a in EmitFixed(rows) ==> exists i :: FixedRowGives(rows, i, a)
    decreases |rows|
  {
    if rows != [] {
      var n := |rows| - 1;
      var init := rows[..n];
      var last := FixedAssetValued(rows[n]);
      var head, tail := EmitFixed(init), if Clean(last) then [last] else [];
      assert EmitFixed(rows) == head + tail;
      assert a in head + tail <==> a in head || a in tail;
      if a in head {
        EmitFixedSound(init, a);
        var i :| FixedRowGives(init, i, a);
        assert FixedRowGives(rows, i, a);
      } else if a in tail {
        assert FixedRowGives(rows, n, a);
      }
    }
  }

  /** A shown row of the sheet is emitted. */
  lemma {:induction false} EmitFixedComplete(rows: seq<FixedAsset>, i: int, a: ValuedAsset)
    requires FixedRowGives(rows, i, a)
    ensures a in EmitFixed(rows)
    decreases |rows|
  {
    var n := |rows| - 1;
    var init := rows[..n];
    var last := FixedAssetValued(rows[n]);
    var head, tail := EmitFixed(init), if Clean(last) then [last] else [];
    assert EmitFixed(rows) == head + tail;
    if i < n {
      assert FixedRowGives(init, i, a);
      EmitFixedComplete(init, i, a);
      assert a in head;
    } else {
      assert a in tail;
    }
  }

  /** Total assets are the US, TW and fixed parts added up; they are never
      negative, and positive exactly when some row is shown. */
  lemma TotalAssetsSplit(us: seq<Holding>, tw: seq<Holding>, fixed: seq<FixedAsset>)
    ensures TotalValue(Emitted(us, tw, fixed)) ==
      TotalValue(EmitHoldings(us, ExchangeRate)) + TotalValue(EmitHoldings(tw, 1.0)) + TotalValue(EmitFixed(fixed))
    ensures TotalValue(Emitted(us, tw, fixed)) >= 0.0
    ensures TotalValue(Emitted(us, tw, fixed)) > 0.0 <==> Emitted(us, tw, fixed) != []
  {
    var u, t, f := EmitHoldings(us, ExchangeRate), EmitHoldings(tw, 1.0), EmitFixed(fixed);
    SumAppend(u + t, f, ValueOf);
    SumAppend(u, t, ValueOf);
    TotalOfPositives(Emitted(us, tw, fixed));
  }

  /** A US holding is worth the exchange rate times what the same holding
      is worth on the Taiwan sheet. */
  lemma UsValueIsConverted(h: Holding)
    ensures HoldingAsset(h, ExchangeRate).value == ExchangeRate * HoldingAsset(h, 1.0).value
    ensures HoldingAsset(h, 1.0).value ==
      (if h.customPrice > 0.0 then h.customPrice else h.marketPrice) * h.shares
  {
  }
}
