/** The price refresh of a holdings sheet: for every row with a usable
    ticker, fetch the latest price, and fill in a missing name and a
    missing category. The market-data service is two oracles: `price`
    (0 when nothing could be fetched) and `shortName` (None when the
    lookup failed). */
module PriceRefresh {
  import opened Text
  import opened Records

  /** The ticker a row is looked up by: 代號 stripped and upper-cased. */
  function Ticker(h: Holding): string
  {
    ToUpper(Strip(h.code))
  }

  /** Blank tickers and the texts of a missing value are not looked up. */
  predicate Skipped(ticker: string)
  {
    ticker == "" || ticker == "NAN" || ticker == "NONE"
  }

  /** One row after the refresh. */
  function RefreshRow(h: Holding, price: string -> real, shortName: string -> Option<string>,
                      categoryDefault: string): (r: Holding)
    ensures r.code == h.code && r.shares == h.shares && r.customPrice == h.customPrice
    ensures Skipped(Ticker(h)) ==> r == h
    ensures !Skipped(Ticker(h)) ==>
      && r.marketPrice == (if price(Ticker(h)) > 0.0 then price(Ticker(h)) else h.marketPrice)
      && r.name == (if h.name == "" && shortName(Ticker(h)).Some? then shortName(Ticker(h)).value else h.name)
      && r.category == (if h.category == "" then categoryDefault else h.category)
  {
    var t := Ticker(h);
    if Skipped(t) then h
    else
      var p := price(t);
      var withPrice := if p > 0.0 then h.(marketPrice := p) else h;
      var withName := if h.name == "" && shortName(t).Some? then withPrice.(name := shortName(t).value) else withPrice;
      if h.category == "" then withName.(category := categoryDefault) else withName
  }

  /** The refresh loop, updating the sheet in place row by row. */
  method UpdatePortfolio(a: array<Holding>, price: string -> real, shortName: string -> Option<string>,
                         categoryDefault: string)
    modifies a
    ensures forall i :: 0 <= i < a.Length ==> a[i] == RefreshRow(old(a[i]), price, shortName, categoryDefault)
  {
    for i := 0 to a.Length
      invariant forall k :: 0 <= k < i ==> a[k] == RefreshRow(old(a[k]), price, shortName, categoryDefault)
      invariant forall k :: i <= k < a.Length ==> a[k] == old(a[k])
    {
      var r := RefreshHolding(a[i], price, shortName, categoryDefault);
      a[i] := r;
    }
  }

  /** The body of the loop for one row: a skipped ticker leaves the row as
      it is; otherwise the positive fetched price, the fetched name of an
      unnamed row and the default category of an uncategorised row are
      written into it. */
  method RefreshHolding(row: Holding, price: string -> real, shortName: string -> Option<string>,
                        categoryDefault: string) returns (r: Holding)
    ensures r == RefreshRow(row, price, shortName, categoryDefault)
  {
    r := row;
    var ticker := ToUpper(Strip(row.code));
    if ticker == "" || ticker == "NAN" || ticker == "NONE" {
      return;
    }
    var p := price(ticker);
    if p > 0.0 {
      r := r.(marketPrice := p);
    }
    if row.name == "" {
      var n := shortName(ticker);
      if n.Some? {
        r := r.(name := n.value);
      }
    }
    if row.category == "" {
      r := r.(category := categoryDefault);
    }
  }

  /** A refreshed row never loses a name or a category it had, and its
      market price only ever moves to a positive fetched price. */
  lemma RefreshKeeps(h: Holding, price: string -> real, shortName: string -> Option<string>, categoryDefault: string)
    ensures var r := RefreshRow(h, price, shortName, categoryDefault);
      && (h.name != "" ==> r.name == h.name)
      && (h.category != "" ==> r.category == h.category)
      && (r.marketPrice != h.marketPrice ==> r.marketPrice > 0.0 && r.marketPrice == price(Ticker(h)))
      && (categoryDefault != "" && !Skipped(Ticker(h)) ==> r.category != "")
  {
  }

  /** Refreshing twice with the same answers is refreshing once. */
  lemma RefreshIdempotent(h: Holding, price: string -> real, shortName: string -> Option<string>, categoryDefault: string)
    ensures var r := RefreshRow(h, price, shortName, categoryDefault);
      RefreshRow(r, price, shortName, categoryDefault) == r
  {
  }
}
