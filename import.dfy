/** The import normaliser: once a spreadsheet or CSV file has been read
    into a header row and rows of cells, its columns are recognised by
    alias and each row is turned into a row of the target sheet (holdings,
    fixed assets or liabilities). Cells are the file's text; reading a
    number out of a cell is the parameter `parse`. */
module FileImport {
  import opened Text
  import opened Records

  /** What the user is importing. */
  datatype ImportKind = StockUS | StockTW | FixedImport | LiabilityImport

  datatype ImportError =
    | MissingColumns(message: string)   // a mandatory column has no alias in the header
    | NotANumber(cell: string)          // float() refused a cell

  datatype Result<T> = Ok(value: T) | Err(error: ImportError)

  /** The rows the import produces, in the target sheet's layout. */
  datatype Table =
    | HoldingTable(holdings: seq<Holding>)
    | FixedTable(fixed: seq<FixedAsset>)
    | LiabilityTable(liabilities: seq<Liability>)

  const MissingStockColumns: string := "缺少 [代號] 或 [股數]"
  const MissingFixedColumns: string := "缺少 [資產項目] 或 [現值]"
  const MissingLiabilityColumns: string := "缺少 [負債項目] 或 [金額]"

  /** Header names recognised for each field, after normalisation. */
  const TickerAliases: seq<string> := ["ticker", "symbol", "代號", "股票代號"]
  const SharesAliases: seq<string> := ["shares", "quantity", "股數", "數量", "qty"]
  const PriceAliases: seq<string> := ["price", "cost", "自訂價格", "成本"]
  const ItemAliases: seq<string> := ["item", "name", "資產項目", "名稱"]
  const ValueAliases: seq<string> := ["value", "amount", "現值", "金額"]
  const LiabilityItemAliases: seq<string> := ["item", "name", "負債項目", "名稱"]
  const AmountAliases: seq<string> := ["amount", "金額"]
  const MonthlyAliases: seq<string> := ["monthly", "payment", "每月扣款"]

  /** A header as it is matched: lower-cased, then stripped. */
  function NormalizeHeader(h: string): string
  {
    Strip(ToLower(h))
  }

  function NormalizeHeaders(headers: seq<string>): (r: seq<string>)
    ensures |r| == |headers|
    ensures forall i :: 0 <= i < |headers| ==> r[i] == NormalizeHeader(headers[i])
  {
    seq(|headers|, i requires 0 <= i < |headers| => NormalizeHeader(headers[i]))
  }

  /** A normalised header has no ASCII capital and no whitespace at either end. */
  lemma NormalizedHeaderForm(h: string)
    ensures forall c :: c in NormalizeHeader(h) ==> !('A' <= c <= 'Z')
    ensures NormalizeHeader(h) == [] ||
      (!IsSpace(NormalizeHeader(h)[0]) && !IsSpace(NormalizeHeader(h)[|NormalizeHeader(h)| - 1]))
  {
    var l := ToLower(h);
    var r := Strip(l);
    StripShape(l);
    var i := |l| - |TrimStart(l)|;
    forall c | c in r ensures !('A' <= c <= 'Z') {
      var k :| 0 <= k < |r| && r[k] == c;
      assert r[k] == l[i + k];
    }
  }

  /** The first column, in file order, whose header is one of the aliases. */
  function FindColumnFrom(headers: seq<string>, aliases: seq<string>, i: nat): (r: Option<nat>)
    requires i <= |headers|
    ensures r.Some? ==> (i <= r.value < |headers| && headers[r.value] in aliases
      && forall j :: i <= j < r.value ==> headers[j] !in aliases)
    ensures r.None? ==> forall j :: i <= j < |headers| ==> headers[j] !in aliases
    decreases |headers| - i
  {
    if i == |headers| then None
    else if headers[i] in aliases then Some(i)
    else FindColumnFrom(headers, aliases, i + 1)
  }

  function FindColumn(headers: seq<string>, aliases: seq<string>): (r: Option<nat>)
    ensures r.Some? ==> (r.value < |headers| && headers[r.value] in aliases
      && forall j :: 0 <= j < r.value ==> headers[j] !in aliases)
    ensures r.None? ==> forall j :: 0 <= j < |headers| ==> headers[j] !in aliases
  {
    FindColumnFrom(headers, aliases, 0)
  }

  /** The columns an import reads. */
  datatype Layout =
    | StockLayout(ticker: nat, shares: nat, price: Option<nat>)
    | FixedLayout(item: nat, value: nat)
    | LiabilityLayout(item: nat, amount: nat, monthly: Option<nat>)

  /** Pick the columns among the normalised headers; a mandatory column
      without an alias is an error with the import's message. */
  function ResolveLayout(headers: seq<string>, kind: ImportKind): Result<Layout>
  {
    match kind
    case StockUS | StockTW =>
      var t, s, p := FindColumn(headers, TickerAliases), FindColumn(headers, SharesAliases), FindColumn(headers, PriceAliases);
      if t.None? || s.None? then Err(MissingColumns(MissingStockColumns))
      else Ok(StockLayout(t.value, s.value, p))
    case FixedImport =>
      var n, v := FindColumn(headers, ItemAliases), FindColumn(headers, ValueAliases);
      if n.None? || v.None? then Err(MissingColumns(MissingFixedColumns))
      else Ok(FixedLayout(n.value, v.value))
    case LiabilityImport =>
      var n, a, m := FindColumn(headers, LiabilityItemAliases), FindColumn(headers, AmountAliases), FindColumn(headers, MonthlyAliases);
      if n.None? || a.None? then Err(MissingColumns(MissingLiabilityColumns))
      else Ok(LiabilityLayout(n.value, a.value, m))
  }

  /** Cell i of a row ("" past its end, which a rectangular table never reaches). */
  function Cell(row: seq<string>, i: nat): string
  {
    if i < |row| then row[i] else ""
  }

  /** to_numeric with errors='coerce' then fillna(0): unreadable is 0. */
  function Coerce(parse: string -> Option<real>, cell: string): real
  {
    match parse(cell)
    case Some(x) => x
    case None => 0.0
  }

  /** float() of a cell: unreadable is an error. */
  function FloatOf(parse: string -> Option<real>, cell: string): Result<real>
  {
    match parse(cell)
    case Some(x) => Ok(x)
    case None => Err(NotANumber(cell))
  }

  function StockCategory(kind: ImportKind): string
  {
    if kind == StockUS then CategoryUS else CategoryTW
  }

  /** A holdings row: ticker stripped and upper-cased, no name yet, shares
      coerced, category by import kind, custom price 0 without a price
      column, market price 0. */
  function StockRow(ticker: nat, shares: nat, price: Option<nat>, kind: ImportKind,
                    parse: string -> Option<real>, row: seq<string>): Result<Holding>
  {
    var code := ToUpper(Strip(Cell(row, ticker)));
    var n := Coerce(parse, Cell(row, shares));
    var custom := if price.None? then Ok(0.0) else FloatOf(parse, Cell(row, price.value));
    match custom
    case Err(e) => Err(e)
    case Ok(c) => Ok(Holding(code, "", n, StockCategory(kind), c, 0.0))
  }

  /** A fixed-asset row: the item as given, the value, category 固定資產. */
  function FixedRow(item: nat, value: nat, parse: string -> Option<real>, row: seq<string>): Result<FixedAsset>
  {
    match FloatOf(parse, Cell(row, value))
    case Err(e) => Err(e)
    case Ok(v) => Ok(FixedAsset(Cell(row, item), v, "固定資產"))
  }

  /** A liability row: the monthly payment is read first (0 without that
      column), then the amount. */
  function LiabilityRow(item: nat, amount: nat, monthly: Option<nat>, parse: string -> Option<real>,
                        row: seq<string>): Result<Liability>
  {
    var m := if monthly.None? then Ok(0.0) else FloatOf(parse, Cell(row, monthly.value));
    match m
    case Err(e) => Err(e)
    case Ok(mv) =>
      match FloatOf(parse, Cell(row, amount))
      case Err(e) => Err(e)
      case Ok(a) => Ok(Liability(Cell(row, item), a, mv))
  }

  function StockConv(ticker: nat, shares: nat, price: Option<nat>, kind: ImportKind,
                     parse: string -> Option<real>): seq<string> -> Result<Holding>
  {
    (row: seq<string>) => StockRow(ticker, shares, price, kind, parse, row)
  }

  function FixedConv(item: nat, value: nat, parse: string -> Option<real>): seq<string> -> Result<FixedAsset>
  {
    (row: seq<string>) => FixedRow(item, value, parse, row)
  }

  function LiabilityConv(item: nat, amount: nat, monthly: Option<nat>,
                         parse: string -> Option<real>): seq<string> -> Result<Liability>
  {
    (row: seq<string>) => LiabilityRow(item, amount, monthly, parse, row)
  }

  /** Convert every row in order; the first row that fails fails the import. */
  function ConvertAll<T>(rows: seq<seq<string>>, conv: seq<string> -> Result<T>): Result<seq<T>>
    decreases |rows|
  {
    if rows == [] then Ok([])
    else
      match ConvertAll(rows[..|rows| - 1], conv)
      case Err(e) => Err(e)
      case Ok(done) =>
        match conv(rows[|rows| - 1])
        case Err(e) => Err(e)
        case Ok(x) => Ok(done + [x])
  }

  /** Row k fails and every row before it converts. */
  predicate FirstFailure<T>(rows: seq<seq<string>>, conv: seq<string> -> Result<T>, k: int, e: ImportError)
  {
    && 0 <= k < |rows|
    && conv(rows[k]) == Err(e)
    && forall j :: 0 <= j < k ==> conv(rows[j]).Ok?
  }

  /** A converted table has one row per input row, each the conversion of
      its input row; a failed one reports the first row that fails. */
  lemma {:induction false} ConvertAllMeaning<T>(rows: seq<seq<string>>, conv: seq<string> -> Result<T>)
    ensures ConvertAll(rows, conv).Ok? <==> forall j :: 0 <= j < |rows| ==> conv(rows[j]).Ok?
    ensures ConvertAll(rows, conv).Ok? ==>
      |ConvertAll(rows, conv).value| == |rows| &&
      forall j :: 0 <= j < |rows| ==> ConvertAll(rows, conv).value[j] == conv(rows[j]).value
    ensures ConvertAll(rows, conv).Err? ==>
      exists k :: FirstFailure(rows, conv, k, ConvertAll(rows, conv).error)
    decreases |rows|
  {
    if rows != [] {
      var n := |rows| - 1;
      var init := rows[..n];
      ConvertAllMeaning(init, conv);
      assert forall j :: 0 <= j < n ==> init[j] == rows[j];
      match ConvertAll(init, conv)
      case Err(e) => {
        var k :| FirstFailure(init, conv, k, e);
        assert FirstFailure(rows, conv, k, e);
      }
      case Ok(done) => {
        if conv(rows[n]).Err? {
          assert FirstFailure(rows, conv, n, conv(rows[n]).error);
        }
      }
    }
  }

  /** Once a prefix of the rows fails, the whole conversion fails the same way. */
  lemma {:induction false} ConvertAllErrPersists<T>(rows: seq<seq<string>>, conv: seq<string> -> Result<T>, i: nat)
    requires i <= |rows| && ConvertAll(rows[..i], conv).Err?
    ensures ConvertAll(rows, conv) == ConvertAll(rows[..i], conv)
    decreases |rows| - i
  {
    if i < |rows| {
      var n := |rows| - 1;
      assert rows[..i] == rows[..n][..i];
      ConvertAllErrPersists(rows[..n], conv, i);
    } else {
      assert rows[..i] == rows;
    }
  }

  /** The loop over the rows: append each converted row, stop at the first
      row that cannot be converted. */
  method ConvertRows<T>(rows: seq<seq<string>>, conv: seq<string> -> Result<T>) returns (r: Result<seq<T>>)
    ensures r == ConvertAll(rows, conv)
  {
    var out: seq<T> := [];
    for i := 0 to |rows|
      invariant ConvertAll(rows[..i], conv) == Ok(out)
    {
      assert rows[..i + 1][..i] == rows[..i];
      match conv(rows[i]) {
        case Err(e) =>
          ConvertAllErrPersists(rows, conv, i + 1);
          return Err(e);
        case Ok(x) =>
          out := out + [x];
      }
    }
    assert rows[..|rows|] == rows;
    r := Ok(out);
  }

  /** The whole normaliser: headers, then the rows. */
  function Normalize(headers: seq<string>, rows: seq<seq<string>>, kind: ImportKind,
                     parse: string -> Option<real>): Result<Table>
  {
    match ResolveLayout(NormalizeHeaders(headers), kind)
    case Err(e) => Err(e)
    case Ok(layout) =>
      match layout
      case StockLayout(t, s, p) =>
        (match ConvertAll(rows, StockConv(t, s, p, kind, parse))
         case Err(e) => Err(e)
         case Ok(hs) => Ok(HoldingTable(hs)))
      case FixedLayout(n, v) =>
        (match ConvertAll(rows, FixedConv(n, v, parse))
         case Err(e) => Err(e)
         case Ok(fs) => Ok(FixedTable(fs)))
      case LiabilityLayout(n, a, m) =>
        (match ConvertAll(rows, LiabilityConv(n, a, m, parse))
         case Err(e) => Err(e)
         case Ok(ls) => Ok(LiabilityTable(ls)))
  }

  method ParseFile(headers: seq<string>, rows: seq<seq<string>>, kind: ImportKind,
                   parse: string -> Option<real>) returns (r: Result<Table>)
    ensures r == Normalize(headers, rows, kind, parse)
  {
    var columns := seq(|headers|, i requires 0 <= i < |headers| => Strip(ToLower(headers[i])));
    assert columns == NormalizeHeaders(headers);
    var layout := ResolveLayout(columns, kind);
    if layout.Err? {
      return Err(layout.error);
    }
    match layout.value {
      case StockLayout(t, s, p) =>
        var hs := ConvertRows(rows, StockConv(t, s, p, kind, parse));
        r := if hs.Err? then Err(hs.error) else Ok(HoldingTable(hs.value));
      case FixedLayout(n, v) =>
        var fs := ConvertRows(rows, FixedConv(n, v, parse));
        r := if fs.Err? then Err(fs.error) else Ok(FixedTable(fs.value));
      case LiabilityLayout(n, a, m) =>
        var ls := ConvertRows(rows, LiabilityConv(n, a, m, parse));
        r := if ls.Err? then Err(ls.error) else Ok(LiabilityTable(ls.value));
    }
  }

  /** Some header, normalised, is one of the aliases. */
  predicate HasAlias(headers: seq<string>, aliases: seq<string>)
  {
    exists i :: 0 <= i < |headers| && NormalizeHeader(headers[i]) in aliases
  }

  lemma FindColumnFindsAlias(headers: seq<string>, aliases: seq<string>)
    ensures FindColumn(NormalizeHeaders(headers), aliases).Some? <==> HasAlias(headers, aliases)
  {
    var hs := NormalizeHeaders(headers);
    if HasAlias(headers, aliases) {
      var i :| 0 <= i < |headers| && NormalizeHeader(headers[i]) in aliases;
      assert hs[i] in aliases;
    }
  }

  /** An import is refused with its message exactly when a mandatory
      column has no alias among the headers, whatever the rows. */
  lemma MissingColumnsRefused(headers: seq<string>, rows: seq<seq<string>>, kind: ImportKind,
                              parse: string -> Option<real>)
    ensures (kind == StockUS || kind == StockTW) ==>
      (Normalize(headers, rows, kind, parse) == Err(MissingColumns(MissingStockColumns))
       <==> !HasAlias(headers, TickerAliases) || !HasAlias(headers, SharesAliases))
    ensures kind == FixedImport ==>
      (Normalize(headers, rows, kind, parse) == Err(MissingColumns(MissingFixedColumns))
       <==> !HasAlias(headers, ItemAliases) || !HasAlias(headers, ValueAliases))
    ensures kind == LiabilityImport ==>
      (Normalize(headers, rows, kind, parse) == Err(MissingColumns(MissingLiabilityColumns))
       <==> !HasAlias(headers, LiabilityItemAliases) || !HasAlias(headers, AmountAliases))
  {
    FindColumnFindsAlias(headers, TickerAliases);
    FindColumnFindsAlias(headers, SharesAliases);
    FindColumnFindsAlias(headers, ItemAliases);
    FindColumnFindsAlias(headers, ValueAliases);
    FindColumnFindsAlias(headers, LiabilityItemAliases);
    FindColumnFindsAlias(headers, AmountAliases);
    if ResolveLayout(NormalizeHeaders(headers), kind).Ok? {
      RowsFailOnlyOnNumbers(headers, rows, kind, parse);
    }
  }

  /** Once the columns are found, the only failure left is a cell that is
      not a number. */
  lemma RowsFailOnlyOnNumbers(headers: seq<string>, rows: seq<seq<string>>, kind: ImportKind,
                              parse: string -> Option<real>)
    requires ResolveLayout(NormalizeHeaders(headers), kind).Ok?
    ensures Normalize(headers, rows, kind, parse).Err? ==> Normalize(headers, rows, kind, parse).error.NotANumber?
  {
    match ResolveLayout(NormalizeHeaders(headers), kind).value
    case StockLayout(t, s, p) => {
      ConvertAllNeverMissing(rows, StockConv(t, s, p, kind, parse));
    }
    case FixedLayout(n, v) => {
      ConvertAllNeverMissing(rows, FixedConv(n, v, parse));
    }
    case LiabilityLayout(n, a, m) => {
      ConvertAllNeverMissing(rows, LiabilityConv(n, a, m, parse));
    }
  }

  /** Row conversions only ever fail on a number. */
  lemma {:induction false} ConvertAllNeverMissing<T>(rows: seq<seq<string>>, conv: seq<string> -> Result<T>)
    requires forall row :: conv(row).Err? ==> conv(row).error.NotANumber?
    ensures ConvertAll(rows, conv).Err? ==> ConvertAll(rows, conv).error.NotANumber?
    decreases |rows|
  {
    if rows != [] {
      ConvertAllNeverMissing(rows[..|rows| - 1], conv);
    }
  }

  /** A stock import gives one holding per input row: the ticker stripped
      and upper-cased, a blank name, the shares cell read with unreadable
      as 0, the category of the import, market price 0, and the price cell
      as custom price (0 when no price column exists). Once the mandatory
      columns exist it fails exactly when some price cell is not a number. */
  lemma StockImportRows(headers: seq<string>, rows: seq<seq<string>>, kind: ImportKind,
                        parse: string -> Option<real>)
    requires kind == StockUS || kind == StockTW
    requires forall k :: 0 <= k < |rows| ==> |rows[k]| == |headers|
    ensures Normalize(headers, rows, kind, parse).Ok? ==>
      var hs := Normalize(headers, rows, kind, parse).value.holdings;
      var t := FindColumn(NormalizeHeaders(headers), TickerAliases).value;
      var s := FindColumn(NormalizeHeaders(headers), SharesAliases).value;
      var p := FindColumn(NormalizeHeaders(headers), PriceAliases);
      && |hs| == |rows|
      && forall k :: 0 <= k < |rows| ==>
           && hs[k].code == ToUpper(Strip(rows[k][t]))
           && hs[k].name == ""
           && hs[k].shares == Coerce(parse, rows[k][s])
           && hs[k].category == (if kind == StockUS then "美股" else "台股")
           && hs[k].marketPrice == 0.0
           && (p.None? ==> hs[k].customPrice == 0.0)
           && (p.Some? ==> parse(rows[k][p.value]) == Some(hs[k].customPrice))
    ensures HasAlias(headers, TickerAliases) && HasAlias(headers, SharesAliases) ==>
      var p := FindColumn(NormalizeHeaders(headers), PriceAliases);
      (Normalize(headers, rows, kind, parse).Ok? <==>
         p.None? || forall k :: 0 <= k < |rows| ==> parse(rows[k][p.value]).Some?)
    ensures HasAlias(headers, TickerAliases) && HasAlias(headers, SharesAliases) && !HasAlias(headers, PriceAliases)
      ==> Normalize(headers, rows, kind, parse).Ok?
  {
    FindColumnFindsAlias(headers, TickerAliases);
    FindColumnFindsAlias(headers, SharesAliases);
    FindColumnFindsAlias(headers, PriceAliases);
    var layout := ResolveLayout(NormalizeHeaders(headers), kind);
    if layout.Ok? {
      var t, s, p := layout.value.ticker, layout.value.shares, layout.value.price;
      assert t == FindColumn(NormalizeHeaders(headers), TickerAliases).value;
      assert s == FindColumn(NormalizeHeaders(headers), SharesAliases).value;
      assert p == FindColumn(NormalizeHeaders(headers), PriceAliases);
      StockRowsConverted(rows, t, s, p, kind, parse);
    }
  }

  /** The stock row conversion over a table whose rows all reach the
      ticker column: one holding per row, each from its own row's cells,
      failing exactly when a price column exists and some price cell is
      not a number, and then with the first such cell. */
  lemma StockRowsConverted(rows: seq<seq<string>>, t: nat, s: nat, p: Option<nat>, kind: ImportKind,
                           parse: string -> Option<real>)
    requires forall row :: row in rows ==> t < |row|
    ensures ConvertAll(rows, StockConv(t, s, p, kind, parse)).Ok? ==>
      var hs := ConvertAll(rows, StockConv(t, s, p, kind, parse)).value;
      && |hs| == |rows|
      && forall k :: 0 <= k < |rows| ==>
           && hs[k].code == ToUpper(Strip(rows[k][t]))
           && hs[k].name == ""
           && hs[k].shares == Coerce(parse, Cell(rows[k], s))
           && hs[k].category == StockCategory(kind)
           && hs[k].marketPrice == 0.0
           && (p.None? ==> hs[k].customPrice == 0.0)
           && (p.Some? ==> parse(Cell(rows[k], p.value)) == Some(hs[k].customPrice))
    ensures ConvertAll(rows, StockConv(t, s, p, kind, parse)).Ok? <==>
      p.None? || forall k :: 0 <= k < |rows| ==> parse(Cell(rows[k], p.value)).Some?
    ensures ConvertAll(rows, StockConv(t, s, p, kind, parse)).Err? ==>
      p.Some? && exists k :: (PriceFailsFirst(rows, p.value, parse, k) &&
        ConvertAll(rows, StockConv(t, s, p, kind, parse)).error == NotANumber(Cell(rows[k], p.value)))
  {
    var conv := StockConv(t, s, p, kind, parse);
    ConvertAllMeaning(rows, conv);
    forall k | 0 <= k < |rows| ensures Cell(rows[k], t) == rows[k][t] {
      assert rows[k] in rows;
    }
    forall k | 0 <= k < |rows|
      ensures conv(rows[k]).Ok? <==> p.None? || parse(Cell(rows[k], p.value)).Some?
    {
    }
    if ConvertAll(rows, conv).Err? {
      var k :| FirstFailure(rows, conv, k, ConvertAll(rows, conv).error);
      assert PriceFailsFirst(rows, p.value, parse, k);
    }
  }

  /** Row k's price cell is the first that is not a number. */
  predicate PriceFailsFirst(rows: seq<seq<string>>, price: nat, parse: string -> Option<real>, k: int)
  {
    && 0 <= k < |rows|
    && parse(Cell(rows[k], price)).None?
    && forall j :: 0 <= j < k ==> parse(Cell(rows[j], price)).Some?
  }

  /** A fixed-asset import keeps each row's item as given, reads its value
      cell, and files it under 固定資產; a liability import keeps the item,
      reads the amount, and records the monthly cell, or 0 per month
      without a monthly column. */
  lemma OtherImportDefaults(headers: seq<string>, rows: seq<seq<string>>, kind: ImportKind,
                            parse: string -> Option<real>)
    ensures kind == LiabilityImport && Normalize(headers, rows, kind, parse).Ok? ==>
      var ls := Normalize(headers, rows, kind, parse).value.liabilities;
      var n := FindColumn(NormalizeHeaders(headers), LiabilityItemAliases).value;
      var a := FindColumn(NormalizeHeaders(headers), AmountAliases).value;
      var m := FindColumn(NormalizeHeaders(headers), MonthlyAliases);
      && |ls| == |rows|
      && forall k :: 0 <= k < |ls| ==>
           && ls[k].item == Cell(rows[k], n)
           && parse(Cell(rows[k], a)) == Some(ls[k].amount)
           && (m.Some? ==> parse(Cell(rows[k], m.value)) == Some(ls[k].monthly))
           && (!HasAlias(headers, MonthlyAliases) ==> ls[k].monthly == 0.0)
    ensures kind == FixedImport && Normalize(headers, rows, kind, parse).Ok? ==>
      var fs := Normalize(headers, rows, kind, parse).value.fixed;
      var n := FindColumn(NormalizeHeaders(headers), ItemAliases).value;
      var v := FindColumn(NormalizeHeaders(headers), ValueAliases).value;
      && |fs| == |rows|
      && forall k :: 0 <= k < |fs| ==>
           && fs[k].item == Cell(rows[k], n)
           && parse(Cell(rows[k], v)) == Some(fs[k].value)
           && fs[k].category == "固定資產"
  {
    FindColumnFindsAlias(headers, MonthlyAliases);
    var layout := ResolveLayout(NormalizeHeaders(headers), kind);
    if layout.Ok? {
      match layout.value
      case StockLayout(t, s, p) => {}
      case FixedLayout(n, v) => {
        ConvertAllMeaning(rows, FixedConv(n, v, parse));
      }
      case LiabilityLayout(n, a, m) => {
        ConvertAllMeaning(rows, LiabilityConv(n, a, m, parse));
      }
    }
  }
}
