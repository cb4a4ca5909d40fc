/** The sheet editor of the dashboard: making sure a sheet has its
    columns, ordering the columns for display, adding blank rows and saving
    the edited rows back without the rows marked for deletion. A sheet row
    is a record keyed by column name. */
module Editor {
  import opened Text

  datatype Value = Num(x: real) | Text(s: string) | Flag(b: bool)

  type Row = map<string, Value>

  /** A sheet: its column names in display order and its rows. */
  datatype Frame = Frame(columns: seq<string>, rows: seq<Row>)

  /** Every row has a value for every column. */
  predicate WellFormed(f: Frame)
  {
    forall i, c :: 0 <= i < |f.rows| && c in f.columns ==> c in f.rows[i]
  }

  /** A frame with no rows or no columns. */
  predicate IsEmpty(f: Frame)
  {
    |f.rows| == 0 || |f.columns| == 0
  }

  /** Columns that hold amounts start at 0, all others blank. */
  const NumericColumns: seq<string> := ["金額", "每月扣款", "現值", "股數"]

  function DefaultFor(c: string): Value
  {
    if c in NumericColumns then Num(0.0) else Text("")
  }

  /** Add column c filled with its default, unless the frame already has it. */
  function AddColumn(f: Frame, c: string): Frame
  {
    if c in f.columns then f
    else Frame(f.columns + [c], seq(|f.rows|, i requires 0 <= i < |f.rows| => f.rows[i][c := DefaultFor(c)]))
  }

  /** Add each of the columns in turn. */
  function AddColumns(f: Frame, cols: seq<string>): Frame
    decreases |cols|
  {
    if cols == [] then f else AddColumn(AddColumns(f, cols[..|cols| - 1]), cols[|cols| - 1])
  }

  /** An empty sheet becomes a sheet with exactly the wanted columns and no
      rows; otherwise the missing columns are added. */
  function EnsureColsSpec(f: Frame, cols: seq<string>): Frame
  {
    if IsEmpty(f) then Frame(cols, []) else AddColumns(f, cols)
  }

  /** The loop of ensure_cols. */
  method EnsureCols(f: Frame, cols: seq<string>) returns (r: Frame)
    ensures r == EnsureColsSpec(f, cols)
  {
    if |f.rows| == 0 || |f.columns| == 0 {
      return Frame(cols, []);
    }
    r := f;
    for k := 0 to |cols|
      invariant r == AddColumns(f, cols[..k])
    {
      var c := cols[k];
      if c !in r.columns {
        var d := if c in ["金額", "每月扣款", "現值", "股數"] then Num(0.0) else Text("");
        assert d == DefaultFor(c);
        var rows := seq(|r.rows|, i requires 0 <= i < |r.rows| => r.rows[i][c := d]);
        assert Frame(r.columns + [c], rows) == AddColumn(r, c);
        r := Frame(r.columns + [c], rows);
      }
      assert cols[..k + 1][..k] == cols[..k];
    }
    assert cols[..|cols|] == cols;
  }

  /** Adding columns keeps the existing columns in front and every existing
      value, gives every wanted column, invents no other, and fills each new
      column with its default. */
  lemma {:induction false} AddColumnsFacts(f: Frame, cols: seq<string>)
    requires WellFormed(f)
    ensures var r := AddColumns(f, cols);
      && WellFormed(r)
      && |r.columns| >= |f.columns| && r.columns[..|f.columns|] == f.columns
      && (forall c :: c in f.columns ==> c in r.columns)
      && (forall c :: c in cols ==> c in r.columns)
      && (forall c :: c in r.columns ==> c in f.columns || c in cols)
      && |r.rows| == |f.rows|
      && (forall i, c :: 0 <= i < |f.rows| && c in f.columns ==> r.rows[i][c] == f.rows[i][c])
      && (forall i, c :: 0 <= i < |f.rows| && c in cols && c !in f.columns ==> r.rows[i][c] == DefaultFor(c))
    decreases |cols|
  {
    if cols != [] {
      var init := cols[..|cols| - 1];
      var c := cols[|cols| - 1];
      AddColumnsFacts(f, init);
      var g := AddColumns(f, init);
      assert cols == init + [c];
      if c !in g.columns {
        var r := AddColumn(g, c);
        assert r.columns[..|g.columns|] == g.columns;
        assert r.columns[..|f.columns|] == g.columns[..|f.columns|];
      }
    }
  }

  /** ensure_cols: afterwards every wanted column is there; an empty sheet
      has no rows and exactly the wanted columns. */
  lemma EnsureColsFacts(f: Frame, cols: seq<string>)
    requires WellFormed(f)
    ensures WellFormed(EnsureColsSpec(f, cols))
    ensures forall c :: c in cols ==> c in EnsureColsSpec(f, cols).columns
    ensures IsEmpty(f) ==> EnsureColsSpec(f, cols) == Frame(cols, [])
    ensures !IsEmpty(f) ==> |EnsureColsSpec(f, cols).rows| == |f.rows|
  {
    if !IsEmpty(f) {
      AddColumnsFacts(f, cols);
    }
  }

  // ---- Column order of the editor ----

  const PreferredOrder: seq<string> := [
    "❌", "代號", "名稱", "股數", "類別", "自訂價格", "參考市價",
    "資產項目", "現值", "負債項目", "金額", "每月扣款", "總價值(TWD)", "佔比 (%)"]

  /** The entries of xs that are among ys, in the order of xs. */
  function Among(xs: seq<string>, ys: seq<string>): (r: seq<string>)
    ensures forall c :: c in r <==> c in xs && c in ys
    decreases |xs|
  {
    if xs == [] then []
    else Among(xs[..|xs| - 1], ys) + (if xs[|xs| - 1] in ys then [xs[|xs| - 1]] else [])
  }

  /** The entries of xs that are not among ys, in the order of xs. */
  function NotAmong(xs: seq<string>, ys: seq<string>): (r: seq<string>)
    ensures forall c :: c in r <==> c in xs && c !in ys
    decreases |xs|
  {
    if xs == [] then []
    else NotAmong(xs[..|xs| - 1], ys) + (if xs[|xs| - 1] !in ys then [xs[|xs| - 1]] else [])
  }

  /** r is xs with entries left out: entry k of r is entry idx[k] of xs,
      and the positions increase. */
  predicate Picks(r: seq<string>, xs: seq<string>, idx: seq<int>)
  {
    && |idx| == |r|
    && (forall k :: 0 <= k < |idx| ==> 0 <= idx[k] < |xs| && r[k] == xs[idx[k]])
    && (forall k, l :: 0 <= k < l < |idx| ==> idx[k] < idx[l])
  }

  /** r is a subsequence of xs: its entries appear in xs, in the same order. */
  ghost predicate InOrder(r: seq<string>, xs: seq<string>)
  {
    exists idx :: Picks(r, xs, idx)
  }

  lemma PicksSnoc(r: seq<string>, xs: seq<string>, idx: seq<int>, x: string, keep: bool)
    requires Picks(r, xs, idx)
    ensures Picks(r + (if keep then [x] else []), xs + [x], idx + (if keep then [|xs|] else []))
  {
  }

  /** Both filters keep the order of xs. */
  lemma {:induction false} AmongInOrder(xs: seq<string>, ys: seq<string>)
    ensures InOrder(Among(xs, ys), xs) && InOrder(NotAmong(xs, ys), xs)
    decreases |xs|
  {
    if xs == [] {
      assert Picks([], [], []);
    } else {
      var n := |xs| - 1;
      var init, x := xs[..n], xs[n];
      assert xs == init + [x];
      AmongInOrder(init, ys);
      var ia :| Picks(Among(init, ys), init, ia);
      var ib :| Picks(NotAmong(init, ys), init, ib);
      PicksSnoc(Among(init, ys), init, ia, x, x in ys);
      PicksSnoc(NotAmong(init, ys), init, ib, x, x !in ys);
    }
  }

  /** Display order: the preferred columns the sheet has, in preferred order,
      then the other columns in their own order. */
  function DisplayOrder(columns: seq<string>, preferred: seq<string>): seq<string>
  {
    var first := Among(preferred, columns);
    first + NotAmong(columns, first)
  }

  predicate Distinct(xs: seq<string>)
  {
    forall i, j :: 0 <= i < j < |xs| ==> xs[i] != xs[j]
  }

  lemma {:induction false} AmongDistinct(xs: seq<string>, ys: seq<string>)
    requires Distinct(xs)
    ensures Distinct(Among(xs, ys)) && Distinct(NotAmong(xs, ys))
    decreases |xs|
  {
    if xs != [] {
      var init := xs[..|xs| - 1];
      assert Distinct(init);
      AmongDistinct(init, ys);
      assert xs[|xs| - 1] !in init;
    }
  }

  function Elements(xs: seq<string>): set<string>
  {
    set c | c in xs
  }

  /** A sequence without repeats holds each of its elements once. */
  lemma {:induction false} DistinctMultiset(xs: seq<string>)
    requires Distinct(xs)
    ensures multiset(xs) == multiset(Elements(xs))
    decreases |xs|
  {
    if xs != [] {
      var init := xs[..|xs| - 1];
      var x := xs[|xs| - 1];
      assert xs == init + [x];
      assert Distinct(init);
      DistinctMultiset(init);
      assert x !in init;
      assert Elements(xs) == Elements(init) + {x};
    }
  }

  /** The display order of distinct columns shows every column exactly once. */
  lemma DisplayOrderIsPermutation(columns: seq<string>, preferred: seq<string>)
    requires Distinct(columns) && Distinct(preferred)
    ensures multiset(DisplayOrder(columns, preferred)) == multiset(columns)
    ensures DisplayOrder(columns, preferred)[..|Among(preferred, columns)|] == Among(preferred, columns)
  {
    var first := Among(preferred, columns);
    var rest := NotAmong(columns, first);
    var r := first + rest;
    AmongDistinct(preferred, columns);
    AmongDistinct(columns, first);
    assert Distinct(r) by {
      forall i, j | 0 <= i < j < |r| ensures r[i] != r[j] {
        if i < |first| && j >= |first| {
          assert r[j] in rest;
          assert r[i] in first;
        }
      }
    }
    DistinctMultiset(r);
    DistinctMultiset(columns);
    assert Elements(r) == Elements(columns);
  }

  // ---- Adding and deleting rows ----

  /** Columns shown in the editor but computed, never saved. */
  const DerivedColumns: seq<string> := ["總價值(TWD)", "佔比 (%)", "❌"]

  /** The blank row the add button appends: every column blank, and the
      category of the sheet when the sheet has a 類別 column. */
  function NewRow(key: string, cols: seq<string>): (r: Row)
    ensures forall c :: c in r <==> c in cols
    ensures forall c :: c in cols && c != "類別" ==> r[c] == Text("")
    ensures "類別" in cols ==>
      r["類別"] == Text(if Contains(key, "us") then "美股"
                        else if Contains(key, "tw") then "台股"
                        else if Contains(key, "fixed") then "固定"
                        else "")
  {
    var blank := map c | c in cols :: Text("");
    if "類別" in cols then
      if Contains(key, "us") then blank["類別" := Text("美股")]
      else if Contains(key, "tw") then blank["類別" := Text("台股")]
      else if Contains(key, "fixed") then blank["類別" := Text("固定")]
      else blank
    else blank
  }

  /** A row the user ticked for deletion. */
  predicate Marked(r: Row)
  {
    "❌" in r && r["❌"] == Flag(true)
  }

  function Unmarked(rows: seq<Row>): seq<Row>
    decreases |rows|
  {
    if rows == [] then []
    else Unmarked(rows[..|rows| - 1]) + (if Marked(rows[|rows| - 1]) then [] else [rows[|rows| - 1]])
  }

  /** The saved columns of a row: all but the derived ones. */
  function SavedRow(r: Row, cols: seq<string>): Row
  {
    map c | c in r && c in cols && c !in DerivedColumns :: r[c]
  }

  function SavedRows(rows: seq<Row>, cols: seq<string>): (r: seq<Row>)
    ensures |r| == |rows|
    ensures forall i :: 0 <= i < |rows| ==> r[i] == SavedRow(rows[i], cols)
  {
    seq(|rows|, i requires 0 <= i < |rows| => SavedRow(rows[i], cols))
  }

  /** What the editor stores after an edit: the rows not ticked, without
      the derived columns (with nothing ticked, simply every row). */
  function Commit(edited: Frame): seq<Row>
  {
    if exists i :: 0 <= i < |edited.rows| && Marked(edited.rows[i]) then
      SavedRows(Unmarked(edited.rows), edited.columns)
    else
      SavedRows(edited.rows, edited.columns)
  }

  lemma {:induction false} UnmarkedMembers(rows: seq<Row>, r: Row)
    ensures r in Unmarked(rows) <==> r in rows && !Marked(r)
    decreases |rows|
  {
    if rows != [] {
      UnmarkedMembers(rows[..|rows| - 1], r);
      assert rows == rows[..|rows| - 1] + [rows[|rows| - 1]];
    }
  }

  lemma {:induction false} UnmarkedAll(rows: seq<Row>)
    requires forall i :: 0 <= i < |rows| ==> !Marked(rows[i])
    ensures Unmarked(rows) == rows
    decreases |rows|
  {
    if rows != [] {
      UnmarkedAll(rows[..|rows| - 1]);
    }
  }

  /** The stored rows are exactly the unticked rows, in order, with no
      derived column; a row is dropped only when it was ticked. */
  lemma CommitMeaning(edited: Frame)
    ensures Commit(edited) == SavedRows(Unmarked(edited.rows), edited.columns)
    ensures forall r :: r in Commit(edited) ==> forall c :: c in r ==> c !in DerivedColumns
    ensures forall r :: r in edited.rows && !Marked(r) ==> SavedRow(r, edited.columns) in Commit(edited)
  {
    if !exists i :: 0 <= i < |edited.rows| && Marked(edited.rows[i]) {
      UnmarkedAll(edited.rows);
    }
    var kept := Unmarked(edited.rows);
    forall r | r in edited.rows && !Marked(r) ensures SavedRow(r, edited.columns) in Commit(edited) {
      UnmarkedMembers(edited.rows, r);
      var k :| 0 <= k < |kept| && kept[k] == r;
      assert Commit(edited)[k] == SavedRow(r, edited.columns);
    }
  }

  /** The rows one editor keeps in the session. */
  class SheetEditor {
    const key: string
    var records: seq<Row>

    constructor (key: string, records: seq<Row>)
      ensures this.key == key && this.records == records
    {
      this.key := key;
      this.records := records;
    }

    /** The add button: append `count` copies of the blank row. */
    method AddRows(cols: seq<string>, count: nat)
      modifies this
      ensures records == old(records) + seq(count, _ => NewRow(key, cols))
    {
      var newRow := map c | c in cols :: Text("");
      if "類別" in cols {
        if Contains(key, "us") { newRow := newRow["類別" := Text("美股")]; }
        else if Contains(key, "tw") { newRow := newRow["類別" := Text("台股")]; }
        else if Contains(key, "fixed") { newRow := newRow["類別" := Text("固定")]; }
      }
      assert newRow == NewRow(key, cols);
      ghost var start := records;
      for n := 0 to count
        invariant records == start + seq(n, _ => newRow)
      {
        records := records + [newRow];
        assert seq(n + 1, _ => newRow) == seq(n, _ => newRow) + [newRow];
      }
    }

    /** Store the edited sheet (ticked rows and derived columns removed). */
    method CommitEdits(edited: Frame)
      modifies this
      ensures records == Commit(edited)
    {
      records := Commit(edited);
    }
  }
}
