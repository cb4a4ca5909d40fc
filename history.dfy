/** The daily net-worth history: at most one row per date is appended to
    the History sheet. */
module History {

  /** A History row: Date, net worth, assets, liabilities, monthly payment. */
  datatype HistoryPoint = HistoryPoint(date: string, netWorth: real, assets: real, liabilities: real, monthly: real)

  predicate HasDate(records: seq<HistoryPoint>, date: string)
  {
    exists i :: 0 <= i < |records| && records[i].date == date
  }

  /** No two rows share a date. */
  predicate DatesUnique(records: seq<HistoryPoint>)
  {
    forall i, j :: 0 <= i < j < |records| ==> records[i].date != records[j].date
  }

  /** The history after saving today's point: unchanged when the rows could
      be read and one of them is dated today, otherwise the point appended
      (also when reading the rows failed). */
  function AppendDaily(records: seq<HistoryPoint>, p: HistoryPoint, readable: bool): (r: seq<HistoryPoint>)
    ensures r == records || r == records + [p]
    ensures r == records <==> readable && HasDate(records, p.date)
  {
    if readable && HasDate(records, p.date) then records else records + [p]
  }

  /** The History sheet of one user. */
  class HistorySheet {
    var records: seq<HistoryPoint>

    constructor (initial: seq<HistoryPoint>)
      ensures records == initial
    {
      records := initial;
    }

    /** Save today's point unless the sheet already has a row for today. */
    method SaveDailyRecord(today: string, netWorth: real, assets: real, liabilities: real, monthly: real,
                           readable: bool)
      modifies this
      ensures records == AppendDaily(old(records), HistoryPoint(today, netWorth, assets, liabilities, monthly), readable)
    {
      if readable {
        var i := 0;
        while i < |records|
          invariant 0 <= i <= |records|
          invariant forall k :: 0 <= k < i ==> records[k].date != today
        {
          if records[i].date == today {
            return;
          }
          i := i + 1;
        }
      }
      records := records + [HistoryPoint(today, netWorth, assets, liabilities, monthly)];
    }
  }

  /** Saving a second time on the same day (with the sheet readable) changes
      nothing, whatever figures the second call carries. */
  lemma SaveTwiceSameDay(records: seq<HistoryPoint>, p: HistoryPoint, q: HistoryPoint, readable: bool)
    requires p.date == q.date
    ensures AppendDaily(AppendDaily(records, p, readable), q, true) == AppendDaily(records, p, readable)
  {
    var r := AppendDaily(records, p, readable);
    if r == records + [p] {
      assert r[|records|].date == q.date;
    }
  }

  /** While the sheet stays readable, dates stay unique. */
  lemma AppendKeepsDatesUnique(records: seq<HistoryPoint>, p: HistoryPoint)
    requires DatesUnique(records)
    ensures DatesUnique(AppendDaily(records, p, true))
  {
    var r := AppendDaily(records, p, true);
    if r != records {
      forall i, j | 0 <= i < j < |r| ensures r[i].date != r[j].date {
        if j == |records| {
          assert r[i] == records[i];
        }
      }
    }
  }

  /** Earlier rows are never changed or dropped, and the last row is today's
      point whenever one was appended. */
  lemma AppendKeepsPast(records: seq<HistoryPoint>, p: HistoryPoint, readable: bool)
    ensures var r := AppendDaily(records, p, readable);
      && |records| <= |r| <= |records| + 1
      && r[..|records|] == records
      && (|r| > |records| ==> r[|records|] == p)
      && HasDate(r, p.date)
  {
    var r := AppendDaily(records, p, readable);
    if r != records {
      assert r[|records|].date == p.date;
    }
  }
}
