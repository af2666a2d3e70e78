/** The dashboard's filter (app.py, lines 143 and 151-154): an inclusive range of order
    dates, then the selected regions and categories. Filtering only selects rows. */
module FilterEngine {
  import opened Seqs
  import opened Records

  /** `start <= Order Date <= end`, both bounds inclusive. */
  predicate InDateRange(r: Record, start: Date, end: Date)
  {
    DateLe(start, r.orderDate) && DateLe(r.orderDate, end)
  }

  /** The row's region and its category are both among the selected ones. */
  predicate InSelection(r: Record, regions: set<string>, categories: set<string>)
  {
    r.region in regions && r.category in categories
  }

  /** A row the whole filter keeps. */
  predicate Keeps(r: Record, start: Date, end: Date, regions: set<string>, categories: set<string>)
  {
    InDateRange(r, start, end) && InSelection(r, regions, categories)
  }

  /** Line 143: the rows within the date range. */
  function FilterByDate(rows: seq<Record>, start: Date, end: Date): seq<Record>
  {
    Select(rows, r => InDateRange(r, start, end))
  }

  /** Lines 151-154: of those, the rows in the selected regions and categories. */
  function FilterBySelection(rows: seq<Record>, regions: set<string>, categories: set<string>): seq<Record>
  {
    Select(rows, r => InSelection(r, regions, categories))
  }

  /** The filtered view: an order-preserving subsequence of the table that holds each row
      the filter keeps as many times as the table does, and no other row. */
  function FilterView(t: CleanTable, start: Date, end: Date, regions: set<string>, categories: set<string>): (v: CleanTable)
    ensures v.columns == t.columns
    ensures IsSubsequence(v.rows, t.rows)
    ensures forall r :: multiset(v.rows)[r] == if Keeps(r, start, end, regions, categories) then multiset(t.rows)[r] else 0
    ensures forall r :: r in v.rows <==> r in t.rows && Keeps(r, start, end, regions, categories)
  {
    var byDate := FilterByDate(t.rows, start, end);
    var rows := FilterBySelection(byDate, regions, categories);
    SubsequenceTransitive(rows, byDate, t.rows);
    assert forall r :: r in rows <==> multiset(rows)[r] > 0;
    assert forall r :: r in t.rows <==> multiset(t.rows)[r] > 0;
    CleanTable(t.columns, rows)
  }

  /** A filter that keeps every row of a table gives the table back; in particular the
      default filter (the full date span, every region, every category) shows all rows. */
  lemma FilterKeepingAll(t: CleanTable, start: Date, end: Date, regions: set<string>, categories: set<string>)
    requires forall i :: 0 <= i < |t.rows| ==> Keeps(t.rows[i], start, end, regions, categories)
    ensures FilterView(t, start, end, regions, categories) == t
  {
    SelectAll(t.rows, r => InDateRange(r, start, end));
    SelectAll(t.rows, r => InSelection(r, regions, categories));
  }

  /** Filtering twice with the same parameters gives the same view as filtering once. */
  lemma FilterIdempotent(t: CleanTable, start: Date, end: Date, regions: set<string>, categories: set<string>)
    ensures var v := FilterView(t, start, end, regions, categories);
      FilterView(v, start, end, regions, categories) == v
  {
    var v := FilterView(t, start, end, regions, categories);
    forall i | 0 <= i < |v.rows| ensures Keeps(v.rows[i], start, end, regions, categories) {
      assert v.rows[i] in v.rows;
    }
    FilterKeepingAll(v, start, end, regions, categories);
  }

  /** An empty region or category selection gives an empty view, not an unfiltered one. */
  lemma EmptySelectionEmptyView(t: CleanTable, start: Date, end: Date, regions: set<string>, categories: set<string>)
    requires regions == {} || categories == {}
    ensures FilterView(t, start, end, regions, categories).rows == []
  {
    var byDate := FilterByDate(t.rows, start, end);
    SelectNone(byDate, r => InSelection(r, regions, categories));
  }
}
