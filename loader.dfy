/** Loading an uploaded table: the required-column check and the cleaning of the Sales,
    Profit and Quantity columns (app.py, lines 114-126). The file has already been
    decoded and parsed into rows, and the Order Date column into calendar days. */
module Loader {
  import opened Seqs
  import opened Records

  /** The columns a table must have, in the order the error message lists them. */
  const RequiredColumns: seq<string> :=
    [OrderDateColumn, SalesColumn, ProfitColumn, CategoryColumn, RegionColumn, SegmentColumn]

  /** The entries of `required` that `columns` lacks, in order. */
  function MissingFrom(required: seq<string>, columns: seq<string>): (missing: seq<string>)
    ensures IsSubsequence(missing, required)
    ensures forall c :: c in missing <==> c in required && c !in columns
  {
    if required == [] then []
    else
      var rest := MissingFrom(required[1..], columns);
      if required[0] in columns then rest
      else
        assert ([required[0]] + rest)[1..] == rest;
        [required[0]] + rest
  }

  /** The required columns a table with these column names lacks, in required order. */
  function MissingColumns(columns: seq<string>): (missing: seq<string>)
    ensures missing == [] <==> forall c :: c in RequiredColumns ==> c in columns
  {
    var missing := MissingFrom(RequiredColumns, columns);
    assert missing != [] ==> missing[0] in missing;
    missing
  }

  /** A table lacking only the Segment column is refused with exactly that column named. */
  lemma MissingSegmentOnly()
    ensures MissingColumns([OrderDateColumn, SalesColumn, ProfitColumn, CategoryColumn, RegionColumn, SubCategoryColumn])
      == [SegmentColumn]
  {
    var columns := [OrderDateColumn, SalesColumn, ProfitColumn, CategoryColumn, RegionColumn, SubCategoryColumn];
    assert SegmentColumn !in columns;
    assert MissingFrom(RequiredColumns[5..], columns) == [SegmentColumn];
    assert MissingFrom(RequiredColumns[4..], columns) == [SegmentColumn];
    assert MissingFrom(RequiredColumns[3..], columns) == [SegmentColumn];
    assert MissingFrom(RequiredColumns[2..], columns) == [SegmentColumn];
    assert MissingFrom(RequiredColumns[1..], columns) == [SegmentColumn];
  }

  /** Rounding to the nearest integer, ties to the even neighbour, as numpy rounds. */
  function RoundHalfEven(x: real): (n: int)
    ensures -0.5 <= x - n as real <= 0.5
    ensures (x - n as real == 0.5 || x - n as real == -0.5) ==> n % 2 == 0
  {
    var f := x.Floor;
    var frac := x - f as real;
    if frac < 0.5 then f
    else if frac > 0.5 then f + 1
    else if f % 2 == 0 then f else f + 1
  }

  /** A row with Sales 100 and Profit 0 gets Quantity 100: the zero profit counts as 1. */
  lemma ZeroProfitQuantity()
    ensures DerivedQuantity(Some(100.0), Some(0.0)) == Some(100.0)
  {
    assert (100.0).Floor == 100;
  }

  function MaxZero(x: real): real { if x < 0.0 then 0.0 else x }

  /** The divisor of the Quantity heuristic: Profit with 0 replaced by 1. */
  function QuantityDivisor(profit: real): (d: real)
    ensures d != 0.0
  {
    if profit == 0.0 then 1.0 else profit
  }

  /** Sales divided by Profit (a zero Profit counting as 1), rounded to a whole number;
      a null operand gives a null (NaN) quantity. */
  function DerivedQuantity(sales: Option<real>, profit: Option<real>): Option<real>
  {
    if sales.Some? && profit.Some? then
      Some(RoundHalfEven(sales.value / QuantityDivisor(profit.value)) as real)
    else None
  }

  function FillProfitRow(row: RawRow): RawRow
  {
    row.(profit := Some(if row.profit.Some? then row.profit.value else 0.0))
  }

  function ClipSalesRow(row: RawRow): RawRow
  {
    row.(sales := if row.sales.Some? then Some(MaxZero(row.sales.value)) else None)
  }

  function DeriveQuantityRow(row: RawRow): RawRow
  {
    row.(quantity := DerivedQuantity(row.sales, row.profit))
  }

  /** The Profit column with every null replaced by 0. */
  function FillProfitColumn(rows: seq<RawRow>): seq<RawRow> { MapSeq(rows, FillProfitRow) }

  /** The Sales column with negative values raised to 0; a null stays null. */
  function ClipSalesColumn(rows: seq<RawRow>): seq<RawRow> { MapSeq(rows, ClipSalesRow) }

  /** The derived Quantity column. */
  function DeriveQuantityColumn(rows: seq<RawRow>): seq<RawRow> { MapSeq(rows, DeriveQuantityRow) }

  /** A row that `dropna` on Sales and Profit keeps: both cells present. */
  predicate IsComplete(row: RawRow)
  {
    row.sales.Some? && row.profit.Some?
  }

  /** The cleaned record of a complete row (a null cell, which no complete row has, reads
      as 0). */
  function ToRecord(row: RawRow): Record
  {
    Record(row.orderDate, if row.sales.Some? then row.sales.value else 0.0,
           if row.profit.Some? then row.profit.value else 0.0, row.category, row.region,
           row.segment, row.subCategory, row.quantity)
  }

  /** Drops the rows with a null Sales or Profit: exactly the complete rows remain, in
      order, each as its record. */
  function DropNullRows(rows: seq<RawRow>): (r: seq<Record>)
    ensures r == MapSeq(Select(rows, IsComplete), ToRecord)
    ensures |r| <= |rows|
  {
    if rows == [] then []
    else
      var rest := DropNullRows(rows[1..]);
      var kept := Select(rows[1..], IsComplete);
      if IsComplete(rows[0]) then
        assert Select(rows, IsComplete) == [rows[0]] + kept;
        [ToRecord(rows[0])] + rest
      else
        rest
  }

  /** The table just before `dropna`: Profit filled, Sales clipped, and Quantity derived
      and appended to the columns when the file had none. */
  function Prepare(t: RawTable): RawTable
  {
    var clipped := ClipSalesColumn(FillProfitColumn(t.rows));
    if QuantityColumn in t.columns then RawTable(t.columns, clipped)
    else RawTable(t.columns + [QuantityColumn], DeriveQuantityColumn(clipped))
  }

  /** The cleaned table of a table that has every required column. */
  function Normalize(t: RawTable): CleanTable
  {
    var p := Prepare(t);
    CleanTable(p.columns, DropNullRows(p.rows))
  }

  /** Row by row, what cleaning makes of one raw row whose Sales cell holds `sales`. */
  function CleanedRecord(row: RawRow, sales: real, deriveQuantity: bool): (r: Record)
    ensures r.sales >= 0.0 && (sales >= 0.0 ==> r.sales == sales) && (sales < 0.0 ==> r.sales == 0.0)
    ensures row.profit.Some? ==> r.profit == row.profit.value
    ensures row.profit.None? ==> r.profit == 0.0
    ensures deriveQuantity ==>
      r.quantity == Some(RoundHalfEven(r.sales / QuantityDivisor(r.profit)) as real)
    ensures !deriveQuantity ==> r.quantity == row.quantity
    ensures r.orderDate == row.orderDate && r.category == row.category && r.region == row.region
      && r.segment == row.segment && r.subCategory == row.subCategory
  {
    var s := MaxZero(sales);
    var p := if row.profit.Some? then row.profit.value else 0.0;
    Record(row.orderDate, s, p, row.category, row.region, row.segment, row.subCategory,
           if deriveQuantity then Some(RoundHalfEven(s / QuantityDivisor(p)) as real) else row.quantity)
  }

  /** The reference definition of cleaning: each row with a Sales value becomes its
      cleaned record, in order; each row without one is dropped. */
  function CleanRows(rows: seq<RawRow>, deriveQuantity: bool): seq<Record>
  {
    if rows == [] then []
    else
      (if rows[0].sales.Some? then [CleanedRecord(rows[0], rows[0].sales.value, deriveQuantity)] else [])
      + CleanRows(rows[1..], deriveQuantity)
  }

  /** The column-by-column cleaning equals the row-by-row reference: a null Profit never
      causes a drop (it was filled), a null Sales always does, and Quantity is derived
      exactly when the file had no Quantity column. */
  lemma {:induction false} NormalizeIsRowwise(t: RawTable)
    ensures Normalize(t).rows == CleanRows(t.rows, QuantityColumn !in t.columns)
    ensures Normalize(t).columns
      == if QuantityColumn in t.columns then t.columns else t.columns + [QuantityColumn]
  {
    PrepareRowwise(t.rows, QuantityColumn !in t.columns);
  }

  lemma {:induction false} PrepareRowwise(rows: seq<RawRow>, deriveQuantity: bool)
    ensures var clipped := ClipSalesColumn(FillProfitColumn(rows));
      DropNullRows(if deriveQuantity then DeriveQuantityColumn(clipped) else clipped)
        == CleanRows(rows, deriveQuantity)
  {
    if rows != [] {
      PrepareRowwise(rows[1..], deriveQuantity);
      var clipped := ClipSalesColumn(FillProfitColumn(rows));
      var prepared := if deriveQuantity then DeriveQuantityColumn(clipped) else clipped;
      var clippedTail := ClipSalesColumn(FillProfitColumn(rows[1..]));
      assert clipped[1..] == clippedTail;
      assert prepared[1..] == if deriveQuantity then DeriveQuantityColumn(clippedTail) else clippedTail;
      PreparedRow(rows[0], deriveQuantity);
      var p := prepared[0];
      assert p == (var c := ClipSalesRow(FillProfitRow(rows[0])); if deriveQuantity then DeriveQuantityRow(c) else c);
      assert DropNullRows(prepared)
        == (if IsComplete(p) then [ToRecord(p)] else []) + DropNullRows(prepared[1..]);
    }
  }

  /** One row through fill, clip and derive: it survives the drop exactly when it had a
      Sales value, and then as its cleaned record. */
  lemma PreparedRow(row: RawRow, deriveQuantity: bool)
    ensures var c := ClipSalesRow(FillProfitRow(row));
      var p := if deriveQuantity then DeriveQuantityRow(c) else c;
      && (IsComplete(p) <==> row.sales.Some?)
      && (row.sales.Some? ==> ToRecord(p) == CleanedRecord(row, row.sales.value, deriveQuantity))
  {
  }

  /** How many rows have a Sales value. */
  function CountWithSales(rows: seq<RawRow>): nat
  {
    if rows == [] then 0 else (if rows[0].sales.Some? then 1 else 0) + CountWithSales(rows[1..])
  }

  /** The cleaned rows keep exactly the rows that had a Sales value, and every surviving
      Sales value is non-negative. */
  lemma {:induction false} CleanRowsKeepSales(rows: seq<RawRow>, deriveQuantity: bool)
    ensures |CleanRows(rows, deriveQuantity)| == CountWithSales(rows)
    ensures forall r :: r in CleanRows(rows, deriveQuantity) ==> r.sales >= 0.0
  {
    if rows != [] {
      CleanRowsKeepSales(rows[1..], deriveQuantity);
    }
  }

  /** A table whose Sales cells are all present loses no row in cleaning. */
  lemma {:induction false} NoNullSalesNoDrop(rows: seq<RawRow>, deriveQuantity: bool)
    requires forall i :: 0 <= i < |rows| ==> rows[i].sales.Some?
    ensures |CleanRows(rows, deriveQuantity)| == |rows|
  {
    if rows != [] {
      NoNullSalesNoDrop(rows[1..], deriveQuantity);
    }
  }

  /** A table as pandas holds it: the DataFrame object that the load path updates column
      by column. */
  class Frame {
    var columns: seq<string>
    var rows: seq<RawRow>

    constructor (columns: seq<string>, rows: seq<RawRow>)
      ensures this.columns == columns && this.rows == rows
    {
      this.columns := columns;
      this.rows := rows;
    }

    function Table(): RawTable
      reads this
    {
      RawTable(columns, rows)
    }

    /** Replaces every null Profit of this frame by 0. */
    method FillProfitNulls()
      modifies this
      ensures columns == old(columns) && rows == FillProfitColumn(old(rows))
      ensures forall i :: 0 <= i < |rows| ==> rows[i].profit.Some?
    {
      rows := FillProfitColumn(rows);
    }

    /** Raises every negative Sales of this frame to 0. */
    method ClipSales()
      modifies this
      ensures columns == old(columns) && rows == ClipSalesColumn(old(rows))
      ensures forall i :: 0 <= i < |rows| ==> rows[i].sales.Some? ==> rows[i].sales.value >= 0.0
    {
      rows := ClipSalesColumn(rows);
    }

    /** Stores the derived Quantity column; assigning a column adds it when it is absent. */
    method AssignDerivedQuantity()
      modifies this
      ensures columns == if QuantityColumn in old(columns) then old(columns) else old(columns) + [QuantityColumn]
      ensures rows == DeriveQuantityColumn(old(rows))
    {
      if QuantityColumn !in columns {
        columns := columns + [QuantityColumn];
      }
      rows := DeriveQuantityColumn(rows);
    }

    /** Drops the rows with a null Sales or Profit into a new table; this frame is left
        as it is. */
    function DropNulls(): (t: CleanTable)
      reads this
      ensures t.columns == columns
      ensures t.rows == MapSeq(Select(rows, IsComplete), ToRecord)
    {
      CleanTable(columns, DropNullRows(rows))
    }
  }
}
