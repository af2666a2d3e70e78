/** The sales table: raw rows as parsed from the uploaded file, the cleaned records the
    dashboard works on, calendar days and months, and the orders pandas sorts them by. */
module Records {
  import opened Seqs

  const OrderDateColumn := "Order Date"
  const SalesColumn := "Sales"
  const ProfitColumn := "Profit"
  const CategoryColumn := "Category"
  const RegionColumn := "Region"
  const SegmentColumn := "Segment"
  const QuantityColumn := "Quantity"
  const SubCategoryColumn := "Sub-Category"

  /** A calendar day; times of day are not part of the model. */
  datatype Date = Date(year: int, month: int, day: int)

  /** Chronological order on days: compare year, then month, then day. */
  predicate DateLe(a: Date, b: Date)
  {
    a.year < b.year || (a.year == b.year && (a.month < b.month || (a.month == b.month && a.day <= b.day)))
  }

  /** A calendar month, the key of `to_period('M')`. */
  datatype Month = Month(year: int, month: int)

  function MonthOf(d: Date): Month { Month(d.year, d.month) }

  predicate MonthBefore(a: Month, b: Month)
  {
    a.year < b.year || (a.year == b.year && a.month < b.month)
  }

  /** Python's string order: code point by code point, a proper prefix first. */
  predicate StrLess(a: string, b: string)
  {
    if a == [] then b != []
    else if b == [] then false
    else a[0] < b[0] || (a[0] == b[0] && StrLess(a[1..], b[1..]))
  }

  lemma MonthBeforeIsStrictOrder()
    ensures IsStrictOrder(MonthBefore)
  {
  }

  lemma {:induction false} StrLessIrreflexive(a: string)
    ensures !StrLess(a, a)
  {
    if a != [] { StrLessIrreflexive(a[1..]); }
  }

  lemma {:induction false} StrLessTransitive(a: string, b: string, c: string)
    requires StrLess(a, b) && StrLess(b, c)
    ensures StrLess(a, c)
  {
    if a != [] && a[0] == b[0] && b[0] == c[0] {
      StrLessTransitive(a[1..], b[1..], c[1..]);
    }
  }

  lemma {:induction false} StrLessTotal(a: string, b: string)
    ensures a == b || StrLess(a, b) || StrLess(b, a)
  {
    if a != [] && b != [] && a[0] == b[0] {
      StrLessTotal(a[1..], b[1..]);
      if a[1..] == b[1..] {
        assert a == [a[0]] + a[1..] && b == [b[0]] + b[1..];
      }
    }
  }

  lemma StrLessIsStrictOrder()
    ensures IsStrictOrder(StrLess)
  {
    forall a: string ensures !StrLess(a, a) { StrLessIrreflexive(a); }
    forall a: string, b: string, c: string | StrLess(a, b) && StrLess(b, c) ensures StrLess(a, c) {
      StrLessTransitive(a, b, c);
    }
    forall a: string, b: string ensures a == b || StrLess(a, b) || StrLess(b, a) { StrLessTotal(a, b); }
  }

  /** A row as parsed from the file. `None` is a null cell. `subCategory` and `quantity`
      are meaningful only when the table has those columns. */
  datatype RawRow = RawRow(
    orderDate: Date,
    sales: Option<real>,
    profit: Option<real>,
    category: string,
    region: string,
    segment: string,
    subCategory: string,
    quantity: Option<real>)

  /** A row of the cleaned table: Sales and Profit are never null there. */
  datatype Record = Record(
    orderDate: Date,
    sales: real,
    profit: real,
    category: string,
    region: string,
    segment: string,
    subCategory: string,
    quantity: Option<real>)

  /** A table as parsed: its column names and its rows. */
  datatype RawTable = RawTable(columns: seq<string>, rows: seq<RawRow>)

  /** A cleaned table (or a filtered view of one): its column names and its rows. */
  datatype CleanTable = CleanTable(columns: seq<string>, rows: seq<Record>)

  function SalesOf(r: Record): real { r.sales }
  function ProfitOf(r: Record): real { r.profit }
  function CategoryOf(r: Record): string { r.category }
  function SubCategoryOf(r: Record): string { r.subCategory }
  function RegionOf(r: Record): string { r.region }
  function MonthKey(r: Record): Month { MonthOf(r.orderDate) }
}
