/**
 * The in-memory table the pipeline works on: a set of named columns and an
 * ordered sequence of rows, each row mapping every column to a cell value.
 * This stands for the pandas DataFrame of the script after `read_csv`.
 */
module Table {

  /**
   * The fifteen columns of the retail export. `Other(h)` stands for a
   * column whose header h is none of the fifteen CSV headers.
   */
  datatype Column =
    | Date | StoreId | ProductId | Category | Region
    | InventoryLevel | UnitsSold | UnitsOrdered | DemandForecast | Price
    | Discount | WeatherCondition | HolidayPromotion | CompetitorPricing | Seasonality
    | Other(header: string)

  /**
   * One cell. `Missing` is pandas' missing marker (NaN, NaT, None);
   * `Num` a finite float, taken as an exact real; `Stamp` a parsed
   * datetime, as its nanosecond count.
   */
  datatype Value =
    | Missing
    | Num(x: real)
    | Bool(b: bool)
    | Text(s: string)
    | Stamp(ns: int)

  type Row = map<Column, Value>

  datatype Table = Table(columns: set<Column>, rows: seq<Row>)

  /** Every row carries exactly the columns `cols`. */
  predicate RowsOver(rows: seq<Row>, cols: set<Column>)
  {
    forall i | 0 <= i < |rows| :: rows[i].Keys == cols
  }

  /** Every row carries column `c`. */
  predicate HasColumn(rows: seq<Row>, c: Column)
  {
    forall i | 0 <= i < |rows| :: c in rows[i]
  }

  /** A data frame: all rows have the table's columns and no others. */
  predicate WellFormed(t: Table)
  {
    RowsOver(t.rows, t.columns)
  }
}
