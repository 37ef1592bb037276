/**
 * The parameter tuple `insert_data_to_mysql` builds for each row: fifteen
 * values in the column order of the INSERT statement, with `int(...)` and
 * `float(...)` applied to the numeric fields.
 */
module Encoding {
  import opened Wrappers
  import opened Table

  /** A Python float handed to the driver: a finite value or NaN. */
  datatype Float = Finite(x: real) | NaN

  /** One bound parameter. */
  datatype SqlValue = Raw(v: Value) | Int(i: int) | Real(f: Float)

  type Params = seq<SqlValue>

  /** What the tuple applies to a field: nothing, `int(...)` or `float(...)`. */
  datatype Conversion = AsIs | ToInt | ToFloat

  /** One tuple position: the source column it reads and the conversion applied. */
  datatype Binding = Binding(source: Column, conversion: Conversion)

  /** Failures while the tuple is built: `KeyError`, or `int`/`float` rejecting a value. */
  datatype EncodeError =
    | MissingField(column: Column)
    | NotAnInteger(column: Column)
    | NotAFloat(column: Column)

  /** The destination column list of the INSERT statement, in order. */
  const InsertColumns: seq<string> := [
    "date", "store_id", "product_id", "category", "region", "inventory_level", "units_sold",
    "units_ordered", "demand_forecast", "price", "discount", "weather_condition",
    "holiday_promotion", "competitor_pricing", "seasonality"]

  /** The table column each destination column is named after. */
  function SqlName(c: Column): string
  {
    match c
    case Date => "date"
    case StoreId => "store_id"
    case ProductId => "product_id"
    case Category => "category"
    case Region => "region"
    case InventoryLevel => "inventory_level"
    case UnitsSold => "units_sold"
    case UnitsOrdered => "units_ordered"
    case DemandForecast => "demand_forecast"
    case Price => "price"
    case Discount => "discount"
    case WeatherCondition => "weather_condition"
    case HolidayPromotion => "holiday_promotion"
    case CompetitorPricing => "competitor_pricing"
    case Seasonality => "seasonality"
    case Other(h) => h
  }

  /** The fifteen tuple positions, in the order the tuple lists them. */
  const Bindings: seq<Binding> := [
    Binding(Date, AsIs),
    Binding(StoreId, AsIs),
    Binding(ProductId, AsIs),
    Binding(Category, AsIs),
    Binding(Region, AsIs),
    Binding(InventoryLevel, ToInt),
    Binding(UnitsSold, ToInt),
    Binding(UnitsOrdered, ToInt),
    Binding(DemandForecast, ToFloat),
    Binding(Price, ToFloat),
    Binding(Discount, ToFloat),
    Binding(WeatherCondition, AsIs),
    Binding(HolidayPromotion, ToInt),
    Binding(CompetitorPricing, ToFloat),
    Binding(Seasonality, AsIs)]

  /**
   * Position k of the tuple fills placeholder k: it reads the column that
   * destination column k is named after, so values land in their own columns.
   */
  lemma BindingsMatchInsertColumns()
    ensures |Bindings| == |InsertColumns| == 15
    ensures forall k | 0 <= k < 15 :: SqlName(Bindings[k].source) == InsertColumns[k]
  {
  }

  /** Python's `int()` of a float: truncation toward zero. */
  function Truncate(x: real): (n: int)
    ensures 0.0 <= x ==> n as real <= x < n as real + 1.0
    ensures x < 0.0 ==> n as real - 1.0 < x <= n as real
  {
    if x >= 0.0 then x.Floor else -((-x).Floor)
  }

  /** `int(v)`: NaN, text and datetimes are rejected. */
  function AsInteger(c: Column, v: Value): Result<int, EncodeError>
  {
    match v
    case Num(x) => Ok(Truncate(x))
    case Bool(b) => Ok(if b then 1 else 0)
    case _ => Err(NotAnInteger(c))
  }

  /** `float(v)`: NaN stays NaN; text and datetimes are rejected. */
  function AsFloat(c: Column, v: Value): Result<Float, EncodeError>
  {
    match v
    case Missing => Ok(NaN)
    case Num(x) => Ok(Finite(x))
    case Bool(b) => Ok(Finite(if b then 1.0 else 0.0))
    case _ => Err(NotAFloat(c))
  }

  /** One tuple position: `row[source]`, then its conversion. */
  function EncodeField(row: Row, b: Binding): Result<SqlValue, EncodeError>
  {
    if b.source !in row then Err(MissingField(b.source))
    else
      var v := row[b.source];
      match b.conversion
      case AsIs => Ok(Raw(v))
      case ToInt => (match AsInteger(b.source, v) case Ok(n) => Ok(Int(n)) case Err(e) => Err(e))
      case ToFloat => (match AsFloat(b.source, v) case Ok(f) => Ok(Real(f)) case Err(e) => Err(e))
  }

  /**
   * The positions evaluated left to right. The tuple exists exactly when
   * every position succeeds, and then has one value per binding in binding
   * order; otherwise the error is that of the first position that fails.
   */
  function EncodeFields(row: Row, bs: seq<Binding>): (r: Result<Params, EncodeError>)
    ensures r.Ok? <==> forall k | 0 <= k < |bs| :: EncodeField(row, bs[k]).Ok?
    ensures r.Ok? ==> (|r.value| == |bs| &&
              forall k | 0 <= k < |bs| :: r.value[k] == EncodeField(row, bs[k]).value)
    ensures r.Err? ==> exists k | 0 <= k < |bs| ::
              && (forall j | 0 <= j < k :: EncodeField(row, bs[j]).Ok?)
              && EncodeField(row, bs[k]) == Err(r.error)
  {
    if bs == [] then Ok([])
    else
      match EncodeField(row, bs[0])
      case Err(e) => Err(e)
      case Ok(v) =>
        match EncodeFields(row, bs[1..])
        case Err(e) => assert forall j | 1 <= j < |bs| :: bs[j] == bs[1..][j - 1]; Err(e)
        case Ok(vs) => Ok([v] + vs)
  }

  /** The tuple for one row. */
  function EncodeRow(row: Row): Result<Params, EncodeError>
  {
    EncodeFields(row, Bindings)
  }

  /**
   * The nested loop's list: one tuple per row of the batch, in row order,
   * or the error of the first row whose tuple cannot be built.
   */
  function EncodeRows(rows: seq<Row>): (r: Result<seq<Params>, EncodeError>)
    ensures r.Ok? <==> forall k | 0 <= k < |rows| :: EncodeRow(rows[k]).Ok?
    ensures r.Ok? ==> (|r.value| == |rows| &&
              forall k | 0 <= k < |rows| :: r.value[k] == EncodeRow(rows[k]).value)
    ensures r.Err? ==> exists k | 0 <= k < |rows| ::
              && (forall j | 0 <= j < k :: EncodeRow(rows[j]).Ok?)
              && EncodeRow(rows[k]) == Err(r.error)
  {
    if rows == [] then Ok([])
    else
      match EncodeRow(rows[0])
      case Err(e) => Err(e)
      case Ok(p) =>
        match EncodeRows(rows[1..])
        case Err(e) => assert forall j | 1 <= j < |rows| :: rows[j] == rows[1..][j - 1]; Err(e)
        case Ok(ps) => Ok([p] + ps)
  }

  /**
   * A built tuple has fifteen values, one per destination column in order:
   * the row has all fifteen source columns, and position k holds column k's
   * value as is, as an integer or as a float, as the binding says.
   */
  lemma EncodeRowShape(row: Row)
    requires EncodeRow(row).Ok?
    ensures |EncodeRow(row).value| == 15
    ensures forall k | 0 <= k < 15 :: Bindings[k].source in row
    ensures forall k | 0 <= k < 15 && Bindings[k].conversion == AsIs ::
              EncodeRow(row).value[k] == Raw(row[Bindings[k].source])
    ensures forall k | 0 <= k < 15 && Bindings[k].conversion == ToInt :: EncodeRow(row).value[k].Int?
    ensures forall k | 0 <= k < 15 && Bindings[k].conversion == ToFloat :: EncodeRow(row).value[k].Real?
  {
    forall k | 0 <= k < 15 ensures EncodeField(row, Bindings[k]).Ok? {
    }
  }

  /** A boolean Holiday/Promotion is sent as the integer 1 or 0. */
  lemma HolidayEncodesAsBit(row: Row)
    requires HolidayPromotion in row && row[HolidayPromotion].Bool?
    requires EncodeRow(row).Ok?
    ensures EncodeRow(row).value[12] == Int(if row[HolidayPromotion].b then 1 else 0)
  {
    assert EncodeField(row, Bindings[12]).Ok?;
  }

  /** A row lacking any of the fifteen columns has no tuple (`KeyError`). */
  lemma MissingColumnFails(row: Row, k: nat)
    requires k < 15 && Bindings[k].source !in row
    ensures EncodeRow(row).Err?
  {
    assert EncodeField(row, Bindings[k]).Err?;
  }
}
