/**
 * The loader/cleaner (`load_clean_csv`): convert the Date column, drop the rows
 * whose date did not parse, coerce Holiday/Promotion to a boolean and fill
 * missing values in three columns. All as functions over the parsed table.
 */
module Cleaning {
  import opened Wrappers
  import opened Table

  /**
   * pandas' `to_datetime(..., format='%Y-%m-%d', errors='coerce')` for one
   * cell: the parsed instant, or None where it yields NaT. The library's
   * parsing is not part of this model, so it is a parameter.
   */
  type DateParser = Value -> Option<int>

  datatype CleanError =
    | MissingDateColumn   // `df['Date']` raises KeyError
    | NonNumericPrice     // `df['Price'].mean()` raises on a text value

  /** The cleaned frame together with the number of rows dropped for their date. */
  datatype Cleaned = Cleaned(table: Table, dropped: nat)

  /** A missing cell never parses; any other cell parses when the parser accepts it. */
  predicate DateParses(parse: DateParser, v: Value)
  {
    !v.Missing? && parse(v).Some?
  }

  /** The converted Date cell: the instant, or NaT (missing). */
  function ToDatetime(parse: DateParser, v: Value): Value
  {
    if DateParses(parse, v) then Stamp(parse(v).value) else Missing
  }

  function ParseDateRow(parse: DateParser, r: Row): Row
    requires Date in r
  {
    r[Date := ToDatetime(parse, r[Date])]
  }

  /** Date conversion followed by `dropna(subset=['Date'])`. */
  function KeepParsed(parse: DateParser, rows: seq<Row>): (kept: seq<Row>)
    requires HasColumn(rows, Date)
    ensures |kept| <= |rows|
    ensures forall k | 0 <= k < |kept| :: Date in kept[k] && kept[k][Date].Stamp?
    ensures forall cols :: RowsOver(rows, cols) ==> RowsOver(kept, cols)
    decreases |rows|
  {
    if rows == [] then []
    else
      var last := rows[|rows| - 1];
      assert forall cols | RowsOver(rows, cols) :: RowsOver(rows[..|rows| - 1], cols) && last.Keys == cols;
      assert ParseDateRow(parse, last).Keys == last.Keys;
      KeepParsed(parse, rows[..|rows| - 1])
        + (if DateParses(parse, last[Date]) then [ParseDateRow(parse, last)] else [])
  }

  /**
   * Reference definition of the survivors: the positions, in increasing
   * order, of exactly the rows whose Date parses.
   */
  function Survivors(parse: DateParser, rows: seq<Row>): (idx: seq<nat>)
    requires HasColumn(rows, Date)
    ensures forall k | 0 <= k < |idx| :: idx[k] < |rows|
    ensures forall k, l | 0 <= k < l < |idx| :: idx[k] < idx[l]
    ensures forall i | 0 <= i < |rows| :: i in idx <==> DateParses(parse, rows[i][Date])
    decreases |rows|
  {
    if rows == [] then []
    else
      var n := |rows| - 1;
      Survivors(parse, rows[..n]) + (if DateParses(parse, rows[n][Date]) then [n] else [])
  }

  /** Reference count of the rows whose Date does not parse. */
  function CountUnparsed(parse: DateParser, rows: seq<Row>): nat
    requires HasColumn(rows, Date)
    decreases |rows|
  {
    if rows == [] then 0
    else
      var n := |rows| - 1;
      CountUnparsed(parse, rows[..n]) + (if DateParses(parse, rows[n][Date]) then 0 else 1)
  }

  /** Python truthiness of a stored value, as `astype(bool)` applies it; NaN is truthy. */
  predicate Truthy(v: Value)
  {
    match v
    case Missing => true
    case Num(x) => x != 0.0
    case Bool(b) => b
    case Text(s) => s != ""
    case Stamp(_) => true
  }

  /** `astype(bool)` on Holiday/Promotion, only when the column exists. */
  function CoerceHoliday(r: Row): Row
  {
    if HolidayPromotion in r then r[HolidayPromotion := Bool(Truthy(r[HolidayPromotion]))] else r
  }

  /** The three columns `fillna` is given, with their defaults. */
  predicate Filled(c: Column)
  {
    c == WeatherCondition || c == Discount || c == CompetitorPricing
  }

  function FillValue(c: Column, competitor: Value): Value
    requires Filled(c)
  {
    match c
    case WeatherCondition => Text("Unknown")
    case Discount => Num(0.0)
    case CompetitorPricing => competitor
  }

  /** `fillna` for one column: a key not in the frame is ignored. */
  function FillCell(r: Row, c: Column, v: Value): Row
  {
    if c in r && r[c].Missing? then r[c := v] else r
  }

  function FillRow(r: Row, competitor: Value): Row
  {
    var weather := FillCell(r, WeatherCondition, FillValue(WeatherCondition, competitor));
    var discount := FillCell(weather, Discount, FillValue(Discount, competitor));
    FillCell(discount, CompetitorPricing, FillValue(CompetitorPricing, competitor))
  }

  /** A value `Series.mean` can take: numbers, booleans, and NaN (skipped). */
  predicate Numeric(v: Value)
  {
    v.Missing? || v.Num? || v.Bool?
  }

  function Magnitude(v: Value): real
  {
    match v
    case Num(x) => x
    case Bool(b) => if b then 1.0 else 0.0
    case _ => 0.0
  }

  function PresentCount(vs: seq<Value>): nat
  {
    if vs == [] then 0 else (if vs[0].Missing? then 0 else 1) + PresentCount(vs[1..])
  }

  function PresentSum(vs: seq<Value>): real
  {
    if vs == [] then 0.0 else (if vs[0].Missing? then 0.0 else Magnitude(vs[0])) + PresentSum(vs[1..])
  }

  /** `Series.mean()`: the mean of the present values, NaN when there are none. */
  function Mean(vs: seq<Value>): Result<Value, CleanError>
  {
    if exists k | 0 <= k < |vs| :: !Numeric(vs[k]) then Err(NonNumericPrice)
    else if PresentCount(vs) == 0 then Ok(Missing)
    else Ok(Num(PresentSum(vs) / PresentCount(vs) as real))
  }

  function PriceColumn(rows: seq<Row>): seq<Value>
    requires HasColumn(rows, Price)
  {
    seq(|rows|, k requires 0 <= k < |rows| => rows[k][Price])
  }

  /**
   * The one scalar given to `fillna` for Competitor Pricing: the mean of
   * Price over the frame AFTER the date filter (the frame is reassigned by
   * `dropna` before the mean is taken), or 0.0 without a Price column.
   */
  function CompetitorFill(raw: Table, parse: DateParser): Result<Value, CleanError>
    requires WellFormed(raw) && Date in raw.columns
  {
    var kept := KeepParsed(parse, raw.rows);
    if Price in raw.columns then Mean(PriceColumn(kept)) else Ok(Num(0.0))
  }

  /** What cleaning makes of one surviving row. */
  function CleanRow(parse: DateParser, r: Row, competitor: Value): (c: Row)
    requires Date in r && DateParses(parse, r[Date])
    ensures c.Keys == r.Keys
    ensures c[Date] == Stamp(parse(r[Date]).value)
    ensures HolidayPromotion in r ==> c[HolidayPromotion] == Bool(Truthy(r[HolidayPromotion]))
    ensures forall f | f in r && Filled(f) ::
              c[f] == (if r[f].Missing? then FillValue(f, competitor) else r[f])
    ensures forall f | f in r && f != Date && f != HolidayPromotion && !Filled(f) :: c[f] == r[f]
  {
    FillRow(CoerceHoliday(ParseDateRow(parse, r)), competitor)
  }

  /** `load_clean_csv` after `read_csv`. */
  function Clean(raw: Table, parse: DateParser): (r: Result<Cleaned, CleanError>)
    requires WellFormed(raw)
    ensures Date !in raw.columns ==> r == Err(MissingDateColumn)
    ensures Date in raw.columns ==> (r.Err? <==> CompetitorFill(raw, parse).Err?)
    ensures r.Ok? ==> WellFormed(r.value.table) && r.value.table.columns == raw.columns
    ensures r.Ok? ==> |r.value.table.rows| + r.value.dropped == |raw.rows|
  {
    if Date !in raw.columns then Err(MissingDateColumn)
    else
      var kept := KeepParsed(parse, raw.rows);
      match CompetitorFill(raw, parse)
      case Err(e) => Err(e)
      case Ok(competitor) =>
        // `astype(bool)` on the column, then `fillna`, row by row
        var filled := seq(|kept|, k requires 0 <= k < |kept| => FillRow(CoerceHoliday(kept[k]), competitor));
        Ok(Cleaned(Table(raw.columns, filled), |raw.rows| - |kept|))
  }

  // ---------------------------------------------------------------------------
  // The date filter

  /** The rows kept by the filter are exactly the survivors, converted, in source order. */
  lemma {:induction false} KeptAreSurvivors(parse: DateParser, rows: seq<Row>)
    requires HasColumn(rows, Date)
    ensures |KeepParsed(parse, rows)| == |Survivors(parse, rows)|
    ensures forall k | 0 <= k < |Survivors(parse, rows)| ::
              KeepParsed(parse, rows)[k] == ParseDateRow(parse, rows[Survivors(parse, rows)[k]])
    decreases |rows|
  {
    if rows != [] {
      var n := |rows| - 1;
      var prefix, last := rows[..n], rows[n];
      KeptAreSurvivors(parse, prefix);
      var kp, sp := KeepParsed(parse, prefix), Survivors(parse, prefix);
      assert forall k | 0 <= k < |sp| :: rows[sp[k]] == prefix[sp[k]];
      KeepStep(parse, rows);
      SurvivorsStep(parse, rows);
    }
  }

  /** One step of the prefix recursion of the filter. */
  lemma KeepStep(parse: DateParser, rows: seq<Row>)
    requires HasColumn(rows, Date) && rows != []
    ensures var n := |rows| - 1;
            KeepParsed(parse, rows) == KeepParsed(parse, rows[..n])
              + (if DateParses(parse, rows[n][Date]) then [ParseDateRow(parse, rows[n])] else [])
  {
  }

  /** One step of the prefix recursion of the survivors. */
  lemma SurvivorsStep(parse: DateParser, rows: seq<Row>)
    requires HasColumn(rows, Date) && rows != []
    ensures var n := |rows| - 1;
            Survivors(parse, rows) == Survivors(parse, rows[..n]) + (if DateParses(parse, rows[n][Date]) then [n] else [])
  {
  }

  /** The number of dropped rows is the number of rows whose Date does not parse. */
  lemma {:induction false} DroppedAreUnparsed(parse: DateParser, rows: seq<Row>)
    requires HasColumn(rows, Date)
    ensures |rows| - |KeepParsed(parse, rows)| == CountUnparsed(parse, rows)
    decreases |rows|
  {
    if rows != [] {
      DroppedAreUnparsed(parse, rows[..|rows| - 1]);
    }
  }

  /** Only the Date column decides whether a row is dropped. */
  lemma {:induction false} SurvivalDependsOnlyOnDate(parse: DateParser, rows: seq<Row>, others: seq<Row>)
    requires HasColumn(rows, Date) && HasColumn(others, Date)
    requires |rows| == |others|
    requires forall i | 0 <= i < |rows| :: rows[i][Date] == others[i][Date]
    ensures Survivors(parse, rows) == Survivors(parse, others)
    ensures |KeepParsed(parse, rows)| == |KeepParsed(parse, others)|
    decreases |rows|
  {
    if rows != [] {
      var n := |rows| - 1;
      SurvivalDependsOnlyOnDate(parse, rows[..n], others[..n]);
      KeepStep(parse, rows);
      KeepStep(parse, others);
      SurvivorsStep(parse, rows);
      SurvivorsStep(parse, others);
    }
  }

  // ---------------------------------------------------------------------------
  // The mean of Price

  lemma {:induction false} PresentAppend(a: seq<Value>, b: seq<Value>)
    ensures PresentCount(a + b) == PresentCount(a) + PresentCount(b)
    ensures PresentSum(a + b) == PresentSum(a) + PresentSum(b)
  {
    if a == [] {
      assert a + b == b;
    } else {
      assert (a + b)[1..] == a[1..] + b;
      PresentAppend(a[1..], b);
    }
  }

  /** `mean` skips missing values: one NaN more or less does not change it. */
  lemma MeanSkipsMissing(a: seq<Value>, b: seq<Value>)
    ensures Mean(a + [Missing] + b) == Mean(a + b)
  {
    PresentAppend(a, [Missing] + b);
    PresentAppend([Missing], b);
    PresentAppend(a, b);
    var with, without := a + [Missing] + b, a + b;
    assert with == a + ([Missing] + b);
    assert forall k | 0 <= k < |without| :: without[k] == with[if k < |a| then k else k + 1];
    assert forall k | 0 <= k < |with| && k != |a| :: with[k] == without[if k < |a| then k else k - 1];
  }

  /** The mean is NaN exactly when no value is present, and a number otherwise. */
  lemma {:induction false} MeanMissingIff(vs: seq<Value>)
    requires Mean(vs).Ok?
    ensures Mean(vs).value.Missing? <==> forall k | 0 <= k < |vs| :: vs[k].Missing?
    ensures !Mean(vs).value.Missing? ==> Mean(vs).value.Num?
  {
    PresentZeroIff(vs);
  }

  /**
   * Otherwise the mean lies within any bounds of the present values: when
   * every present value is between lo and hi, so is the mean.
   */
  lemma MeanWithinBounds(vs: seq<Value>, lo: real, hi: real)
    requires Mean(vs).Ok? && PresentCount(vs) > 0
    requires forall k | 0 <= k < |vs| && !vs[k].Missing? :: lo <= Magnitude(vs[k]) <= hi
    ensures Mean(vs).value.Num?
    ensures lo <= Mean(vs).value.x <= hi
  {
    PresentSumBounds(vs, lo, hi);
    AverageBounds(PresentCount(vs), PresentSum(vs), lo, hi);
  }

  /** A sum between n copies of lo and n copies of hi has its n-th part between lo and hi. */
  lemma AverageBounds(n: nat, s: real, lo: real, hi: real)
    requires n > 0 && Times(n, lo) <= s <= Times(n, hi)
    ensures lo <= s / n as real <= hi
  {
    Repeated(n, lo);
    Repeated(n, hi);
    QuotientBounds(s, n as real, lo, hi);
  }

  /** x added to itself n times. */
  function Times(n: nat, x: real): real
  {
    if n == 0 then 0.0 else Times(n - 1, x) + x
  }

  lemma {:induction false} Repeated(n: nat, x: real)
    ensures Times(n, x) == n as real * x
  {
    if n > 0 {
      Repeated(n - 1, x);
      assert n as real * x == (n - 1) as real * x + x;
    }
  }

  lemma QuotientBounds(s: real, c: real, lo: real, hi: real)
    requires c > 0.0 && c * lo <= s <= c * hi
    ensures lo <= s / c <= hi
  {
  }

  /** With every present value in [lo, hi], their sum lies between count copies of lo and of hi. */
  lemma {:induction false} PresentSumBounds(vs: seq<Value>, lo: real, hi: real)
    requires forall k | 0 <= k < |vs| && !vs[k].Missing? :: lo <= Magnitude(vs[k]) <= hi
    ensures Times(PresentCount(vs), lo) <= PresentSum(vs) <= Times(PresentCount(vs), hi)
  {
    if vs != [] {
      assert forall k | 0 <= k < |vs[1..]| && !vs[1..][k].Missing? :: vs[1..][k] == vs[k + 1];
      PresentSumBounds(vs[1..], lo, hi);
    }
  }

  lemma {:induction false} PresentZeroIff(vs: seq<Value>)
    ensures PresentCount(vs) == 0 <==> forall k | 0 <= k < |vs| :: vs[k].Missing?
  {
    if vs != [] {
      PresentZeroIff(vs[1..]);
      assert forall k | 1 <= k < |vs| :: vs[k] == vs[1..][k - 1];
    }
  }

  // ---------------------------------------------------------------------------
  // The Competitor Pricing default

  /** The Price values of the surviving rows, in source order. */
  function SurvivorPrices(parse: DateParser, rows: seq<Row>): seq<Value>
    requires HasColumn(rows, Date) && HasColumn(rows, Price)
  {
    var idx := Survivors(parse, rows);
    seq(|idx|, k requires 0 <= k < |idx| => rows[idx[k]][Price])
  }

  /** The default is the mean of Price over the surviving rows. */
  lemma CompetitorFillOverSurvivors(raw: Table, parse: DateParser)
    requires WellFormed(raw) && Date in raw.columns && Price in raw.columns
    ensures CompetitorFill(raw, parse) == Mean(SurvivorPrices(parse, raw.rows))
  {
    KeptAreSurvivors(parse, raw.rows);
    assert PriceColumn(KeepParsed(parse, raw.rows)) == SurvivorPrices(parse, raw.rows);
  }

  /** `mean` fails exactly when a surviving row holds a non-numeric Price. */
  lemma CompetitorFillFails(raw: Table, parse: DateParser)
    requires WellFormed(raw) && Date in raw.columns
    ensures CompetitorFill(raw, parse).Err? <==>
              Price in raw.columns &&
              exists i | 0 <= i < |raw.rows| :: DateParses(parse, raw.rows[i][Date]) && !Numeric(raw.rows[i][Price])
  {
    if Price in raw.columns {
      CompetitorFillOverSurvivors(raw, parse);
      var idx := Survivors(parse, raw.rows);
      var prices := SurvivorPrices(parse, raw.rows);
      if i :| 0 <= i < |raw.rows| && DateParses(parse, raw.rows[i][Date]) && !Numeric(raw.rows[i][Price]) {
        var k :| 0 <= k < |idx| && idx[k] == i;
        assert !Numeric(prices[k]);
      }
    }
  }

  /** The survivors' Price values are all missing iff every surviving row's Price is. */
  lemma SurvivorPricesMissing(parse: DateParser, rows: seq<Row>)
    requires HasColumn(rows, Date) && HasColumn(rows, Price)
    ensures var prices := SurvivorPrices(parse, rows);
            (forall k | 0 <= k < |prices| :: prices[k].Missing?) <==>
            (forall i | 0 <= i < |rows| && DateParses(parse, rows[i][Date]) :: rows[i][Price].Missing?)
  {
    var idx := Survivors(parse, rows);
    var prices := SurvivorPrices(parse, rows);
    if forall k | 0 <= k < |prices| :: prices[k].Missing? {
      forall i | 0 <= i < |rows| && DateParses(parse, rows[i][Date])
        ensures rows[i][Price].Missing?
      {
        var k :| 0 <= k < |idx| && idx[k] == i;
        assert prices[k].Missing?;
      }
    }
  }

  /**
   * The default is missing (NaN) exactly when the Price column exists and
   * no surviving row has a Price; without a Price column it is 0.0.
   */
  lemma CompetitorFillMissingIff(raw: Table, parse: DateParser)
    requires WellFormed(raw) && Date in raw.columns
    requires CompetitorFill(raw, parse).Ok?
    ensures Price !in raw.columns ==> CompetitorFill(raw, parse).value == Num(0.0)
    ensures CompetitorFill(raw, parse).value.Missing? <==>
              Price in raw.columns &&
              forall i | 0 <= i < |raw.rows| && DateParses(parse, raw.rows[i][Date]) :: raw.rows[i][Price].Missing?
  {
    if Price in raw.columns {
      CompetitorFillOverSurvivors(raw, parse);
      MeanMissingIff(SurvivorPrices(parse, raw.rows));
      SurvivorPricesMissing(parse, raw.rows);
    }
  }

  // ---------------------------------------------------------------------------
  // The whole cleaning step

  /** Cleaning fails exactly when Date is absent or a surviving Price is not a number. */
  lemma CleanFailsIff(raw: Table, parse: DateParser)
    requires WellFormed(raw)
    ensures Clean(raw, parse).Err? <==>
              Date !in raw.columns ||
              (Price in raw.columns &&
               exists i | 0 <= i < |raw.rows| :: DateParses(parse, raw.rows[i][Date]) && !Numeric(raw.rows[i][Price]))
  {
    if Date in raw.columns {
      CompetitorFillFails(raw, parse);
    }
  }

  /**
   * The cleaned frame holds, in source order, one row for each row whose Date
   * parses and none for the others; each is that row cleaned with one single
   * Competitor Pricing default; and `dropped` counts the other rows.
   */
  lemma CleanKeepsSurvivors(raw: Table, parse: DateParser)
    requires WellFormed(raw) && Clean(raw, parse).Ok?
    ensures Date in raw.columns && CompetitorFill(raw, parse).Ok?
    ensures var cleaned := Clean(raw, parse).value;
            var idx := Survivors(parse, raw.rows);
            && |cleaned.table.rows| == |idx|
            && cleaned.dropped == CountUnparsed(parse, raw.rows)
            && forall k | 0 <= k < |idx| ::
                 cleaned.table.rows[k] == CleanRow(parse, raw.rows[idx[k]], CompetitorFill(raw, parse).value)
  {
    KeptAreSurvivors(parse, raw.rows);
    DroppedAreUnparsed(parse, raw.rows);
  }

  /**
   * After cleaning, Holiday/Promotion (when present) is a boolean in every row,
   * Weather Condition and Discount are never missing, and Competitor Pricing is
   * missing only where it was missing and the default itself is NaN.
   */
  lemma CleanedColumns(raw: Table, parse: DateParser)
    requires WellFormed(raw) && Clean(raw, parse).Ok?
    ensures var t := Clean(raw, parse).value.table;
            forall k | 0 <= k < |t.rows| ::
              && (HolidayPromotion in t.columns ==> t.rows[k][HolidayPromotion].Bool?)
              && (WeatherCondition in t.columns ==> !t.rows[k][WeatherCondition].Missing?)
              && (Discount in t.columns ==> !t.rows[k][Discount].Missing?)
              && ((CompetitorPricing in t.columns && !CompetitorFill(raw, parse).value.Missing?)
                    ==> !t.rows[k][CompetitorPricing].Missing?)
  {
    CleanKeepsSurvivors(raw, parse);
  }
}
