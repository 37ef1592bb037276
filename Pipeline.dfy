/**
 * Facts that connect the two stages: what the writer sends for rows the
 * cleaner produced, and worked examples of both stages.
 */
module Pipeline {
  import opened Wrappers
  import opened Table
  import opened Cleaning
  import opened Encoding
  import opened Batching

  /**
   * For a cleaned row, the Date sent is the parsed instant and the
   * Holiday/Promotion flag sent is 1 exactly when the stored value was truthy.
   */
  lemma CleanedRowEncoding(raw: Table, parse: DateParser, k: nat)
    requires WellFormed(raw) && Clean(raw, parse).Ok?
    requires k < |Clean(raw, parse).value.table.rows|
    requires EncodeRow(Clean(raw, parse).value.table.rows[k]).Ok?
    ensures Date in raw.columns && HolidayPromotion in raw.columns
    ensures k < |Survivors(parse, raw.rows)|
    ensures var source := raw.rows[Survivors(parse, raw.rows)[k]];
            var sent := EncodeRow(Clean(raw, parse).value.table.rows[k]).value;
            && sent[0] == Raw(Stamp(parse(source[Date]).value))
            && sent[12] == Int(if Truthy(source[HolidayPromotion]) then 1 else 0)
  {
    CleanKeepsSurvivors(raw, parse);
    var row := Clean(raw, parse).value.table.rows[k];
    EncodeRowShape(row);
    assert Bindings[12].source == HolidayPromotion;
    assert row.Keys == raw.columns;
    HolidayEncodesAsBit(row);
  }

  /**
   * Three rows, the first with the invalid date "2024-13-40" and the second
   * without a Discount: two rows remain, the invalid one is gone, the missing
   * Discount becomes 0.0, and with the default batch size they form one
   * batch, so a single insert statement is issued. Both rows are cleaned with
   * the one Competitor Pricing default `d`.
   */
  lemma ThreeRowScenario(raw: Table, parse: DateParser)
    requires WellFormed(raw) && Date in raw.columns && Discount in raw.columns
    requires |raw.rows| == 3
    requires raw.rows[0][Date] == Text("2024-13-40") && parse(Text("2024-13-40")).None?
    requires raw.rows[1][Date] == Text("2024-01-02") && parse(Text("2024-01-02")).Some?
    requires raw.rows[2][Date] == Text("2024-01-03") && parse(Text("2024-01-03")).Some?
    requires raw.rows[1][Discount] == Missing && raw.rows[2][Discount] == Num(0.2)
    requires Price in raw.columns ==> Numeric(raw.rows[1][Price]) && Numeric(raw.rows[2][Price])
    ensures Clean(raw, parse).Ok?
    ensures var cleaned := Clean(raw, parse).value;
            var d := CompetitorFill(raw, parse).value;
            && cleaned.dropped == 1
            && cleaned.table.rows == [CleanRow(parse, raw.rows[1], d), CleanRow(parse, raw.rows[2], d)]
            && cleaned.table.rows[0][Date] == Stamp(parse(Text("2024-01-02")).value)
            && cleaned.table.rows[0][Discount] == Num(0.0)
            && cleaned.table.rows[1][Discount] == Num(0.2)
            && Batches(cleaned.table.rows, 5000) == [cleaned.table.rows]
  {
    ThreeRowsCleaned(raw, parse);
    var d := CompetitorFill(raw, parse).value;
    var first, second := CleanRow(parse, raw.rows[1], d), CleanRow(parse, raw.rows[2], d);
    assert Filled(Discount);
    assert first[Discount] == Num(0.0) && second[Discount] == Num(0.2);
    assert Batches([first, second], 5000) == [[first, second]];
  }

  /**
   * The cleaning half of the three-row example: with the first date
   * unparsable, the other two valid, and their Prices (if any) numeric,
   * cleaning succeeds, drops one row and keeps the last two in order.
   */
  lemma ThreeRowsCleaned(raw: Table, parse: DateParser)
    requires WellFormed(raw) && Date in raw.columns && |raw.rows| == 3
    requires !DateParses(parse, raw.rows[0][Date])
    requires DateParses(parse, raw.rows[1][Date]) && DateParses(parse, raw.rows[2][Date])
    requires Price in raw.columns ==> Numeric(raw.rows[1][Price]) && Numeric(raw.rows[2][Price])
    ensures Clean(raw, parse).Ok? && CompetitorFill(raw, parse).Ok?
    ensures Clean(raw, parse).value.dropped == 1
    ensures var d := CompetitorFill(raw, parse).value;
            Clean(raw, parse).value.table.rows ==
              [CleanRow(parse, raw.rows[1], d), CleanRow(parse, raw.rows[2], d)]
  {
    ThreeSurvivors(parse, raw.rows);
    assert Survivors(parse, raw.rows) == [1, 2];
    assert Clean(raw, parse).Ok? by {
      CleanFailsIff(raw, parse);
      if Price in raw.columns {
        forall i | 0 <= i < |raw.rows| && DateParses(parse, raw.rows[i][Date])
          ensures Numeric(raw.rows[i][Price])
        {
          assert i == 1 || i == 2;
        }
      }
    }
    CleanKeepsSurvivors(raw, parse);
    var d := CompetitorFill(raw, parse).value;
    var rows := Clean(raw, parse).value.table.rows;
    var first, second := CleanRow(parse, raw.rows[1], d), CleanRow(parse, raw.rows[2], d);
    assert |rows| == 2 && rows[0] == first && rows[1] == second;
    assert rows == [first, second];
  }

  /** The survivors among three rows, from which of their dates parse. */
  lemma ThreeSurvivors(parse: DateParser, rows: seq<Row>)
    requires HasColumn(rows, Date) && |rows| == 3
    ensures Survivors(parse, rows) ==
              (if DateParses(parse, rows[0][Date]) then [0] else []) +
              (if DateParses(parse, rows[1][Date]) then [1] else []) +
              (if DateParses(parse, rows[2][Date]) then [2] else [])
  {
    var one, two := rows[..1], rows[..2];
    var p0, p1, p2 := DateParses(parse, rows[0][Date]), DateParses(parse, rows[1][Date]), DateParses(parse, rows[2][Date]);
    assert two[..1] == one && one[..0] == [];
    assert one[0] == rows[0] && two[1] == rows[1];
    SurvivorsStep(parse, one);
    assert Survivors(parse, one) == (if p0 then [0] else []);
    SurvivorsStep(parse, two);
    assert Survivors(parse, two) == Survivors(parse, one) + (if p1 then [1] else []);
    SurvivorsStep(parse, rows);
  }

  /** The mean of 10, 20 and 30 is 20. */
  lemma MeanOfTenTwentyThirty()
    ensures Mean([Num(10.0), Num(20.0), Num(30.0)]) == Ok(Num(20.0))
  {
    var vs := [Num(10.0), Num(20.0), Num(30.0)];
    assert vs[1..] == [Num(20.0), Num(30.0)] && vs[1..][1..] == [Num(30.0)] && vs[1..][1..][1..] == [];
    assert PresentCount(vs) == 3 && PresentSum(vs) == 60.0;
  }

  /**
   * Prices 10, 20 and 30, all dates valid, and the second row without
   * Competitor Pricing: the missing value is filled with the mean, 20.0.
   */
  lemma CompetitorMeanScenario(raw: Table, parse: DateParser)
    requires WellFormed(raw) && Date in raw.columns && Price in raw.columns && CompetitorPricing in raw.columns
    requires |raw.rows| == 3
    requires forall i | 0 <= i < 3 :: DateParses(parse, raw.rows[i][Date])
    requires raw.rows[0][Price] == Num(10.0) && raw.rows[1][Price] == Num(20.0) && raw.rows[2][Price] == Num(30.0)
    requires raw.rows[1][CompetitorPricing] == Missing
    ensures Clean(raw, parse).Ok?
    ensures |Clean(raw, parse).value.table.rows| == 3
    ensures Clean(raw, parse).value.table.rows[1][CompetitorPricing] == Num(20.0)
  {
    var rows := raw.rows;
    ThreeSurvivors(parse, rows);
    CompetitorFillOverSurvivors(raw, parse);
    var prices := SurvivorPrices(parse, rows);
    assert |prices| == 3 && prices[0] == Num(10.0) && prices[1] == Num(20.0) && prices[2] == Num(30.0);
    assert prices == [Num(10.0), Num(20.0), Num(30.0)];
    MeanOfTenTwentyThirty();
    assert CompetitorFill(raw, parse) == Ok(Num(20.0));
    CleanKeepsSurvivors(raw, parse);
    assert Filled(CompetitorPricing);
  }

  /**
   * When every surviving Price is missing, `mean` is NaN and a missing
   * Competitor Pricing stays missing after the fill.
   */
  lemma CompetitorStaysMissing(raw: Table, parse: DateParser)
    requires WellFormed(raw) && Date in raw.columns && Price in raw.columns && CompetitorPricing in raw.columns
    requires |raw.rows| == 1
    requires DateParses(parse, raw.rows[0][Date])
    requires raw.rows[0][Price] == Missing && raw.rows[0][CompetitorPricing] == Missing
    ensures Clean(raw, parse).Ok?
    ensures Clean(raw, parse).value.table.rows[0][CompetitorPricing] == Missing
  {
    assert raw.rows[..0] == [];
    assert Survivors(parse, raw.rows) == [0];
    CompetitorFillOverSurvivors(raw, parse);
    assert SurvivorPrices(parse, raw.rows) == [Missing];
    assert PresentCount([Missing]) == 0 by { assert [Missing][1..] == []; }
    assert CompetitorFill(raw, parse) == Ok(Missing);
    CleanKeepsSurvivors(raw, parse);
    assert Filled(CompetitorPricing);
  }

  /** Twelve rows in batches of five: three statements of 5, 5 and 2 rows. */
  lemma TwelveRowsInFives<T>(s: seq<T>)
    requires |s| == 12
    ensures |Batches(s, 5)| == 3
    ensures |Batches(s, 5)[0]| == 5 && |Batches(s, 5)[1]| == 5 && |Batches(s, 5)[2]| == 2
  {
    BatchesCount(s, 5);
    LastBatchSize(s, 5);
  }
}
