/** The feature encoder: the single 19-column row handed to the fitted
    scaler and the regression model. Eleven readings are copied through in
    a fixed column order, then the three one-hot blocks follow. */
module Features {
  import opened Options
  import opened OneHots
  import opened Categories
  import opened Tables

  /** A cell of the row, keeping the column's kind: the integer inputs and
      the one-hot flags are integers, the other readings are decimals. */
  datatype Cell = Int(n: int) | Float(x: real)

  /** The numeric inputs of the form, in the order the form shows them. */
  datatype Readings = Readings(
    month: int,
    day: int,
    hour: int,
    temperature: real,
    humidity: real,
    visibility: real,
    windSpeed: real,
    dewPointTemperature: real,
    solarRadiation: real,
    rainfall: real,
    snowfall: real)

  /** The three categorical selections of the form. */
  datatype Selection = Selection(holiday: HolidayStatus, season: Season, functioningDay: FunctioningDay)

  datatype RawInput = RawInput(readings: Readings, selection: Selection)

  /** A one-row table: column names and the matching cells. */
  datatype Frame = Frame(columns: seq<string>, row: seq<Cell>)

  const NumericWidth: nat := 11
  const Width: nat := 19

  /** The column names, in the order the model was fitted on. */
  const Schema: seq<string> := [
    "Hour", "Temperature(°C)", "Humidity(%)", "Wind speed (m/s)",
    "Visibility (10m)", "Dew point temperature(°C)", "Solar Radiation (MJ/m2)",
    "Rainfall(mm)", "Snowfall (cm)", "Month", "Day",
    "Seasons_Autumn", "Seasons_Spring", "Seasons_Summer", "Seasons_Winter",
    "Holiday_Holiday", "Holiday_No Holiday",
    "Functioning Day_No", "Functioning Day_Yes"]

  /** The input reading a numeric column is named after; `None` for a
      name that is not a numeric column. */
  function ReadingNamed(r: Readings, name: string): Option<Cell>
  {
    match name
    case "Hour" => Some(Int(r.hour))
    case "Temperature(°C)" => Some(Float(r.temperature))
    case "Humidity(%)" => Some(Float(r.humidity))
    case "Wind speed (m/s)" => Some(Float(r.windSpeed))
    case "Visibility (10m)" => Some(Float(r.visibility))
    case "Dew point temperature(°C)" => Some(Float(r.dewPointTemperature))
    case "Solar Radiation (MJ/m2)" => Some(Float(r.solarRadiation))
    case "Rainfall(mm)" => Some(Float(r.rainfall))
    case "Snowfall (cm)" => Some(Float(r.snowfall))
    case "Month" => Some(Int(r.month))
    case "Day" => Some(Int(r.day))
    case _ => None
  }

  /** The name of the one-hot column that is 1 for each selection: the
      block prefix followed by the selector's label. */
  function SeasonColumnName(s: Season): string { "Seasons_" + SeasonLabel(s) }
  function HolidayColumnName(h: HolidayStatus): string { "Holiday_" + HolidayLabel(h) }
  function FunctioningDayColumnName(f: FunctioningDay): string { "Functioning Day_" + FunctioningDayLabel(f) }

  function Ints(v: seq<int>): (cells: seq<Cell>)
    ensures |cells| == |v|
    ensures forall i :: 0 <= i < |v| ==> cells[i] == Int(v[i])
  {
    seq(|v|, i requires 0 <= i < |v| => Int(v[i]))
  }

  /** The numeric prefix of the row. Wind speed comes before visibility,
      which is not the order the form shows them in. */
  function NumericCells(r: Readings): (cells: seq<Cell>)
    ensures |cells| == NumericWidth
    ensures forall j :: 0 <= j < NumericWidth ==> ReadingNamed(r, Schema[j]) == Some(cells[j])
  {
    [Int(r.hour), Float(r.temperature), Float(r.humidity), Float(r.windSpeed),
     Float(r.visibility), Float(r.dewPointTemperature), Float(r.solarRadiation),
     Float(r.rainfall), Float(r.snowfall), Int(r.month), Int(r.day)]
  }

  /** The one-hot suffix of the row: season block, holiday block,
      functioning-day block, each looked up in its table. */
  function CategoricalCells(c: Selection): (cells: seq<Cell>)
    ensures |cells| == Width - NumericWidth
    ensures cells == Ints(OneHot(4, SeasonColumn(c.season)) + OneHot(2, HolidayColumn(c.holiday))
                          + OneHot(2, FunctioningDayColumn(c.functioningDay)))
  {
    Ints(SeasonVector(c.season) + HolidayVector(c.holiday) + FunctioningDayVector(c.functioningDay))
  }

  /** Builds the one-row frame for the model. Total: every input encodes. */
  function Encode(raw: RawInput): (f: Frame)
    ensures f.columns == Schema
    ensures |f.row| == |Schema| == Width
  {
    Frame(Schema, NumericCells(raw.readings) + CategoricalCells(raw.selection))
  }

  /** Reads a block of cells back as integers; fails on a decimal cell. */
  function AsInts(cells: seq<Cell>): (r: Option<seq<int>>)
    ensures r.Some? <==> forall i :: 0 <= i < |cells| ==> cells[i].Int?
    ensures r.Some? ==> Ints(r.value) == cells
  {
    if forall i :: 0 <= i < |cells| ==> cells[i].Int? then
      Some(seq(|cells|, i requires 0 <= i < |cells| => cells[i].n))
    else
      None
  }

  /** Recovers the selection from a one-hot suffix: in each block, the
      choice whose unpack position holds the single 1. Fails on anything
      that is not three well-formed one-hot blocks of widths 4, 2, 2. */
  function DecodeSelection(cells: seq<Cell>): (r: Option<Selection>)
    ensures r.Some? ==> CategoricalCells(r.value) == cells
  {
    if |cells| != Width - NumericWidth then None
    else
      var v :- AsInts(cells);
      var seasons, holidays, functioning := v[..4], v[4..6], v[6..];
      if IsOneHot(seasons) && IsOneHot(holidays) && IsOneHot(functioning) then
        var s := SeasonOrder[HotIndex(seasons)];
        var h := HolidayOrder[HotIndex(holidays)];
        var f := FunctioningDayOrder[HotIndex(functioning)];
        assert SeasonColumn(s) == HotIndex(seasons);
        assert HolidayColumn(h) == HotIndex(holidays);
        assert FunctioningDayColumn(f) == HotIndex(functioning);
        assert v == seasons + holidays + functioning;
        Some(Selection(h, s, f))
      else
        None
  }

  /** Reading integer cells back gives the integers they were made from. */
  lemma AsIntsOfInts(v: seq<int>)
    ensures AsInts(Ints(v)) == Some(v)
  {
    assert AsInts(Ints(v)).value == v;
  }
}
