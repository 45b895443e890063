/** The three categorical selections of the prediction form: the values
    each selector offers, the label it hands back, and the column order in
    which the encoder unpacks each one-hot vector. */
module Categories {

  datatype Season = Spring | Summer | Autumn | Winter

  datatype HolidayStatus = Holiday | NoHoliday

  datatype FunctioningDay = Yes | No

  /** The option lists of the three selectors, in the order they are shown. */
  const HolidayOptions: seq<string> := ["No Holiday", "Holiday"]
  const SeasonOptions: seq<string> := ["Spring", "Summer", "Autumn", "Winter"]
  const FunctioningDayOptions: seq<string> := ["Yes", "No"]

  /** The string a selector returns for each choice. */
  function SeasonLabel(s: Season): (l: string)
    ensures l in SeasonOptions
  {
    match s
    case Spring => "Spring"
    case Summer => "Summer"
    case Autumn => "Autumn"
    case Winter => "Winter"
  }

  function HolidayLabel(h: HolidayStatus): (l: string)
    ensures l in HolidayOptions
  {
    match h
    case Holiday => "Holiday"
    case NoHoliday => "No Holiday"
  }

  function FunctioningDayLabel(f: FunctioningDay): (l: string)
    ensures l in FunctioningDayOptions
  {
    match f
    case Yes => "Yes"
    case No => "No"
  }

  /** Every option a selector offers is the label of exactly one choice. */
  lemma SeasonOptionsAreLabels()
    ensures forall l :: l in SeasonOptions <==> exists s :: SeasonLabel(s) == l
    ensures forall s, t :: SeasonLabel(s) == SeasonLabel(t) ==> s == t
  {
    assert SeasonLabel(Spring) == SeasonOptions[0];
    assert SeasonLabel(Summer) == SeasonOptions[1];
    assert SeasonLabel(Autumn) == SeasonOptions[2];
    assert SeasonLabel(Winter) == SeasonOptions[3];
  }

  lemma HolidayOptionsAreLabels()
    ensures forall l :: l in HolidayOptions <==> exists h :: HolidayLabel(h) == l
    ensures forall h, g :: HolidayLabel(h) == HolidayLabel(g) ==> h == g
  {
    assert HolidayLabel(NoHoliday) == HolidayOptions[0];
    assert HolidayLabel(Holiday) == HolidayOptions[1];
  }

  lemma FunctioningDayOptionsAreLabels()
    ensures forall l :: l in FunctioningDayOptions <==> exists f :: FunctioningDayLabel(f) == l
    ensures forall f, g :: FunctioningDayLabel(f) == FunctioningDayLabel(g) ==> f == g
  {
    assert FunctioningDayLabel(Yes) == FunctioningDayOptions[0];
    assert FunctioningDayLabel(No) == FunctioningDayOptions[1];
  }

  /** The order in which each one-hot vector is unpacked into columns:
      Autumn, Spring, Summer, Winter; Holiday, No Holiday; No, Yes. */
  const SeasonOrder: seq<Season> := [Autumn, Spring, Summer, Winter]
  const HolidayOrder: seq<HolidayStatus> := [Holiday, NoHoliday]
  const FunctioningDayOrder: seq<FunctioningDay> := [No, Yes]

  /** The column, within its block, that carries the 1 for a choice. */
  function SeasonColumn(s: Season): (k: nat)
    ensures k < |SeasonOrder| && SeasonOrder[k] == s
  {
    match s
    case Autumn => 0
    case Spring => 1
    case Summer => 2
    case Winter => 3
  }

  function HolidayColumn(h: HolidayStatus): (k: nat)
    ensures k < |HolidayOrder| && HolidayOrder[k] == h
  {
    match h
    case Holiday => 0
    case NoHoliday => 1
  }

  function FunctioningDayColumn(f: FunctioningDay): (k: nat)
    ensures k < |FunctioningDayOrder| && FunctioningDayOrder[k] == f
  {
    match f
    case No => 0
    case Yes => 1
  }
}
