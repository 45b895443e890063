/** What the encoder promises about the row it builds: its shape, where
    each reading lands, the one-hot invariants of the suffix, that the
    selection can be read back, and which inputs the form admits. */
module FeatureProperties {
  import opened Options
  import opened OneHots
  import opened Categories
  import opened Tables
  import opened Features

  /** Decoding the suffix of an encoded row gives back the selection. */
  lemma DecodeEncode(c: Selection)
    ensures DecodeSelection(CategoricalCells(c)) == Some(c)
  {
    var cells := CategoricalCells(c);
    var sv, hv, fv := SeasonVector(c.season), HolidayVector(c.holiday), FunctioningDayVector(c.functioningDay);
    var v := sv + hv + fv;
    AsIntsOfInts(v);
    assert v[..4] == sv && v[4..6] == hv && v[6..] == fv;
    VectorsDecode(c.season, c.holiday, c.functioningDay);
  }

  /** Decoding succeeds exactly on the suffixes the encoder can produce. */
  lemma DecodeSelectionExact(cells: seq<Cell>, c: Selection)
    ensures DecodeSelection(cells) == Some(c) <==> CategoricalCells(c) == cells
  {
    if CategoricalCells(c) == cells {
      DecodeEncode(c);
    }
  }

  /** The one-hot suffix determines the selection: two inputs whose rows
      agree from column 11 on made the same three choices. */
  lemma EncodeInjectiveOnSelection(a: RawInput, b: RawInput)
    requires Encode(a).row[NumericWidth..] == Encode(b).row[NumericWidth..]
    ensures a.selection == b.selection
  {
    assert Encode(a).row[NumericWidth..] == CategoricalCells(a.selection);
    assert Encode(b).row[NumericWidth..] == CategoricalCells(b.selection);
    DecodeEncode(a.selection);
    DecodeEncode(b.selection);
  }

  /** Columns 0-10 are the readings, copied unchanged, in the fitted order:
      hour, temperature, humidity, wind speed, visibility, dew point, solar
      radiation, rainfall, snowfall, month, day. */
  lemma NumericPassthrough(raw: RawInput)
    ensures var row, r := Encode(raw).row, raw.readings;
      && row[0] == Int(r.hour) && row[1] == Float(r.temperature)
      && row[2] == Float(r.humidity) && row[3] == Float(r.windSpeed)
      && row[4] == Float(r.visibility) && row[5] == Float(r.dewPointTemperature)
      && row[6] == Float(r.solarRadiation) && row[7] == Float(r.rainfall)
      && row[8] == Float(r.snowfall) && row[9] == Int(r.month) && row[10] == Int(r.day)
    ensures forall j :: 0 <= j < NumericWidth ==> ReadingNamed(raw.readings, Schema[j]) == Some(Encode(raw).row[j])
  {
    var r := raw.readings;
    var row := Encode(raw).row;
    assert row[..NumericWidth] == NumericCells(r);
    assert ReadingNamed(r, Schema[0]) == Some(row[0]);
    assert ReadingNamed(r, Schema[1]) == Some(row[1]);
    assert ReadingNamed(r, Schema[2]) == Some(row[2]);
    assert ReadingNamed(r, Schema[3]) == Some(row[3]);
    assert ReadingNamed(r, Schema[4]) == Some(row[4]);
    assert ReadingNamed(r, Schema[5]) == Some(row[5]);
    assert ReadingNamed(r, Schema[6]) == Some(row[6]);
    assert ReadingNamed(r, Schema[7]) == Some(row[7]);
    assert ReadingNamed(r, Schema[8]) == Some(row[8]);
    assert ReadingNamed(r, Schema[9]) == Some(row[9]);
    assert ReadingNamed(r, Schema[10]) == Some(row[10]);
  }

  /** Columns 11-18 are the season block, then the holiday pair, then the
      functioning-day pair; each block is one-hot with its 1 at the position
      of the choice in the unpack order. */
  lemma CategoricalBlocks(raw: RawInput)
    ensures var row, c := Encode(raw).row, raw.selection;
      && row[11..15] == Ints(OneHot(4, SeasonColumn(c.season)))
      && row[15..17] == Ints(OneHot(2, HolidayColumn(c.holiday)))
      && row[17..19] == Ints(OneHot(2, FunctioningDayColumn(c.functioningDay)))
    ensures var row := Encode(raw).row;
      && AsInts(row[11..15]).Some? && IsOneHot(AsInts(row[11..15]).value)
      && AsInts(row[15..17]).Some? && IsOneHot(AsInts(row[15..17]).value)
      && AsInts(row[17..19]).Some? && IsOneHot(AsInts(row[17..19]).value)
  {
    var c := raw.selection;
    var row := Encode(raw).row;
    var sv, hv, fv := SeasonVector(c.season), HolidayVector(c.holiday), FunctioningDayVector(c.functioningDay);
    assert row[NumericWidth..] == Ints(sv + hv + fv);
    assert row[11..15] == Ints(sv);
    assert row[15..17] == Ints(hv);
    assert row[17..19] == Ints(fv);
    AsIntsOfInts(sv);
    AsIntsOfInts(hv);
    AsIntsOfInts(fv);
  }

  /** The one-hot columns are named, in order, after the choices they flag. */
  lemma ColumnNamesFollowUnpackOrder()
    ensures forall i :: 0 <= i < 4 ==> Schema[11 + i] == SeasonColumnName(SeasonOrder[i])
    ensures forall i :: 0 <= i < 2 ==> Schema[15 + i] == HolidayColumnName(HolidayOrder[i])
    ensures forall i :: 0 <= i < 2 ==> Schema[17 + i] == FunctioningDayColumnName(FunctioningDayOrder[i])
  {
    assert Schema[11] == SeasonColumnName(SeasonOrder[0]);
    assert Schema[12] == SeasonColumnName(SeasonOrder[1]);
    assert Schema[13] == SeasonColumnName(SeasonOrder[2]);
    assert Schema[14] == SeasonColumnName(SeasonOrder[3]);
    assert Schema[15] == HolidayColumnName(HolidayOrder[0]);
    assert Schema[16] == HolidayColumnName(HolidayOrder[1]);
    assert Schema[17] == FunctioningDayColumnName(FunctioningDayOrder[0]);
    assert Schema[18] == FunctioningDayColumnName(FunctioningDayOrder[1]);
  }

  /** The 19 column names are pairwise distinct. */
  lemma SchemaDistinct()
    ensures forall j, k :: 0 <= j < k < Width ==> Schema[j] != Schema[k]
  {
  }

  /** The suffix is 0/1, with a 1 exactly at the three columns the
      selection picks: one per block. */
  lemma HotPositions(raw: RawInput)
    ensures var row, c := Encode(raw).row, raw.selection;
      forall j :: NumericWidth <= j < Width ==>
        && (row[j] == Int(0) || row[j] == Int(1))
        && (row[j] == Int(1) <==>
              j == 11 + SeasonColumn(c.season) || j == 15 + HolidayColumn(c.holiday)
              || j == 17 + FunctioningDayColumn(c.functioningDay))
  {
    var c := raw.selection;
    var row := Encode(raw).row;
    CategoricalBlocks(raw);
    forall j | NumericWidth <= j < Width
      ensures (row[j] == Int(0) || row[j] == Int(1))
      ensures row[j] == Int(1) <==>
              j == 11 + SeasonColumn(c.season) || j == 15 + HolidayColumn(c.holiday)
              || j == 17 + FunctioningDayColumn(c.functioningDay)
    {
      if j < 15 {
        assert row[j] == row[11..15][j - 11];
      } else if j < 17 {
        assert row[j] == row[15..17][j - 15];
      } else {
        assert row[j] == row[17..19][j - 17];
      }
    }
  }

  /** A suffix column holds 1 exactly when its name is the block prefix
      followed by the label the user selected, and 0 otherwise. */
  lemma OnesAreNamedAfterSelection(raw: RawInput)
    ensures var row, c := Encode(raw).row, raw.selection;
      forall j :: NumericWidth <= j < Width ==>
        && (row[j] == Int(0) || row[j] == Int(1))
        && (row[j] == Int(1) <==>
              Schema[j] in {SeasonColumnName(c.season), HolidayColumnName(c.holiday),
                            FunctioningDayColumnName(c.functioningDay)})
  {
    var c := raw.selection;
    var row := Encode(raw).row;
    HotPositions(raw);
    ColumnNamesFollowUnpackOrder();
    SchemaDistinct();
    var js, jh, jf := 11 + SeasonColumn(c.season), 15 + HolidayColumn(c.holiday), 17 + FunctioningDayColumn(c.functioningDay);
    assert Schema[js] == SeasonColumnName(c.season);
    assert Schema[jh] == HolidayColumnName(c.holiday);
    assert Schema[jf] == FunctioningDayColumnName(c.functioningDay);
  }

  /** The prefix depends only on the readings and the suffix only on the
      selection. */
  lemma BlocksIndependent(a: RawInput, b: RawInput)
    ensures a.readings == b.readings <==> Encode(a).row[..NumericWidth] == Encode(b).row[..NumericWidth]
    ensures a.selection == b.selection <==> Encode(a).row[NumericWidth..] == Encode(b).row[NumericWidth..]
  {
    var pa, pb := Encode(a).row[..NumericWidth], Encode(b).row[..NumericWidth];
    assert pa == NumericCells(a.readings) && pb == NumericCells(b.readings);
    if pa == pb {
      assert pa[0] == pb[0] && pa[1] == pb[1] && pa[2] == pb[2] && pa[3] == pb[3];
      assert pa[4] == pb[4] && pa[5] == pb[5] && pa[6] == pb[6] && pa[7] == pb[7];
      assert pa[8] == pb[8] && pa[9] == pb[9] && pa[10] == pb[10];
    }
    if Encode(a).row[NumericWidth..] == Encode(b).row[NumericWidth..] {
      EncodeInjectiveOnSelection(a, b);
    }
  }

  /** The ranges the form's numeric widgets enforce before encoding. */
  predicate InWidgetRanges(r: Readings)
  {
    && 1 <= r.month <= 12
    && 1 <= r.day <= 31
    && 0 <= r.hour <= 23
    && r.visibility >= 0.0
  }

  /** Within the widget ranges the integer columns stay in their ranges and
      visibility is non-negative. */
  lemma RowWithinWidgetRanges(raw: RawInput)
    requires InWidgetRanges(raw.readings)
    ensures var row := Encode(raw).row;
      && row[0].Int? && 0 <= row[0].n <= 23
      && row[4].Float? && row[4].x >= 0.0
      && row[9].Int? && 1 <= row[9].n <= 12
      && row[10].Int? && 1 <= row[10].n <= 31
  {
    NumericPassthrough(raw);
  }

  /** Day and month are not checked against each other: 30 February is
      admitted and encoded as given. */
  lemma NoCalendarCheck(r: Readings, c: Selection)
    requires r.month == 2 && r.day == 30 && 0 <= r.hour <= 23 && r.visibility >= 0.0
    ensures InWidgetRanges(r)
    ensures Encode(RawInput(r, c)).row[9] == Int(2) && Encode(RawInput(r, c)).row[10] == Int(30)
  {
    NumericPassthrough(RawInput(r, c));
  }

  /** A summer working day that is not a holiday. */
  lemma SummerWorkingDayExample()
    ensures var raw := RawInput(
              Readings(6, 15, 14, 25.0, 60.0, 2000.0, 2.5, 15.0, 1.2, 0.0, 0.0),
              Selection(NoHoliday, Summer, Yes));
      Encode(raw).row[NumericWidth..] == Ints([0, 0, 1, 0, 0, 1, 0, 1])
  {
    var raw := RawInput(
      Readings(6, 15, 14, 25.0, 60.0, 2000.0, 2.5, 15.0, 1.2, 0.0, 0.0),
      Selection(NoHoliday, Summer, Yes));
    TableEntries();
    assert Encode(raw).row[NumericWidth..] == Ints(SeasonVector(Summer) + HolidayVector(NoHoliday) + FunctioningDayVector(Yes));
    assert SeasonVector(Summer) + HolidayVector(NoHoliday) + FunctioningDayVector(Yes) == [0, 0, 1, 0, 0, 1, 0, 1];
  }
}
