/** The three label-keyed one-hot tables of the encoder and the lookup
    that unpacks a selection into its block of 0/1 columns. */
module Tables {
  import opened Options
  import opened OneHots
  import opened Categories

  /** The tables as written: selector label to 0/1 vector. */
  const SeasonTable: map<string, seq<int>> :=
    map["Spring" := [0, 1, 0, 0], "Summer" := [0, 0, 1, 0],
        "Autumn" := [1, 0, 0, 0], "Winter" := [0, 0, 0, 1]]
  const HolidayTable: map<string, seq<int>> :=
    map["Holiday" := [1, 0], "No Holiday" := [0, 1]]
  const FunctioningDayTable: map<string, seq<int>> :=
    map["Yes" := [0, 1], "No" := [1, 0]]

  /** Dictionary subscription: a missing key is an error (`None`). */
  function Lookup(table: map<string, seq<int>>, key: string): (r: Option<seq<int>>)
    ensures r.None? <==> key !in table
    ensures r.Some? ==> key in table && table[key] == r.value
  {
    if key in table then Some(table[key]) else None
  }

  /** Lookup never fails on a label a selector can return, and fails on
      every other string: the key sets are exactly the option lists. */
  lemma LookupTotal(season: string, holiday: string, functioningDay: string)
    ensures Lookup(SeasonTable, season).Some? <==> season in SeasonOptions
    ensures Lookup(HolidayTable, holiday).Some? <==> holiday in HolidayOptions
    ensures Lookup(FunctioningDayTable, functioningDay).Some? <==> functioningDay in FunctioningDayOptions
  {
  }

  /** The season block of a selection: one-hot with its 1 in the column
      the unpack order gives that season. */
  function SeasonVector(s: Season): (v: seq<int>)
    ensures v == OneHot(4, SeasonColumn(s))
    ensures IsOneHot(v)
  {
    OneHotIsOneHot(4, SeasonColumn(s));
    var v := SeasonTable[SeasonLabel(s)];
    assert v == OneHot(4, SeasonColumn(s)) by {
      assert forall i :: 0 <= i < 4 ==> v[i] == OneHot(4, SeasonColumn(s))[i];
    }
    v
  }

  function HolidayVector(h: HolidayStatus): (v: seq<int>)
    ensures v == OneHot(2, HolidayColumn(h))
    ensures IsOneHot(v)
  {
    OneHotIsOneHot(2, HolidayColumn(h));
    var v := HolidayTable[HolidayLabel(h)];
    assert v == OneHot(2, HolidayColumn(h)) by {
      assert forall i :: 0 <= i < 2 ==> v[i] == OneHot(2, HolidayColumn(h))[i];
    }
    v
  }

  function FunctioningDayVector(f: FunctioningDay): (v: seq<int>)
    ensures v == OneHot(2, FunctioningDayColumn(f))
    ensures IsOneHot(v)
  {
    OneHotIsOneHot(2, FunctioningDayColumn(f));
    var v := FunctioningDayTable[FunctioningDayLabel(f)];
    assert v == OneHot(2, FunctioningDayColumn(f)) by {
      assert forall i :: 0 <= i < 2 ==> v[i] == OneHot(2, FunctioningDayColumn(f))[i];
    }
    v
  }

  /** The concrete rows of the tables, entry by entry. */
  lemma TableEntries()
    ensures SeasonVector(Autumn) == [1, 0, 0, 0] && SeasonVector(Spring) == [0, 1, 0, 0]
    ensures SeasonVector(Summer) == [0, 0, 1, 0] && SeasonVector(Winter) == [0, 0, 0, 1]
    ensures HolidayVector(Holiday) == [1, 0] && HolidayVector(NoHoliday) == [0, 1]
    ensures FunctioningDayVector(No) == [1, 0] && FunctioningDayVector(Yes) == [0, 1]
  {
  }

  /** Each block can be decoded back to the selection that produced it. */
  lemma VectorsDecode(s: Season, h: HolidayStatus, f: FunctioningDay)
    ensures SeasonOrder[HotIndex(SeasonVector(s))] == s
    ensures HolidayOrder[HotIndex(HolidayVector(h))] == h
    ensures FunctioningDayOrder[HotIndex(FunctioningDayVector(f))] == f
  {
    HotIndexOfOneHot(4, SeasonColumn(s));
    HotIndexOfOneHot(2, HolidayColumn(h));
    HotIndexOfOneHot(2, FunctioningDayColumn(f));
  }
}
