# Bike-rental demand form: feature encoder

This project models the feature encoder of a single-page form that estimates bike-rental demand. The form collects eleven numeric readings and three categorical selections:

- season: Spring, Summer, Autumn or Winter
- holiday status: Holiday or No Holiday
- functioning day: Yes or No

The encoder turns these inputs into one 19-column row. A fitted scaler and a gradient-boosted regression model expect exactly that row.

- The readings are copied through in a fixed column order. Hour, temperature, humidity, **wind speed, visibility**, dew point, solar radiation, rainfall, snowfall, month and day. The form itself shows visibility before wind speed.
- Each selection is looked up by its label in a label-to-vector table (`Tables.SeasonTable`, `HolidayTable`, `FunctioningDayTable`). The vector is then unpacked into its one-hot columns:
  - `Seasons_Autumn`, `Seasons_Spring`, `Seasons_Summer`, `Seasons_Winter`
  - `Holiday_Holiday`, `Holiday_No Holiday`
  - `Functioning Day_No`, `Functioning Day_Yes`

Modules:

- `OneHots` (onehot.dfy) defines the reference vector `OneHot(n, k)` and the "0/1 entries summing to exactly 1" predicate, and proves that the two agree. It also defines `HotIndex`, which recovers the position of the single 1.
- `Categories` (categories.dfy) holds:
  - the three choice datatypes;
  - the selectors' option lists and the label each choice returns;
  - the unpack order of each block (`SeasonOrder` = Autumn, Spring, Summer, Winter; and so on).
- `Tables` (tables.dfy) holds the three literal tables and the dictionary lookup, which returns `None` for a missing key. It proves that every table entry is the one-hot vector for its column in the unpack order.
- `Features` (features.dfy) holds:
  - the row cells (`Int` for hour, month, day and the flags; `Float` for the other readings);
  - the column names `Schema`;
  - `Encode`, which builds the one-row frame;
  - `DecodeSelection`, the inverse of the one-hot suffix.
- `FeatureProperties` (properties.dfy) holds the lemmas about the encoded row, the ranges the input widgets enforce, and two worked examples.

The visibility widget has a lower bound of 0 (app.py:128); the other decimal readings have no bounds, and `InWidgetRanges` includes `visibility >= 0.0`.

## Model

| member | source | states |
|---|---|---|
| OneHots.OneHotCharacterization | app.py:142-145 | A vector is 0/1 with entries summing to 1 exactly when it is the reference one-hot vector for some position, in both directions |
| OneHots.OneHotIsOneHot | app.py:142-145 | The reference one-hot vector of any width and position has 0/1 entries that sum to exactly 1 |
| OneHots.HotIndex | app.py:148-150 | For a one-hot vector, returns the position of its single 1, and the vector is the reference one-hot vector at that position |
| OneHots.HotIndexOfOneHot | app.py:148-150 | Decoding the reference vector built at position k gives back k |
| Categories.SeasonLabel | app.py:138 | The label of every season is one of the season selector's options |
| Categories.HolidayLabel | app.py:137 | The label of every holiday status is one of the holiday selector's options |
| Categories.FunctioningDayLabel | app.py:139 | The label of every functioning-day value is one of that selector's options |
| Categories.SeasonOptionsAreLabels | app.py:138 | A string is a season option exactly when it is the label of some season, and distinct seasons have distinct labels |
| Categories.HolidayOptionsAreLabels | app.py:137 | A string is a holiday option exactly when it is the label of some holiday status, and the labels are distinct |
| Categories.FunctioningDayOptionsAreLabels | app.py:139 | A string is a functioning-day option exactly when it is the label of some value, and the labels are distinct |
| Categories.SeasonColumn | app.py:148 | The column a season flags is the season's position in the unpack order Autumn, Spring, Summer, Winter |
| Categories.HolidayColumn | app.py:149 | The column a holiday status flags is its position in the unpack order Holiday, No Holiday |
| Categories.FunctioningDayColumn | app.py:150 | The column a functioning-day value flags is its position in the unpack order No, Yes |
| Tables.Lookup | app.py:148-150 | Subscripting a table fails exactly when the key is missing, and otherwise returns the vector stored under that key |
| Tables.LookupTotal | app.py:137-145 | The lookup in each table succeeds exactly for the strings its selector offers: the key sets equal the option lists, so no selectable input fails |
| Tables.SeasonVector | app.py:142-148 | The season table's entry for a season's label is the 4-wide one-hot vector with its 1 where the unpack order puts that season, and its entries sum to 1 |
| Tables.HolidayVector | app.py:144-149 | The holiday table's entry for a status's label is the 2-wide one-hot vector with its 1 where the unpack order puts that status |
| Tables.FunctioningDayVector | app.py:145-150 | The functioning-day table's entry for a value's label is the 2-wide one-hot vector with its 1 where the unpack order puts that value |
| Tables.TableEntries | app.py:142-145 | The concrete entries: Autumn [1,0,0,0], Spring [0,1,0,0], Summer [0,0,1,0], Winter [0,0,0,1]; Holiday [1,0], No Holiday [0,1]; No [1,0], Yes [0,1] |
| Tables.VectorsDecode | app.py:142-150 | The choice at the position of the single 1 in each block, read in unpack order, is the choice that was looked up |
| Features.NumericCells | app.py:153-164 | The prefix has 11 cells, and each cell is the input reading its column is named after |
| Features.CategoricalCells | app.py:148-172 | The eight one-hot cells are the season block, then the holiday pair, then the functioning-day pair, each the integer one-hot vector with its 1 at the choice's position in the unpack order |
| Features.Encode | app.py:153-173 | The frame's columns are exactly the 19 fitted column names, and the row has one cell per column |
| Features.DecodeSelection | app.py:148-150 | Any selection decoded from a suffix re-encodes to exactly that suffix |
| FeatureProperties.DecodeEncode | app.py:142-172 | Decoding the one-hot suffix of any encoded row gives back the selection |
| FeatureProperties.DecodeSelectionExact | app.py:142-172 | Decoding yields a selection exactly when the cells are that selection's encoding, in both directions |
| FeatureProperties.EncodeInjectiveOnSelection | app.py:165-172 | Two inputs whose rows agree on columns 11-18 made the same three selections |
| FeatureProperties.NumericPassthrough | app.py:153-164 | Columns 0-10 are hour, temperature, humidity, wind speed, visibility, dew point, solar radiation, rainfall, snowfall, month and day. Each is copied unchanged and matches the reading its column is named after |
| FeatureProperties.CategoricalBlocks | app.py:165-172 | Columns 11-14, 15-16 and 17-18 are the season, holiday and functioning-day one-hot blocks, in that order. Each block is integer-valued with entries summing to 1 |
| FeatureProperties.ColumnNamesFollowUnpackOrder | app.py:148-172 | The one-hot column at each position is named with the block prefix and the label of the choice unpacked into that position |
| FeatureProperties.SchemaDistinct | app.py:153-173 | The 19 column names are pairwise distinct |
| FeatureProperties.HotPositions | app.py:165-172 | Every suffix cell is 0 or 1, and it is 1 exactly at the three positions of the selected season, holiday status and functioning day |
| FeatureProperties.OnesAreNamedAfterSelection | app.py:142-172 | A suffix cell is 1 exactly when its column name is the block prefix followed by the label the user selected, and 0 otherwise |
| FeatureProperties.BlocksIndependent | app.py:153-172 | Two inputs' prefixes agree exactly when their readings agree, and their suffixes agree exactly when their selections agree |
| FeatureProperties.InWidgetRanges | app.py:123-128 | The bounds the form's widgets enforce: month 1..12, day 1..31, hour 0..23, visibility at least 0; no other reading is bounded |
| FeatureProperties.RowWithinWidgetRanges | app.py:123-128 | Under the widget ranges, the hour cell is an integer in 0..23, month in 1..12 and day in 1..31, and the visibility cell is non-negative |
| FeatureProperties.NoCalendarCheck | app.py:123-128 | Every input with month 2 and day 30 whose hour and visibility are in range is within the widget ranges and is encoded unchanged; there is no check of day against month |
| FeatureProperties.SummerWorkingDayExample | app.py:142-172 | A summer working day that is not a holiday encodes its suffix as 0,0,1,0, 0,1, 0,1 |

## Left out

- The form widgets, sidebar text and images, and the predict button (app.py:42-55, 98-139, 182-187) are presentation only. The widget ranges are modelled as the predicate `InWidgetRanges` on the readings, not as a widget that refuses entries.
- Loading the pickled model and scaler, and caching them (app.py:14-39), is file I/O on opaque serialized objects.
- The scaler transform and the model's prediction (app.py:176-187) are calls into foreign numeric libraries whose code is not part of this model.
- The live weather fetch (app.py:58-89) is an HTTP client whose result is only displayed and never reaches the row. Its unit conversions and dew-point approximation are left out with it.
- Reading the API key from the environment, and the debug print of the frame (app.py:11, 95, 180), are not modelled.
- Decimal readings are modelled as exact `real` values, not as 64-bit floating point. The encoder only copies them, so no rounding occurs in the modelled part.
- The frame is modelled as a list of column names and one row of cells. Other properties of the table object the row is held in, such as its index and dtypes beyond integer versus decimal, are not modelled.
