# NIRv-Vegetation-S2-FLEX: a verified model of the calibration/validation core

The repository is a calibration and validation pipeline for FLEX fluorescence images. FLEX is the ESA fluorescence mission; its images are `.nc` files. The pipeline checks each FLEX image against Sentinel-2 (S2) scenes and FLOX ground measurements. For each site in `Sites.csv` it does the following:

- It collects the FLEX images whose names follow `PRS_TD_<date>_<time>.nc`.
- It picks the S2 product nearest in time.
- It builds a square region of interest (ROI) around the site. The ROI's edges fall on 10 m pixel edges.
- It judges the scene clear or cloudy from the three quality-mask layers.
- It flags the region as homogeneous when the coefficient of variation (CV) of NIRv is at most a threshold.
- It writes one row per item into parallel report columns.

A SIF module reads averaged fluorescence values into a 13-field record and compares FLEX with FLOX using R², RMSE, mean residual and random uncertainty.

The repository carries three generations of this code:

| generation | driver | classes |
|---|---|---|
| current | `Main.py` | `class_calval.py`, `class_SIF_calculation.py` |
| improved | `main_improve.py` | `class_improve.py` |
| archived | `Archived/Main.py` | `Class.py` |

The model keeps each generation's own behaviour, defects included. The Dafny modules are listed below.

- **Values, Text, Calendar, Strptime, Tables** are shared value models:
  - Python errors, `Result` and `Outcome`;
  - `Setting<T>`, which holds either a value a setter checked or raw configuration text written past the setter;
  - `str.split` and `str(int)`;
  - `datetime.strptime` for `%Y%m%d` and `%Y%m%d%H%M%S` as CPython's `_strptime` carries it out: one regular-expression group per directive, each trying its alternatives in order and backtracking, no end anchor, then the range checks of `datetime`; dates become day ordinals;
  - `configparser` look-ups and the site table.
- **FileNames** holds the FLEX filename grammar `check_filename` and the date/time tokens cut from FLEX and S2 names.
- **Grid** holds the 2-D array work:
  - `np.repeat` expansion and cropping;
  - the zenith row stacking loop;
  - the `uint8` sum of mask layers;
  - `np.max` and the count of zero and non-zero cells.
- **Roi** holds the cardinal distance and the ROI box, plus the EPSG code cut from a CRS string.
- **Quality** holds the valid-pixel gate `cal_valid_pixels` and the CV flag `cal_flag`.
- **Matching** holds the nearest-acquisition scan, with a strict `<` so that the first minimum wins, and `Main.py`'s one-sided time-window gate.
- **Statistics and Sif** hold:
  - the validation statistics, over exact reals;
  - the wavelength check and the band setters;
  - the record layout and the statistics loop of `class_SIF_calculation.py`.
- **Calval, Improve and ClassPy** are the configuration classes of `class_calval.py`, `class_improve.py` and `Class.py`. They have validated setters and class invariants.
- **CalvalMain, MainImprove and ArchivedMain** are the three drivers. **S2Rows** is the S2 row loop that the latter two share.

Raster, vector and NetCDF services are parameters. These include clipping, pixel snapping and reprojection. The clipped mask, the snapped pixel centre, the directory listings and the CRS strings are therefore inputs.

## Model

| member | source | states |
|---|---|---|
| Values.Prepend | main_improve.py:93-96 | Prefixing entries keeps the error of the rest, and otherwise puts the prefix first |
| Values.PrependTwice | main_improve.py:82-98 | Two successive prefixes equal one prefix of their concatenation |
| Values.Abs | Main.py:206 | `abs` of a `timedelta` is the value or its negation, never negative |
| Text.Split | Main.py:172-173 | `str.split` always yields at least one piece |
| Text.SplitPiecesHaveNoSeparator | Main.py:172-173 | No piece of a split contains the separator |
| Text.JoinSplit | Main.py:172-173 | Joining the pieces of a split with the separator gives back the original string |
| Text.SplitWithoutSeparator | Archived/Main.py:87-88 | A string without the separator splits into itself alone |
| Text.SplitAround | Main.py:199 | Splitting `a + sep + b` gives the pieces of `a` followed by the pieces of `b` |
| Text.Take | main_improve.py:150 | `name[0:8]` has length min(8, len) and is a prefix of the name |
| Text.TakeLast | main_improve.py:150 | `name[-6:]` has length min(6, len) and holds the last characters of the name |
| Text.DigitChar | main_improve.py:139 | Each decimal digit maps to a digit character of that value |
| Text.NatToStringRoundTrip | class_SIF_calculation.py:69-71 | `str(n)` of a non-negative int is a digit string whose value is n |
| Text.NegativeIntStringIsNotDigits | class_SIF_calculation.py:69-71 | `str(n)` of a negative int is not a digit string, so `isdigit` rejects it when it is read back |
| Calendar.DaysInMonth | Main.py:182 | Months have 28 to 31 days; February has 29 exactly in leap years |
| Calendar.DaysBeforeMonth | Main.py:182 | The days before month m are the common-year cumulative lengths 0, 31, 59, 90, 120, 151, 181, 212, 243, 273, 304, 334, plus one from March on in a leap year |
| Calendar.WholeYear | Main.py:202-204 | The twelve months add up to the year length |
| Calendar.NextYearStart | Main.py:202-204 | The next year starts one year length after this year's start |
| Calendar.OrdinalOfNextDay | Main.py:202-204 | Consecutive calendar days, across month and year ends, have consecutive ordinals, so ordinal differences are day differences |
| Calendar.OrdinalMonotoneWithinYear | Main.py:202-204 | A later date in the same year has a larger ordinal |
| Calendar.YearStartAfterPreviousYear | Main.py:202-204 | Every date comes before 1 January of the next year |
| Calendar.ParseDate8 | Main.py:182 | The fixed-width `%Y%m%d` parse succeeds only on eight digits that form a real date; otherwise it raises ValueError |
| Calendar.ParseDateTime14 | main_improve.py:151 | The fixed-width `%Y%m%d%H%M%S` parse succeeds only on fourteen digits that form a real date and time; otherwise it raises ValueError |
| Calendar.Pad2 | Main.py:182 | A two-digit field reads back as the number it encodes |
| Calendar.DateText | Main.py:182 | The eight-digit rendering of a date is all digits |
| Calendar.DateTextRoundTrip | Main.py:182 | Parsing the eight-digit text of any valid date gives that date's ordinal |
| Calendar.DateTimeText | main_improve.py:151 | The `%Y%m%d%H%M%S` text of a date and time is fourteen digits |
| Calendar.DateTimeTextRoundTrip | main_improve.py:151 | Parsing the fourteen-digit text of any valid date and time gives that instant |
| Calendar.NatToStringHundreds | main_improve.py:139 | `str(100q + r)` is `str(q)` followed by the two digits of r |
| Calendar.NatToStringTwoDigits | main_improve.py:139 | `str` of a number from 10 to 99 is its two digits |
| Calendar.NatToStringOfDate | main_improve.py:139 | `str` of a `yyyymmdd` integer with a four-digit year is the `%Y%m%d` text of that date |
| Calendar.NatToStringOfTime | main_improve.py:139 | `str` of an `hhmmss` integer is the hour's own digits, then two digits each for minute and second, so a time before 10:00 has five digits |
| Calendar.ShortTimeTextFields | main_improve.py:139 | A date text followed by a one-digit hour, minute and second reads back with that digit as the hour, or shifted by one digit when the first two time digits are taken together |
| Calendar.ZeroPad6 | main_improve.py:139 | `f"{t:06d}"` is all digits, and exactly six of them for any time below 1000000 |
| Strptime.MatchGroups | main_improve.py:139 | A match captures one text per directive and ends inside the string |
| Strptime.MatchAlternatives | main_improve.py:139 | A group's match captures its own text before the later groups' texts |
| Strptime.GroupValues | main_improve.py:139 | Group values exist exactly when the pattern matches and the match reaches the end of the string; otherwise ValueError (no match, or unconverted data remains) |
| Strptime.StrptimeDate | Main.py:182 | `strptime(s, '%Y%m%d')` raises only ValueError, and succeeds only when the pattern matches the whole string |
| Strptime.StrptimeDateTime | main_improve.py:139 | `strptime(s, '%Y%m%d%H%M%S')` raises only ValueError, and succeeds only when the pattern matches the whole string |
| Strptime.MatchWithinWidth | main_improve.py:139 | No match runs past the sum of the directives' widest texts, and a match that reaches it took the widest text of every directive |
| Strptime.FirstMatchingAlternative | main_improve.py:139 | A group takes the first alternative that matches and lets the later groups match |
| Strptime.HourTakesOne | main_improve.py:139 | A leading digit from 3 to 9 can only be a one-digit hour |
| Strptime.SecondTakesLast | main_improve.py:139 | The last character of the string alone is read as a one-digit second |
| Strptime.StrptimeDateOnEightDigits | Main.py:182 | On exactly eight digits `strptime(s, '%Y%m%d')` is the fixed-width parse |
| Strptime.StrptimeDateTimeOnFourteenDigits | main_improve.py:151 | On exactly fourteen digits `strptime(s, '%Y%m%d%H%M%S')` is the fixed-width parse |
| Strptime.DatePrefixMatch | main_improve.py:139 | A valid eight-digit date prefix is matched at fixed width ahead of whatever the time groups match |
| Strptime.ThirteenDigitsOneDigitHour | main_improve.py:139 | Thirteen digits whose ninth is 3 to 9 are read with that digit as the hour and two digits each for minute and second |
| Strptime.ThirteenDigitsOneDigitSecond | main_improve.py:139 | Thirteen digits whose ninth and tenth form an hour up to 23 are read with them as the hour, two digits as the minute and the last digit alone as the second |
| Tables.Sites | class_improve.py:76 | The site column has one cell per row, in row order |
| Tables.Latitudes | class_improve.py:81 | The latitude column has one cell per row, in row order |
| Tables.Longitudes | class_improve.py:87 | The longitude column has one cell per row, in row order |
| Tables.Lookup | main_improve.py:36 | `config[section][option]` gives the stored text, and raises KeyError exactly when the section or the option is absent |
| Tables.SiteName | Archived/Main.py:65-66 | A site cell used as a path component works exactly when it is text; otherwise it raises TypeError |
| Tables.TextCells | main_improve.py:141 | A name can match a site cell exactly when that cell is the text of that name |
| Tables.Override | main_improve.py:36-45 | An empty gate keeps the field; a non-empty gate stores the raw configuration text unchecked; a missing key raises KeyError |
| Tables.SelfGatedOverrideIsTruthy | main_improve.py:41-43 | When the gate and the value are the same option, the stored override is always truthy |
| FileNames.CheckFilename | class_calval.py:214-219 | A rejected FLEX name raises ValueError |
| FileNames.FlexNameAccepted | class_calval.py:218 | Every `PRS_TD_<8 digits>_<6 digits>.nc` is accepted |
| FileNames.AcceptedIsFlexName | class_calval.py:218 | Every accepted name has that shape, with its own date and time fields |
| FileNames.AcceptedTokens | class_SIF_calculation.py:95-96 | For an accepted name, the date token is the 8-digit field and the time token is the 6-digit field |
| FileNames.RejectedRaisesValueError | class_improve.py:160-162 | Any name not of the FLEX shape raises ValueError |
| FileNames.StemFields | class_SIF_calculation.py:95 | The `_` fields of the part before the first `.`; there is always at least one |
| FileNames.FlexDateToken | class_SIF_calculation.py:95 | `split('_')[-2]` raises IndexError exactly when the stem has a single field, and the token holds no `_` or `.` |
| FileNames.FlexTimeToken | class_SIF_calculation.py:96 | `split('_')[-1]` always exists and holds no `_` or `.` |
| FileNames.FieldsHaveNoSeparators | class_SIF_calculation.py:95-96 | No stem field contains `_` or `.` |
| FileNames.FlexTokensRoundTrip | Main.py:172-173 | The tokens cut from a built FLEX name are the date and time it was built from |
| FileNames.S2DateToken | Main.py:199 | `split('_')[2].split('T')[0]` fails exactly when the name has fewer than three `_` fields |
| FileNames.S2TimeToken | Main.py:220 | `split('_')[2].split('T')[1]` fails exactly when the third field is missing or has no `T` |
| FileNames.S2TokensOfProductName | Main.py:219-220 | For `<mission>_<level>_<date>T<time>_<rest>` the S2 tokens are that date and that time |
| Grid.RepeatEach | class_calval.py:477 | `np.repeat` of a row multiplies its length by the factor |
| Grid.RepeatEachIndex | class_calval.py:477 | Element i of a repeated row is element i div k of the original |
| Grid.RepeatCols | class_calval.py:477 | Repeating along the columns keeps the number of rows |
| Grid.Crop | class_calval.py:480 | `[0:r, 0:c]` keeps min(r, rows) rows of min(c, cols) cells each, with the cells unchanged |
| Grid.ExpandRow | class_calval.py:477-478 | Row i of the expanded grid is row i div k repeated k times |
| Grid.ExpandAt | class_calval.py:499-500 | Cell (i, j) of the k-fold expansion is cell (i div k, j div k) of the original |
| Grid.ExpandShape | class_calval.py:499-500 | Expansion multiplies both dimensions by k and keeps the grid rectangular |
| Grid.RepeatOrderIrrelevant | class_improve.py:407-408 | Repeating columns and then rows gives the same grid as the row-first expansion in `cal_valid_pixels` |
| Grid.StackRows | class_calval.py:467-473 | The zenith loop's result: no rows is UnboundLocalError, one row stays a vector, equal rows stack into a matrix, unequal rows raise ValueError (the same loop is Class.py:233-238 and class_improve.py:397-402) |
| Grid.ZenithForBand | class_calval.py:477-480 | A failed stack passes its error on; a single vector cannot be repeated on axis 1 (AxisError); a matrix always expands |
| Grid.ZenithForBandIndex | class_calval.py:474-480 | The zenith grid has the band's shape, capped at 500 times the coarse grid, and z[i][j] = coarse[i div 500][j div 500] (Class.py:243-246, class_improve.py:407-410) |
| Grid.Sum3 | main_improve.py:186-187 | The elementwise sum of three mask layers keeps their shape and every cell is a `uint8` in [0, 256) |
| Grid.FlagSumCountsFlags | main_improve.py:186-187 | For 0/1 layers the sum does not wrap, and a cell is at least 1 exactly when some layer flags it |
| Grid.MaxAtLeastOne | class_calval.py:497 | `np.max(...) >= 1` raises ValueError exactly on an empty array |
| Grid.MaxAtLeastOneIffCell | class_calval.py:497 | On a non-empty array, the test holds exactly when some cell is at least 1 |
| Grid.CountZero | class_calval.py:511 | The count of zero cells never exceeds the number of cells |
| Grid.CountNonZero | class_calval.py:512 | The count of non-zero cells never exceeds the number of cells |
| Grid.CountsPartition | class_calval.py:511-513 | Valid plus invalid pixels equals the number of clipped pixels |
| Grid.ExpandKeepsMax | class_calval.py:497-510 | The 6× expansion of a non-empty mask has the same `max >= 1` verdict as the coarse mask |
| Roi.BoxIsCentredSquare | class_calval.py:415-420 | The ROI box is a square centred on the snapped pixel centre, with side twice the cardinal distance |
| Roi.CardinalDistanceEndsInFive | class_calval.py:409-414 | For every side that is a multiple of 10, the cardinal distance ends in 5 |
| Roi.BoxOnPixelEdges | class_calval.py:409-420 | Around a pixel centre the box edges fall on 10 m pixel edges and span an odd number of pixels |
| Roi.DefaultBoxSpans91Pixels | class_calval.py:260 | The default 900 m side gives a cardinal distance of 455 m and a 910 m box |
| Roi.CrsCode | class_calval.py:384-385 | `split(":")[1]` raises IndexError exactly when there is no `:`, and the code holds no `:` |
| Roi.CreateShapefileOutcome | class_calval.py:387-420 | Different L1C/L2A EPSG codes stop with SystemExit; equal codes give the box around the pixel centre |
| Quality.AllClear | class_calval.py:527-531 | The all-clear result is a pass with (area/10)² pixels and ratio 1; a raw-text area raises TypeError |
| Quality.ClearMaskShortCut | class_calval.py:497-531 | A non-empty mask without a flagged cell passes (the all-clear test of line 497), whatever the cloud threshold and the clip |
| Quality.ClearClipShortCut | class_calval.py:510-527 | A flagged mask whose clipped ROI has no flagged cell gives the same all-clear result |
| Quality.MissingClipRaises | class_calval.py:507 | Without a clipping method, a mask with a flagged cell raises AttributeError, and only then |
| Quality.EmptyMaskRaises | class_calval.py:497 | An empty mask raises ValueError at `np.max` |
| Quality.CloudyVerdictMeaning | class_calval.py:510-523 | In the cloudy branch: valid is the number of zero cells; valid plus invalid is the total; the ratio lies in [0, 1); pass holds exactly when ratio ≥ cloud |
| Quality.ShareBelowOne | class_calval.py:514 | A part below a positive total gives a ratio in [0, 1) |
| Quality.CloudyBranch | class_calval.py:497-523 | With a clip method, a flagged mask and a flagged clip, the gate is the cloudy verdict |
| Quality.CloudThresholdExtremes | class_calval.py:516 | In the cloudy branch, cloud 0 always passes and cloud 1 never does |
| Quality.CvFlag | class_calval.py:536-540 | The flag is 1 exactly when cv ≤ threshold and 0 exactly when cv > threshold; a raw-text threshold raises TypeError |
| Quality.CvFlagMonotone | class_calval.py:537 | Raising the threshold never turns a flag from 1 to 0 |
| Matching.Keys | Main.py:197-200 | Every S2 name yields its date key, in listing order, or the scan fails |
| Matching.KeysFailIffSomeKeyFails | Main.py:197-200 | The scan fails exactly when some name in the listing has no valid date |
| Matching.Differences | Main.py:202-204 | Each difference is that S2 key minus the FLEX key |
| Matching.FirstNearestUnique | Main.py:206 | There is exactly one first nearest index |
| Matching.NearestExtend | Main.py:206-208 | A new candidate replaces the best only when strictly nearer |
| Matching.NearestIndex | Main.py:196-208 | The chosen index has the least absolute difference, and no earlier index ties it |
| Matching.NearestChoice | Main.py:196-208 | The choice fails exactly when some key fails, and otherwise names an index of the listing |
| Matching.NearestScan | Main.py:196-208 | The loop keeps the first image of least absolute difference, with its signed difference; the same scan is main_improve.py:147-158 and Archived/Main.py:156-167 |
| Matching.KeysPrefixError | Main.py:197-200 | A key error in a prefix of the listing is the error of the whole scan |
| Matching.WindowIsOneSided | Main.py:210-217 | The window rejects only S2 images more than the window after FLEX; an earlier image is never rejected |
| Matching.S2DayKey | Main.py:199-200 | The day key is `strptime` of the date token; a missing token raises IndexError |
| Matching.S2DayKeyOfProductName | Main.py:199-200 | For a well-formed product name the key is the fixed-width parse of its 8-digit date |
| Matching.S2InstantKey | main_improve.py:150-151 | Only ValueError can come out of the `name[0:8] + name[-6:]` parse |
| Matching.S2InstantKeyOfName | main_improve.py:150-151 | The instant key of `date + middle + time` is `strptime` of `date + time`, and the fixed-width parse when those are digits |
| Matching.FlexInstant | main_improve.py:139 | `strptime(str(date) + str(time))` fails only with ValueError |
| Matching.FlexInstantFromTen | main_improve.py:139 | From 10:00 on, the FLEX date and time columns give back exactly the recorded instant |
| Matching.FlexInstantOneDigitHour | main_improve.py:139 | From 03:00 to 09:59 the unpadded time still gives back exactly the recorded instant |
| Matching.ShortFlexText | main_improve.py:139 | Before 10:00, `str(date) + str(time)` is the date text, one hour digit and two digits each for minute and second |
| Matching.FlexInstantMisreadsEarlyHour | main_improve.py:139 | From 01:00 to 02:59 (when the shifted fields stay in range) the unpadded time is read with every field shifted by one digit, and the instant differs from the recorded one |
| Matching.FlexInstantPadded | main_improve.py:139 | The zero-padded parse fails only with ValueError |
| Matching.FlexInstantPaddedCorrect | main_improve.py:139 | With the time zero-padded to six digits, every valid FLEX date and time give back exactly the recorded instant |
| Statistics.Mean | class_SIF_calculation.py:160 | The mean is undefined exactly on an empty column |
| Statistics.Residuals | class_SIF_calculation.py:160 | `x - y` holds the pairwise residuals |
| Statistics.Shift | class_SIF_calculation.py:163 | `s - c` subtracts c from every element |
| Statistics.Squares | class_SIF_calculation.py:157 | `s ** 2` squares every element |
| Statistics.SumOfResiduals | class_SIF_calculation.py:160 | The residuals sum to Σx − Σy |
| Statistics.MeanResidualIsBias | class_SIF_calculation.py:159-160 | The mean residual is mean(x) − mean(y) |
| Statistics.SumOfSquaresZero | class_SIF_calculation.py:157 | A sum of squares is non-negative, and zero exactly when every element is 0 |
| Statistics.MeanOfSquares | class_SIF_calculation.py:157 | A mean of squares is non-negative, and zero exactly when every element is 0 |
| Statistics.RandomUncertaintyNonNegative | class_SIF_calculation.py:162-163 | The random uncertainty is ≥ 0, and 0 exactly when every residual equals the mean residual |
| Statistics.RmseSquaredZeroIffEqual | class_SIF_calculation.py:156-157 | RMSE² is ≥ 0, and 0 exactly when the FLEX and FLOX columns are equal |
| Statistics.SumOfShiftedSquares | class_SIF_calculation.py:163 | Expanding Σ(s − c)² in terms of Σs², Σs and the count |
| Statistics.RmseSplitsIntoBiasAndNoise | class_SIF_calculation.py:156-163 | RMSE² = random uncertainty + (mean residual)² |
| Statistics.RSquaredDefinedIffVaries | class_SIF_calculation.py:153-154 | R² is undefined (division by zero) exactly when x is empty or constant |
| Statistics.RSquaredAtMostOne | class_SIF_calculation.py:153-154 | R² never exceeds 1, and equals 1 when x = y and x varies |
| Sif.CheckInputWavelength | class_SIF_calculation.py:62-73 | A digit-only str is returned unchanged; an int becomes `str(value)` (a bool becomes `True`/`False`); anything else raises ValueError |
| Sif.RecheckStoredWavelength | class_SIF_calculation.py:62-73 | A stored wavelength passes the wavelength check again exactly when it is a digit string; negative ints and bools do not |
| Sif.SifSettings.constructor | class_SIF_calculation.py:13-19 | The bands default to O2A 760, O2B 686, red 684 and far-red 740 |
| Sif.SifSettings.SetBand | class_SIF_calculation.py:26-46 | A band setter stores the checked wavelength, or raises ValueError and keeps the old one; other bands never change |
| Sif.SifSettings.SetListHeader | class_SIF_calculation.py:50-53 | Any truthy value raises ValueError; the 13-name header is never replaced |
| Sif.LabelInjective | class_SIF_calculation.py:19 | Different quantities have different header names |
| Sif.WrittenLayoutSwapsUncertainties | class_SIF_calculation.py:108 | The written record matches the header of line 19 at positions 0-10, but puts O2A_un under `SIF_O2B_un` and O2B_un under `SIF_O2A_un` |
| Sif.CorrectedLayoutMatchesHeader | class_SIF_calculation.py:19 | The corrected layout puts each quantity under its own header name |
| Sif.Record | class_SIF_calculation.py:95-108 | The record fails with IndexError exactly when the date token is missing, and otherwise has one cell per layout position |
| Sif.WrittenRecordMislabels | class_SIF_calculation.py:108 | In the written record, the 13 values sit under the header with the two uncertainty values swapped |
| Sif.CorrectedRecordMatchesHeader | class_SIF_calculation.py:95-96 | In the corrected record each value sits under its header name (line 19), and the date and time come from the filename |
| Sif.RecordTokensOfFlexName | class_SIF_calculation.py:95-96 | A record built from a FLEX name carries that name's date and time |
| Sif.ColumnPairsCoverMetrics | class_SIF_calculation.py:126 | There are 7 column pairs, one for each SIF metric, with none repeated |
| Sif.FlexColumn | class_SIF_calculation.py:132 | The `_flex` column of a metric, one value per merged row |
| Sif.FloxColumn | class_SIF_calculation.py:132 | The `_flox` column of a metric, one value per merged row |
| Sif.StatisticsOfMeaning | class_SIF_calculation.py:132-135 | With FLEX as x and FLOX as y, the four statistics of a non-empty merge have their meanings: bias, non-negative spreads, RMSE² = noise + bias², R² undefined exactly for constant x |
| Sif.EmptyMergeHasNoStatistics | class_SIF_calculation.py:125 | An empty inner merge gives no statistic |
| Sif.CalStatistic | class_SIF_calculation.py:126-139 | The pair loop gives exactly one value per list for each of the 7 pairs, in order, and each value is that pair's statistic |
| Calval.Flex.constructor | class_calval.py:155-162 | The FLEX ROI defaults to 900 and the vegetation fraction to 0.5 |
| Calval.Flex.SetAreaRoi | class_calval.py:188-194 | The setter rejects sides below 300 or not a multiple of 300, but stores an accepted value in the stray `_area_ROI`, so `area_roi` never changes |
| Calval.Flex.SetAreaRoiCorrected | class_calval.py:188-194 | The corrected setter stores an accepted side in `area_roi` |
| Calval.Flex.SetVegetationPixel | class_calval.py:205-209 | A fraction in [0, 1] is stored; anything else raises ValueError and keeps the old value |
| Calval.AreaRoiSetterLosesValue | class_calval.py:186-194 | Setting 600 is accepted, yet `area_roi` still reads 900 and 600 sits in `_area_ROI` |
| Calval.AreaRoiCorrectedKeepsValue | class_calval.py:186-194 | With the corrected setter, 600 reads back |
| Calval.S2.constructor | class_calval.py:254-262 | The defaults are CV threshold 0.2, area 900 and cloud 0.5 |
| Calval.S2.SetS2Resolution | class_calval.py:289-292 | Any truthy value raises AttributeError |
| Calval.S2.SetThresholdCv | class_calval.py:306-310 | Only a threshold above 0 is stored; a rejected value raises ValueError and changes nothing |
| Calval.S2.SetArea | class_calval.py:318-324 | Only a side of at least 10 that is a multiple of 10 is stored; otherwise ValueError and nothing changes |
| Calval.S2.SetCloud | class_calval.py:331-335 | Only a cloud fraction in [0, 1] is stored; otherwise ValueError and nothing changes |
| Calval.S2.CreateShapefile | class_calval.py:382-420 | A CRS without `:` raises IndexError; mismatched codes stop with SystemExit; otherwise the box is a square centred on the pixel, spanning an odd number of 10 m pixels |
| Calval.S2.CalValidPixels | class_calval.py:496-531 | An empty mask raises ValueError; a clear mask passes with (area/10)² and 1; a flagged mask raises AttributeError at the undefined clip call |
| Calval.S2.CalValidPixelsCorrected | class_calval.py:496-531 | With the clip call fixed: a clear mask or a clear clip passes with (area/10)² and 1; otherwise the valid count, the ratio in [0, 1) and pass exactly when ratio ≥ cloud |
| Calval.S2.CalFlag | class_calval.py:536-540 | 1 exactly when cv ≤ the CV threshold, 0 exactly when above |
| Calval.ShortCutCountVersusBox | class_calval.py:409-414 | The shortcut count (area/10)² of line 527 equals the ROI box's pixel count exactly when area/10 is odd |
| Calval.CalFlagMonotone | class_calval.py:536-540 | A higher CV threshold never lowers the flag |
| ClassPy.S2.constructor | Class.py:13-19 | The defaults are CV threshold 0.2, area 900 and cloud 0.5 |
| ClassPy.S2.SetThresholdCv | Class.py:70-74 | Only a threshold above 0 is stored; otherwise ValueError and nothing changes |
| ClassPy.S2.SetArea | Class.py:75-79 | Any multiple of 10 is stored, including 0 and negatives; otherwise ValueError and nothing changes |
| ClassPy.S2.SetCloud | Class.py:80-84 | Only a cloud fraction in [0, 1] is stored; otherwise ValueError and nothing changes |
| ClassPy.S2.CreateShapefile | Class.py:147-193 | Mismatched EPSG codes stop with SystemExit; a raw-text area raises TypeError; otherwise it gives the centred box |
| ClassPy.S2.CalValidPixels | Class.py:263-298 | An empty mask raises ValueError; a clear mask or a clear clip gives the all-clear result; otherwise the valid ratio decides pass, or a raw-text cloud raises TypeError |
| ClassPy.S2.CalFlag | Class.py:303-307 | 1 exactly when cv ≤ threshold, 0 exactly when above; a raw-text threshold raises TypeError |
| ClassPy.DegenerateAreasAccepted | Class.py:75-79 | Areas 0 and -20 are accepted; the first gives a one-pixel box and the second an inverted box |
| ClassPy.IntendedSideGivesProperBox | Class.py:75-79 | The intended rule (at least 10, multiple of 10) rejects 0 and -20, and every side it accepts gives a box at least one pixel wide |
| ClassPy.GetSiteInfo | Class.py:87-96 | The three columns come from one table, so the equal-length test always holds and the table comes back unchanged |
| ClassPy.Flex.constructor | Class.py:311-313 | The vegetation fraction defaults to 0.5 |
| ClassPy.Flex.VegetationPixel | Class.py:325-327 | The getter reads the stored fraction |
| ClassPy.DefaultVegetationPixel | Class.py:311-327 | A fresh FLEX object reads 0.5 |
| Improve.AnyIsNaN | class_improve.py:88 | On a numeric column `any(np.isnan(...))` is true exactly when some cell is missing; on a text column it stops at the first cell |
| Improve.NaNScan | class_improve.py:86-89 | The scan passes exactly when every cell is a number. It raises TypeError exactly when the column holds text and its first cell is present; otherwise it fails with ValueError |
| Improve.GetSiteInfo | class_improve.py:73-98 | The table is accepted exactly when site names and latitudes are present, latitudes are numeric and longitudes are numbers; the error is ValueError or TypeError. It has one row per input row, with `str()` of the site cell as the name and the coordinates as read |
| Improve.NoRangeCheck | class_improve.py:73-98 | Any numeric latitude and longitude are accepted, however far out of range, and a numeric site name becomes its text |
| Improve.TextLongitudesStopAtFirstCell | class_improve.py:86-89 | A longitude column holding any text stops at its first cell: TypeError, or ValueError when that cell is missing; the numeric check after it is never reached |
| Improve.Flex.constructor | class_improve.py:102-111 | The FLEX ROI defaults to 900 and the vegetation fraction to 0.5 |
| Improve.Flex.FlexResolution | class_improve.py:122-130 | The plain method that replaced the property raises AttributeError on any truthy value |
| Improve.Flex.SetVegetationPixel | class_improve.py:138-142 | A fraction in [0, 1] is stored; otherwise ValueError and nothing changes |
| Improve.Flex.SetAreaRoi | class_improve.py:150-156 | A side of at least 300 that is a multiple of 300 is stored in `area_ROI`; otherwise ValueError |
| Improve.AreaRoiReadsBack | class_improve.py:145-156 | Setting 600 reads back 600, and the resolution stays 300 |
| Improve.S2.constructor | class_improve.py:194-202 | The defaults are CV threshold 0.2, area 900 and cloud 0.5 |
| Improve.S2.SetS2Resolution | class_improve.py:225-228 | Any truthy value raises AttributeError |
| Improve.S2.SetThresholdCv | class_improve.py:236-240 | Only a threshold above 0 is stored; otherwise ValueError and nothing changes |
| Improve.S2.SetArea | class_improve.py:248-254 | Only a side of at least 10 that is a multiple of 10 is stored; otherwise ValueError and nothing changes |
| Improve.S2.SetCloud | class_improve.py:262-266 | Only a cloud fraction in [0, 1] is stored; otherwise ValueError and nothing changes |
| Improve.S2.CreateShapefile | class_improve.py:312-357 | Mismatched codes stop with SystemExit; a raw-text area raises TypeError; otherwise the box spans an odd number of 10 m pixels |
| Improve.S2.CalValidPixels | class_improve.py:426-461 | An empty mask raises ValueError; a clear mask gives the all-clear result; a flagged mask raises AttributeError at the undefined clip call |
| Improve.S2.CalFlag | class_improve.py:466-470 | 1 exactly when cv ≤ threshold, 0 exactly when above; a raw-text threshold raises TypeError |
| S2Rows.Append | main_improve.py:190-193 | Appending a row keeps all lists the same length, adds the row at the end and leaves earlier rows alone |
| S2Rows.SiteColumn | main_improve.py:235 | The output `Site` column is the FLEX table's site column |
| S2Rows.SiteIndex | main_improve.py:141 | `tolist()[0]` is the first row with that site name, and raises IndexError exactly when there is none |
| S2Rows.Products | main_improve.py:147 | A missing S2 folder raises FileNotFoundError, an empty one IndexError; otherwise it gives the non-empty listing |
| S2Rows.Combine | main_improve.py:186-187 | Layers of the same shape are summed; mismatched shapes raise ValueError |
| S2Rows.Locate | main_improve.py:139-158 | A row is located exactly when its FLEX time parses, its site is known and its S2 folder lists parseable names; the image is then the first nearest in time |
| S2Rows.Assess | main_improve.py:175-189 | A successful assessment has a ROI box, combined masks, and the gate's verdicts for L1C and L2A |
| S2Rows.Record | main_improve.py:190-231 | CV and flag are recorded exactly when both gates pass, otherwise None; the flag is 1 exactly when cv ≤ threshold; a raw-text threshold in that case raises TypeError |
| S2Rows.RowResult | main_improve.py:133-231 | A processed row carries its own FLEX filename, and a location error is the row's error |
| S2Rows.ClearMasksRecordCv | main_improve.py:188-220 | Two clear masks pass both gates with the all-clear counts, and CV and flag are recorded |
| S2Rows.FlaggedMaskWithoutClipRaises | class_improve.py:437 | Without a clip method a flagged L1C mask stops the row with AttributeError |
| S2Rows.ProcessRow | main_improve.py:133-231 | The loop body computes exactly the row's result |
| S2Rows.AccumulateOneEntryPerRow | main_improve.py:160-229 | Accumulation succeeds exactly when every row does; it then gives one entry per row in every list; otherwise the first failing row's error |
| S2Rows.ProcessFlexTable | main_improve.py:132-243 | The loop over the FLEX table leaves exactly the table the row-by-row accumulation specifies, error included |
| S2Rows.FlexTableOneEntryPerRow | main_improve.py:132-243 | The table has one entry per FLEX row in every column, each entry the row's result and its site; otherwise the error of the first failing row |
| MainImprove.ApplyFlexOverrides | main_improve.py:36-45 | Non-empty `[FLEX]` options are stored as raw text in the ROI and vegetation fields past the setters; a missing key raises KeyError |
| MainImprove.VegetationFilterNeverSkips | main_improve.py:41-43 | Whatever the configuration holds, the vegetation test of line 91 is truthy, so no image is skipped |
| MainImprove.SiteRecordsMeaning | main_improve.py:82-98 | A bad filename raises ValueError; otherwise every file of the site is recorded in order when the vegetation value is truthy, and none otherwise |
| MainImprove.SiteEntry | main_improve.py:62-98 | A missing or empty site folder adds no rows; the site fails exactly when one of its files fails `check_filename`; every recorded row is a well-formed FLEX name under the site's name |
| MainImprove.AllRecords | main_improve.py:60-104 | Every recorded row is a well-formed FLEX name with its date and time tokens |
| MainImprove.RecordSiteFiles | main_improve.py:82-98 | The file loop records exactly the site's records |
| MainImprove.RecordFlexImages | main_improve.py:55-104 | A site-table error is raised first; otherwise the site loop records exactly the rows of all sites of the table |
| MainImprove.ApplyS2Overrides | main_improve.py:108-119 | CV, cloud and area overrides are stored as raw text, cloud and area from `[Optional Input]`; a missing key raises KeyError |
| MainImprove.GateOf | main_improve.py:188-189 | The S2 gate uses the object's area, cloud and threshold, and has no clip method |
| MainImprove.ProcessS2 | main_improve.py:123-245 | An empty S2 folder gives no table; otherwise one entry per FLEX row in every column, or the first row error |
| MainImprove.TextSideStopsAtShapefile | main_improve.py:115-116 | An area override stored as text stops the row with TypeError in `create_shapefile` (line 175) |
| MainImprove.TextThresholdStopsAtFlag | main_improve.py:108-110 | A CV-threshold override stored as text stops a passing row with TypeError in `cal_Flag` (line 218) |
| ArchivedMain.ApplyOverrides | Archived/Main.py:35-49 | Overrides go into vegetation, CV, cloud and area unchecked, as raw text; a missing key raises KeyError |
| ArchivedMain.FileRecordsMeaning | Archived/Main.py:78-88 | Every file is recorded in order with its last two `_` tokens; a single-field name raises IndexError |
| ArchivedMain.AnyTwoFieldNameRecorded | Archived/Main.py:85-88 | There is no name check: assuming the raster opens, any `<a>_<b>.<ext>` is recorded with date a and time b |
| ArchivedMain.SingleFieldNameRaises | Archived/Main.py:87 | A stem without `_` raises IndexError |
| ArchivedMain.SiteEntry | Archived/Main.py:65-88 | A missing or empty site folder contributes no rows; otherwise every file is recorded |
| ArchivedMain.RecordsPerSite | Archived/Main.py:62-88 | When every name has two fields, the number of rows is the number of files in the existing site folders |
| ArchivedMain.RecordFlexImages | Archived/Main.py:54-119 | An empty input folder gives no table; otherwise the rows of all sites, or the first error |
| ArchivedMain.RecordSiteFiles | Archived/Main.py:78-88 | The file loop records exactly the site's records |
| ArchivedMain.GateOf | Archived/Main.py:195-196 | The S2 gate uses the object's area, cloud and threshold, and this class has a clip method |
| ArchivedMain.ProcessS2 | Archived/Main.py:121-249 | An empty S2 folder gives no table; otherwise one entry per FLEX row in every column, or the first row error |
| ArchivedMain.FlaggedMasksAreJudged | Archived/Main.py:193-201 | With a clip method, flagged masks are judged: each gate passes exactly when its clear share reaches the cloud threshold |
| CalvalMain.ColumnGroups | Main.py:72-80 | Each of the 17 per-image columns is a FLEX, S2 or index column, and is among the no-FLEX columns exactly when it is not a FLEX column |
| CalvalMain.ColumnOf | Main.py:321-348 | A report column holds one cell per entry, in order |
| CalvalMain.NotesOf | Main.py:347 | The note column holds one note per entry, in order |
| CalvalMain.SiteColumnOf | Main.py:96-103 | A site column holds one cell per site, in order |
| CalvalMain.NcFiles | Main.py:124 | The FLEX list keeps exactly the listed names that end in `.nc` |
| CalvalMain.S2Settings | Main.py:226-229 | The site's ROI, CV threshold and cloud pass the S2 setters exactly when each lies in its range; otherwise ValueError |
| CalvalMain.S2Record | Main.py:218-313 | A matched image records its name, date, time, day difference and valid share; indices are recorded exactly when the L2A gate passes; the note is the transfer-function note or the cloud note |
| CalvalMain.ScannedNamesHaveDates | Main.py:199 | Every name the scan accepted has a date token |
| CalvalMain.S2Stage | Main.py:182-217 | A missing S2 folder raises; an empty one notes 'No input Sentinel-2 images'; otherwise the first nearest image inside the window is recorded |
| CalvalMain.WindowGate | Main.py:210-217 | A nearest image beyond the window gives the window note with no S2 data; an image on or before the FLEX date is never rejected |
| CalvalMain.ImageEntry | Main.py:141-313 | A bad name raises ValueError; a site without FLOX dates raises KeyError; an image without FLOX data on its date is all N/A with that note; otherwise the FLEX tokens and the S2 stage |
| CalvalMain.FloxGateSkipsImage | Main.py:146-155 | A FLEX image dated off the FLOX dates fills every column with N/A and notes the date |
| CalvalMain.NoFlexEntryIsAllNA | Main.py:113-134 | A site without FLEX images fills every column with N/A and notes 'No input FLEX images' |
| CalvalMain.CollectOnePerItem | Main.py:140-313 | The image loop succeeds exactly when every image does, and then gives one entry per image in order; otherwise the first failing image's error |
| CalvalMain.CollectPrefixError | Main.py:140-313 | An error in an earlier image stops the whole loop with that error |
| CalvalMain.GatherPrefixError | Main.py:83-313 | An error at an earlier site stops the whole site loop with that error |
| CalvalMain.GatherAligned | Main.py:83-313 | Every site gives at least one entry, and the entry count equals the site count exactly when every site gives exactly one |
| CalvalMain.ImageStep | Main.py:140-141 | The loop step is the image's entry |
| CalvalMain.ImageEntries | Main.py:140-313 | The image loop succeeds exactly when every image does, with one entry per `.nc` file |
| CalvalMain.SiteEntries | Main.py:86-313 | A vegetation value outside [0, 1] raises ValueError; a site without `.nc` files gives one all-N/A entry; otherwise one entry per image; never zero entries |
| CalvalMain.SiteStep | Main.py:83-86 | The loop step is the site's entries |
| CalvalMain.AlignedIffOneEntryPerSite | Main.py:321-348 | Per-image columns are never shorter than the site columns of lines 96-103, and equal in length exactly when every site yields one entry |
| CalvalMain.TwoImagesMisalignReport | Main.py:321-348 | A site with two or more `.nc` images makes the per-image columns longer than the site columns of lines 96-103 |
| CalvalMain.CorrectedReportAligned | Main.py:321-348 | The corrected site columns (lines 96-103) are as long as the per-image columns, whenever the run succeeds |
| CalvalMain.ExtendByOne | Main.py:118-121 | One more entry adds exactly one cell to every column and one note |
| CalvalMain.AppendNA | Main.py:118-119 | Every column of the group gets one N/A, and the others stay unchanged |
| CalvalMain.SkipS2 | Main.py:186-191 | The no-S2 branches add N/A to every non-FLEX column and leave the FLEX columns alone |
| CalvalMain.SkipAll | Main.py:115-133 | The no-FLEX branches add N/A to all 17 columns |
| CalvalMain.RecordSite | Main.py:96-103 | Each site column gets one cell for the site |
| CalvalMain.RecordFlex | Main.py:171-174 | Each FLEX column gets one cell, the valid-pixel column 100, and the other columns stay unchanged |
| CalvalMain.RecordMatch | Main.py:218-221 | Each S2 column gets one cell for the match, and the other columns stay unchanged |
| CalvalMain.RecordIndices | Main.py:259-266 | Each index column gets one cell, and the other columns stay unchanged |
| CalvalMain.SkipIndices | Main.py:302-309 | The cloud branch adds N/A to the eight index columns |
| CalvalMain.AppendLeaves | Main.py:218-309 | One S2 stage adds one cell to every non-FLEX column |
| CalvalMain.RecordS2 | Main.py:218-313 | The matched-image branch fails exactly as the S2 record does, and otherwise adds that record's cells and note |
| CalvalMain.ProcessS2 | Main.py:182-313 | The S2 stage adds one cell to every non-FLEX column, whichever branch it takes |
| CalvalMain.ProcessImage | Main.py:141-313 | Every image adds exactly one cell to each of the 17 columns and one note, whichever branch it takes |
| CalvalMain.ProcessSite | Main.py:86-313 | A site adds one cell to each site column and the site's entries to the per-image columns and the notes; the FLEX object stays valid |
| CalvalMain.ProcessImages | Main.py:140-313 | The image loop adds the site's image entries to every column and to the notes |
| CalvalMain.Run | Main.py:19-349 | No FLOX file raises FileNotFoundError. Misaligned columns raise ValueError in the DataFrame. No S2 object built raises UnboundLocalError at the CSV write. Otherwise the report holds the site columns, one cell per entry in each of the 17 columns, and the notes |

## Left out

- Raster, vector and NetCDF I/O is not modelled. This covers `rio.open`, reading bands, writing to the cache, `rio.mask.mask` clipping, `img.index`/`img.xy` pixel snapping, `to_crs` reprojection and `xr.open_dataset`. The snapped pixel centre, the clipped mask, the CRS strings and the directory listings are inputs.
- XML parsing (quantification values, offsets, U, irradiance, zenith rows as text) is not modelled. Neither are `get_path_images`' `os.walk` path discovery, CSV reads and writes, directory creation, `shutil.rmtree`, prints, `time.sleep` and timing.
- Floating-point numerics are not modelled: NDVI, radiance, NIRv, the CV (`np.std`/`np.mean`) and the 3×3 SIF averages. The CV is an input.
- The validation statistics are over exact reals, not IEEE doubles. RMSE is stated through its square because `np.sqrt` is not modelled.
- `cal_SIF`, `SIF_avg_output`'s data reads and `cal_statistic`'s CSV merge are not modelled; the merged rows are an input.
- `Main.py` calls APIs that the shown classes lack. These are the four-argument `S2(...)`, the no-argument `cal_valid_pixels()`, `cal_l2a_indices`, `cal_transfer_function`, `check_flox_dates`, `cal_sif`, `sif_output`, `remove_cache` and `create_matchup_report`. It also reads four attributes the classes do not define: `flex.file_flox_csv` (Main.py:26), `flex.path_flex_input` (Main.py:112), `flex.path_s2_input` (Main.py:183) and `s2.path_cache` (Main.py:353); as written, line 26 raises AttributeError before anything else runs. Their results are inputs: the `Services` value of `CalvalMain`, with `floxFound` and the folder listings standing for the four attributes. The four-argument constructor is modelled as the defaults followed by the three setters.
- `Main.py` reads the ROI, window, CV, vegetation and cloud columns from each row of `get_site_info`'s table, but `class_calval.py:142-146` returns only the site, latitude and longitude columns. The model takes full site rows as input instead of raising KeyError at `Main.py:90`.
- `class_calval.py`'s `get_site_info` (its range checks) and the FLEX and S2 folder checks in the constructors are not modelled; the model starts from their results.
- The site-table report after `Main.py:349` is not modelled: the SIF concatenation, the average and standard-deviation tables, and the match-up report.
- Site names: `class_improve.py:79` and `class_calval.py:121` convert every site cell with `str()`, so the site loops of `main_improve.py` and `Main.py` always join text. `Improve.GetSiteInfo` models the conversion, with `numberText` standing for Python's formatting of a number. In a site column that also holds text, pandas keeps a numeric-looking cell's own characters, which `CsvCell` does not carry. `Class.py` has no such conversion, so the archived driver raises TypeError on a numeric name (`Tables.SiteName`).
- S2Rows.ProcessRow: the `Site` column of the FLEX table is taken back as text. `pd.read_csv` would read an all-numeric site column back as numbers, and `os.path.join` at main_improve.py:144 would then raise TypeError.
- Improve.NaNScan: which cells make a column numeric is given by the `CsvCell` kinds; pandas' own number parser is not modelled (`parses` stands for it in the numeric checks).
- Text.IsDigit accepts the ASCII digits only. Python's `\d` and `str.isdigit` also accept other Unicode decimal digits, such as the full-width `２`. The members below inherit this.
- CheckFilename: a name whose date or time digits are non-ASCII Unicode digits, such as `PRS_TD_２０２３０６１６_101431.nc`, passes `re.fullmatch` in the source but is rejected here.
- RejectedRaisesValueError: for the same reason, such a name raises ValueError here but is accepted at class_improve.py:160.
- CheckInputWavelength: a wavelength such as `'７６０'` passes `str.isdigit` in the source but is rejected here.
- Strptime.StrptimeDate and Strptime.StrptimeDateTime: `\d` is ASCII here too. CPython's pattern is a `str` regular expression, so its `\d` also matches other Unicode decimal digits, which `int()` then reads.
- Matching.FlexInstantMisreadsEarlyHour: times before 01:00 (a 12-digit string) and from 01:00 to 02:59 whose shifted fields leave the `%H`/`%M` ranges are not worked out. They are still parsed by `Matching.FlexInstant`, but no lemma states their value.
- Quality.AllClear: `(area / 10) ** 2` is exact real arithmetic here, not a Python float.
- In `Class.py` and `class_improve.py` the zenith loops and the mask expansion are the same code as in `class_calval.py`. The `Grid` members cover all three, and the table cites the `class_calval.py` lines.
- The `bool_DeleteCache` / `bool_delete_cache` flag is only looked up (a KeyError when absent); cache deletion is not modelled.

## Findings

| source | as written | input that shows it | evidently intended | confidence | as-written member | corrected member |
|---|---|---|---|---|---|---|
| class_calval.py:188-194 | The `area_roi` setter stores into `_area_ROI`, a new attribute, not `_area_roi` | `flex.area_roi = 600` is accepted, then `flex.area_roi` reads 900 | The accepted side is stored and reads back | high, not executed | Calval.AreaRoiSetterLosesValue | Calval.AreaRoiCorrectedKeepsValue |
| class_calval.py:507 | The cloudy branch of `cal_valid_pixels` calls `clip_RasterbySHP`, which the class does not define (it has `clip_raster_by_shapefile`); class_improve.py:437 has the same call | any mask with a cell ≥ 1 raises AttributeError | The mask is clipped and the clear share decides the pass | high, not executed | Quality.MissingClipRaises | Calval.S2.CalValidPixelsCorrected |
| class_SIF_calculation.py:108 | The record puts O2A_un at position 11 and O2B_un at 12, while the header at line 19 names them `SIF_O2B_un`, `SIF_O2A_un` | any record: `r[11]` is the O2A uncertainty under the label `SIF_O2B_un` | each value under its own header name | high, not executed | Sif.WrittenRecordMislabels | Sif.CorrectedRecordMatchesHeader |
| Class.py:75-79 | The `area` setter checks only `value % 10 == 0` | `area = 0` is accepted and gives a one-pixel box; `area = -20` gives an inverted box | sides of at least 10, as class_calval.py:320 checks | medium, not executed | ClassPy.DegenerateAreasAccepted | ClassPy.IntendedSideGivesProperBox |
| Main.py:96-103 | The site lists grow once per site, but the per-image lists grow once per image; the DataFrame at lines 321-348 needs equal lengths | one site with two `.nc` images that both have FLOX dates makes the per-image columns longer than the site columns, and the DataFrame raises ValueError | a site row per image entry | high, not executed | CalvalMain.TwoImagesMisalignReport | CalvalMain.CorrectedReportAligned |
| main_improve.py:139 | `str(date) + str(time)` drops the leading zero of a FLEX time before 10:00, and `strptime`'s `%H` group (`2[0-3]\|[0-1]\d\|\d`) takes two digits whenever the rest still matches; Archived/Main.py:146 has the same call | FLEX date 20230616 and time 12345 (01:23:45) are read as 12:34:05 on 16 June 2023 | the recorded instant, for instance by zero-padding the time to six digits before parsing | high, not executed | Matching.FlexInstantMisreadsEarlyHour | Matching.FlexInstantPaddedCorrect |
