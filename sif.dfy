/** The SIF part of the validation: the wavelength settings of the `SIF`
    class, the 13-field record `SIF_avg_output` writes for one FLEX image, and
    the four validation statistics `cal_statistic` computes for each of the
    seven SIF metrics of the FLOX/FLEX merged table. */
module Sif {
  import opened Values
  import opened Text
  import opened FileNames
  import opened Statistics

  /** The Python value handed to a band setter. `Bool` is separate because
      `isinstance(True, int)` holds, so a bool takes the int branch. */
  datatype WavelengthInput = Str(s: string) | Int(i: int) | Bool(b: bool) | Other

  /** `__check_input_wavelength__`: a string is accepted only when `isdigit()`
      holds and is returned unchanged; an int (or bool) is returned as
      `str(value)`; anything else raises ValueError. */
  function CheckInputWavelength(v: WavelengthInput): (r: Result<string>)
    ensures r.Err? ==> r.error == ValueError
    ensures r.Err? <==> v.Other? || (v.Str? && !IsDigitString(v.s))
    ensures v.Str? && r.Ok? ==> r.value == v.s
    ensures v.Int? && v.i >= 0 ==> r.Ok? && IsDigitString(r.value) && DigitsValue(r.value) == v.i
    ensures v.Int? && v.i < 0 ==> r.Ok? && !IsDigitString(r.value)
    ensures v.Bool? ==> r == Ok(if v.b then "True" else "False")
  {
    match v
    case Str(s) => if IsDigitString(s) then Ok(s) else Err(ValueError)
    case Int(i) =>
      if i >= 0 then
        NatToStringRoundTrip(i);
        Ok(IntToString(i))
      else
        NegativeIntStringIsNotDigits(i);
        Ok(IntToString(i))
    case Bool(b) => Ok(if b then "True" else "False")
    case Other => Err(ValueError)
  }

  /** A wavelength read back from a band and handed to a setter again is
      accepted unchanged exactly when it is a digit string: the text stored
      for a negative int or a bool is refused the second time. */
  lemma RecheckStoredWavelength(v: WavelengthInput)
    requires CheckInputWavelength(v).Ok?
    ensures var stored := CheckInputWavelength(v).value;
      CheckInputWavelength(Str(stored)) == (if IsDigitString(stored) then Ok(stored) else Err(ValueError))
    ensures v.Str? || (v.Int? && v.i >= 0) ==>
      CheckInputWavelength(Str(CheckInputWavelength(v).value)) == CheckInputWavelength(v)
    ensures v.Bool? || (v.Int? && v.i < 0) ==>
      CheckInputWavelength(Str(CheckInputWavelength(v).value)) == Err(ValueError)
  {
    if v.Bool? {
      assert !IsDigit('T') && !IsDigit('F');
      assert (if v.b then "True" else "False")[0] in {'T', 'F'};
    }
  }

  /** The four band settings of the class. */
  datatype Band = O2A | O2B | MaxRed | MaxFarred

  /** The header row of the record file. */
  const Header: seq<string> := ["site", "filename", "date", "time", "SIF_FARRED_max", "SIF_FARRED_max_wvl",
                                "SIF_RED_max", "SIF_RED_max_wvl", "SIF_O2B", "SIF_O2A", "SIF_int",
                                "SIF_O2B_un", "SIF_O2A_un"]

  /** The `SIF` object's own settings (its FLEX base part is the calval model). */
  class SifSettings {
    var bandO2A: string
    var bandO2B: string
    var bandMaxRed: string
    var bandMaxFarred: string
    var listHeader: seq<string>

    /** The header is never replaced. */
    predicate Valid()
      reads this
    {
      listHeader == Header
    }

    function BandValue(b: Band): string
      reads this
    {
      match b
      case O2A => bandO2A
      case O2B => bandO2B
      case MaxRed => bandMaxRed
      case MaxFarred => bandMaxFarred
    }

    /** The defaults: O2A 760 nm, O2B 686 nm, red maximum 684 nm, far-red
        maximum 740 nm. */
    constructor()
      ensures Valid()
      ensures BandValue(O2A) == "760" && BandValue(O2B) == "686"
      ensures BandValue(MaxRed) == "684" && BandValue(MaxFarred) == "740"
    {
      bandO2A, bandO2B, bandMaxRed, bandMaxFarred := "760", "686", "684", "740";
      listHeader := Header;
    }

    /** The four band setters. A refused value raises and leaves every band
        as it was; an accepted one changes only the band it names. */
    method SetBand(b: Band, v: WavelengthInput) returns (o: Outcome)
      requires Valid()
      modifies this
      ensures Valid()
      ensures o.Pass? <==> CheckInputWavelength(v).Ok?
      ensures o.Fail? ==> o.error == ValueError
      ensures BandValue(b) == (if o.Pass? then CheckInputWavelength(v).value else old(BandValue(b)))
      ensures forall c :: c != b ==> BandValue(c) == old(BandValue(c))
    {
      var checked := CheckInputWavelength(v);
      if checked.Err? {
        return Fail(checked.error);
      }
      match b {
        case O2A => bandO2A := checked.value;
        case O2B => bandO2B := checked.value;
        case MaxRed => bandMaxRed := checked.value;
        case MaxFarred => bandMaxFarred := checked.value;
      }
      o := Pass;
    }

    /** The `list_header` setter: a truthy value raises ValueError, a falsy one
        is ignored; the header never changes. */
    method SetListHeader(value: seq<string>) returns (o: Outcome)
      requires Valid()
      modifies this
      ensures Valid() && listHeader == old(listHeader)
      ensures o.Fail? <==> |value| > 0
      ensures o.Fail? ==> o.error == ValueError
      ensures forall c :: BandValue(c) == old(BandValue(c))
    {
      if |value| > 0 {
        return Fail(ValueError);
      }
      o := Pass;
    }
  }

  /** The quantities a record field can hold. */
  datatype Quantity =
    | Site | Filename | Date | Time
    | FarredMax | FarredMaxWvl | RedMax | RedMaxWvl
    | O2BAvg | O2AAvg | IntegratedAvg | O2BUncertainty | O2AUncertainty

  /** The column name under which each quantity belongs. */
  function Label(q: Quantity): string
  {
    match q
    case Site => "site"
    case Filename => "filename"
    case Date => "date"
    case Time => "time"
    case FarredMax => "SIF_FARRED_max"
    case FarredMaxWvl => "SIF_FARRED_max_wvl"
    case RedMax => "SIF_RED_max"
    case RedMaxWvl => "SIF_RED_max_wvl"
    case O2BAvg => "SIF_O2B"
    case O2AAvg => "SIF_O2A"
    case IntegratedAvg => "SIF_int"
    case O2BUncertainty => "SIF_O2B_un"
    case O2AUncertainty => "SIF_O2A_un"
  }

  /** Different quantities have different column names. */
  lemma LabelInjective(p: Quantity, q: Quantity)
    requires p != q
    ensures Label(p) != Label(q)
  {
  }

  /** The order in which `SIF_avg_output` lists the quantities. */
  const WrittenLayout: seq<Quantity> :=
    [Site, Filename, Date, Time, FarredMax, FarredMaxWvl, RedMax, RedMaxWvl,
     O2BAvg, O2AAvg, IntegratedAvg, O2AUncertainty, O2BUncertainty]

  /** The order the header announces. */
  const CorrectedLayout: seq<Quantity> :=
    [Site, Filename, Date, Time, FarredMax, FarredMaxWvl, RedMax, RedMaxWvl,
     O2BAvg, O2AAvg, IntegratedAvg, O2BUncertainty, O2AUncertainty]

  /** As written, the record agrees with the header everywhere except the two
      uncertainty fields: the column labelled `SIF_O2B_un` holds the O2A
      uncertainty and the column labelled `SIF_O2A_un` the O2B one. Both
      layouts list every quantity once and differ only by that swap. */
  lemma WrittenLayoutSwapsUncertainties()
    ensures |WrittenLayout| == |Header| == 13
    ensures forall i :: 0 <= i < 11 ==> Label(WrittenLayout[i]) == Header[i]
    ensures Header[11] == "SIF_O2B_un" && WrittenLayout[11] == O2AUncertainty
    ensures Header[12] == "SIF_O2A_un" && WrittenLayout[12] == O2BUncertainty
    ensures Label(WrittenLayout[11]) != Header[11] && Label(WrittenLayout[12]) != Header[12]
    ensures WrittenLayout == CorrectedLayout[..11] + [CorrectedLayout[12], CorrectedLayout[11]]
  {
    CorrectedLayoutMatchesHeader();
    assert WrittenLayout[..11] == CorrectedLayout[..11];
    forall i | 0 <= i < 11 ensures Label(WrittenLayout[i]) == Header[i] {
      assert WrittenLayout[i] == CorrectedLayout[i];
    }
  }

  /** In the corrected layout every field holds the quantity its header names. */
  lemma CorrectedLayoutMatchesHeader()
    ensures |CorrectedLayout| == |Header|
    ensures forall i :: 0 <= i < |Header| ==> Label(CorrectedLayout[i]) == Header[i]
  {
  }

  /** One record field: text or a number. */
  datatype Cell = Text(text: string) | Number(value: real)

  /** The seven 3 x 3 averages read from the FLEX product. */
  datatype Averages = Averages(farredMax: real, redMax: real, o2b: real, o2a: real,
                               integrated: real, o2bUncertainty: real, o2aUncertainty: real)

  /** The value a record gives to a quantity. */
  function CellOf(q: Quantity, site: string, filename: string, date: string, time: string,
                  farredWvl: string, redWvl: string, avg: Averages): Cell
  {
    match q
    case Site => Text(site)
    case Filename => Text(filename)
    case Date => Text(date)
    case Time => Text(time)
    case FarredMax => Number(avg.farredMax)
    case FarredMaxWvl => Text(farredWvl)
    case RedMax => Number(avg.redMax)
    case RedMaxWvl => Text(redWvl)
    case O2BAvg => Number(avg.o2b)
    case O2AAvg => Number(avg.o2a)
    case IntegratedAvg => Number(avg.integrated)
    case O2BUncertainty => Number(avg.o2bUncertainty)
    case O2AUncertainty => Number(avg.o2aUncertainty)
  }

  /** `SIF_avg_output`'s record in a given field order: the date and time are
      the last two `_` fields of the name before its first '.', and a name
      without '_' there makes `[-2]` raise IndexError. */
  function Record(layout: seq<Quantity>, site: string, filename: string,
                  farredWvl: string, redWvl: string, avg: Averages): (r: Result<seq<Cell>>)
    ensures r.Err? <==> FlexDateToken(filename).Err?
    ensures r.Err? ==> r.error == IndexError
    ensures r.Ok? ==> |r.value| == |layout|
    ensures r.Ok? ==> forall i :: 0 <= i < |layout| ==>
      r.value[i] == CellOf(layout[i], site, filename, FlexDateToken(filename).value, FlexTimeToken(filename),
                           farredWvl, redWvl, avg)
  {
    var date :- FlexDateToken(filename);
    var time := FlexTimeToken(filename);
    Ok(seq(|layout|, i requires 0 <= i < |layout| =>
      CellOf(layout[i], site, filename, date, time, farredWvl, redWvl, avg)))
  }

  /** The record as written: under the header `SIF_O2B_un` it stores the O2A
      uncertainty, and under `SIF_O2A_un` the O2B uncertainty. */
  lemma WrittenRecordMislabels(site: string, filename: string, farredWvl: string, redWvl: string, avg: Averages)
    requires FlexDateToken(filename).Ok?
    ensures var r := Record(WrittenLayout, site, filename, farredWvl, redWvl, avg).value;
      && |r| == |Header|
      && Header[11] == "SIF_O2B_un" && r[11] == Number(avg.o2aUncertainty)
      && Header[12] == "SIF_O2A_un" && r[12] == Number(avg.o2bUncertainty)
  {
  }

  /** The corrected record stores under every header the quantity it names,
      and its date and time are the tokens of the FLEX name. */
  lemma CorrectedRecordMatchesHeader(site: string, filename: string, farredWvl: string, redWvl: string,
                                     avg: Averages, i: nat)
    requires FlexDateToken(filename).Ok?
    requires i < |Header|
    ensures var r := Record(CorrectedLayout, site, filename, farredWvl, redWvl, avg).value;
      && |r| == |Header|
      && Label(CorrectedLayout[i]) == Header[i]
      && r[i] == CellOf(CorrectedLayout[i], site, filename, FlexDateToken(filename).value,
                        FlexTimeToken(filename), farredWvl, redWvl, avg)
      && r[2] == Text(FlexDateToken(filename).value) && r[3] == Text(FlexTimeToken(filename))
  {
    CorrectedLayoutMatchesHeader();
  }

  /** For a well-formed FLEX name, such as `PRS_TD_20230616_101431.nc` with
      '20230616' and '101431', the record's date and time fields are the
      name's date and time, in either layout. */
  lemma RecordTokensOfFlexName(layout: seq<Quantity>, site: string, date: string, time: string,
                               farredWvl: string, redWvl: string, avg: Averages)
    requires |date| == 8 && AllDigits(date) && |time| == 6 && AllDigits(time)
    requires |layout| == 13 && layout[2] == Date && layout[3] == Time
    ensures var r := Record(layout, site, FlexName(date, time), farredWvl, redWvl, avg);
      r.Ok? && r.value[2] == Text(date) && r.value[3] == Text(time)
  {
    FlexTokensRoundTrip(date, time);
  }

  /** The seven SIF metrics compared by `cal_statistic`. */
  datatype Metric = FarredMaxMetric | RedMaxMetric | O2BMetric | O2AMetric | IntegratedMetric
                  | O2BUncertaintyMetric | O2AUncertaintyMetric

  /** `column_pairs`, in its fixed order. */
  const ColumnPairs: seq<Metric> := [FarredMaxMetric, RedMaxMetric, O2BMetric, O2AMetric, IntegratedMetric,
                                     O2BUncertaintyMetric, O2AUncertaintyMetric]

  /** Every metric is compared exactly once. */
  lemma ColumnPairsCoverMetrics()
    ensures |ColumnPairs| == 7
    ensures forall m: Metric :: m in ColumnPairs
    ensures forall i, j :: 0 <= i < j < |ColumnPairs| ==> ColumnPairs[i] != ColumnPairs[j]
  {
    forall m: Metric ensures m in ColumnPairs {
      var k := match m
        case FarredMaxMetric => 0 case RedMaxMetric => 1 case O2BMetric => 2 case O2AMetric => 3
        case IntegratedMetric => 4 case O2BUncertaintyMetric => 5 case O2AUncertaintyMetric => 6;
      assert ColumnPairs[k] == m;
    }
  }

  /** One row of the merged table: the FLOX (`_flox`) and FLEX (`_flex`) value
      of every metric. */
  datatype MergedRow = MergedRow(flox: Metric -> real, flex: Metric -> real)

  /** The FLEX column of a metric (`df_merge[pair[1]]`). */
  function FlexColumn(rows: seq<MergedRow>, m: Metric): (c: seq<real>)
    ensures |c| == |rows| && forall i :: 0 <= i < |rows| ==> c[i] == rows[i].flex(m)
  {
    seq(|rows|, i requires 0 <= i < |rows| => rows[i].flex(m))
  }

  /** The FLOX column of a metric (`df_merge[pair[0]]`). */
  function FloxColumn(rows: seq<MergedRow>, m: Metric): (c: seq<real>)
    ensures |c| == |rows| && forall i :: 0 <= i < |rows| ==> c[i] == rows[i].flox(m)
  {
    seq(|rows|, i requires 0 <= i < |rows| => rows[i].flox(m))
  }

  /** The four statistics of one metric, FLEX as `x` and FLOX as `y`. */
  datatype MetricStatistics = MetricStatistics(r2: Option<real>, rmseSquared: Option<real>,
                                               meanResidual: Option<real>, randomUncertainty: Option<real>)

  /** What `cal_statistic` computes for metric `m`. */
  function StatisticsOf(rows: seq<MergedRow>, m: Metric): MetricStatistics
  {
    var x, y := FlexColumn(rows, m), FloxColumn(rows, m);
    var mr := MeanResidual(x, y);
    MetricStatistics(RSquared(x, y), RmseSquared(x, y), mr, RandomUncertainty(x, y, mr))
  }

  /** For a non-empty merged table the statistics of a metric are all defined
      except R² on a constant FLEX column; the mean residual is the FLEX bias,
      the random uncertainty and RMSE² are non-negative, and RMSE² splits into
      the random uncertainty plus the squared bias. */
  lemma StatisticsOfMeaning(rows: seq<MergedRow>, m: Metric)
    requires |rows| > 0
    ensures var s := StatisticsOf(rows, m);
      var x, y := FlexColumn(rows, m), FloxColumn(rows, m);
      && s.meanResidual == Some(Mean(x).value - Mean(y).value)
      && s.rmseSquared.Some? && s.rmseSquared.value >= 0.0
      && s.randomUncertainty.Some? && s.randomUncertainty.value >= 0.0
      && s.rmseSquared.value == s.randomUncertainty.value + s.meanResidual.value * s.meanResidual.value
      && (s.r2.None? <==> AllEqual(x, x[0]))
      && (s.rmseSquared.value == 0.0 <==> x == y)
  {
    var s := StatisticsOf(rows, m);
    var x, y := FlexColumn(rows, m), FloxColumn(rows, m);
    assert s == MetricStatistics(RSquared(x, y), RmseSquared(x, y), MeanResidual(x, y),
                                 RandomUncertainty(x, y, MeanResidual(x, y)));
    assert s.meanResidual == Some(Mean(x).value - Mean(y).value) by {
      MeanResidualIsBias(x, y);
    }
    assert s.rmseSquared.Some? && s.rmseSquared.value >= 0.0 && (s.rmseSquared.value == 0.0 <==> x == y) by {
      RmseSquaredZeroIffEqual(x, y);
    }
    assert s.randomUncertainty.Some? && s.randomUncertainty.value >= 0.0 by {
      RandomUncertaintyNonNegative(x, y, MeanResidual(x, y).value);
    }
    assert s.rmseSquared.value == s.randomUncertainty.value + s.meanResidual.value * s.meanResidual.value by {
      RmseSplitsIntoBiasAndNoise(x, y);
    }
    assert s.r2.None? <==> AllEqual(x, x[0]) by {
      RSquaredDefinedIffVaries(x, y);
    }
  }

  /** An empty merged table (no site in common) leaves every statistic undefined. */
  lemma EmptyMergeHasNoStatistics(m: Metric)
    ensures StatisticsOf([], m) == MetricStatistics(None, None, None, None)
  {
  }

  /** `cal_statistic`'s loop over `column_pairs`: one entry per pair is
      appended to each of the four result lists, in pair order. */
  method CalStatistic(rows: seq<MergedRow>)
    returns (r2s: seq<Option<real>>, rmses: seq<Option<real>>, means: seq<Option<real>>, randoms: seq<Option<real>>)
    ensures |r2s| == |rmses| == |means| == |randoms| == |ColumnPairs|
    ensures forall k :: 0 <= k < |ColumnPairs| ==>
      StatisticsOf(rows, ColumnPairs[k]) == MetricStatistics(r2s[k], rmses[k], means[k], randoms[k])
    ensures |rows| > 0 ==> forall k :: 0 <= k < |ColumnPairs| ==>
      randoms[k].Some? && randoms[k].value >= 0.0 && rmses[k].Some? && rmses[k].value >= 0.0
  {
    r2s, rmses, means, randoms := [], [], [], [];
    for k := 0 to |ColumnPairs|
      invariant |r2s| == |rmses| == |means| == |randoms| == k
      invariant forall j :: 0 <= j < k ==>
        StatisticsOf(rows, ColumnPairs[j]) == MetricStatistics(r2s[j], rmses[j], means[j], randoms[j])
      invariant |rows| > 0 ==> forall j :: 0 <= j < k ==>
        randoms[j].Some? && randoms[j].value >= 0.0 && rmses[j].Some? && rmses[j].value >= 0.0
    {
      var m := ColumnPairs[k];
      var x, y := FlexColumn(rows, m), FloxColumn(rows, m);
      var mr := MeanResidual(x, y);
      var s := MetricStatistics(RSquared(x, y), RmseSquared(x, y), mr, RandomUncertainty(x, y, mr));
      if |rows| > 0 {
        StatisticsOfMeaning(rows, m);
      }
      r2s, rmses, means, randoms := r2s + [s.r2], rmses + [s.rmseSquared], means + [s.meanResidual],
                                    randoms + [s.randomUncertainty];
    }
  }
}
