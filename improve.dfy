/** The `FLEX` and `S2` classes of `class_improve.py`, the ones
    `main_improve.py` drives, and their shared `get_site_info`.

    Unlike `class_calval.py`, the FLEX ROI setter here stores what the
    getter reads. The FLEX resolution "setter" is a plain method that
    replaces the property of the same name: calling it with a truthy value
    raises, and nothing ever writes the resolution after construction. The
    driver assigns raw configuration text straight to the private
    attributes, so every setting is a `Setting` that may hold text. */
module Improve {
  import opened Values
  import opened Tables
  import opened Roi
  import opened Grid
  import opened Quality
  import Calval

  /** Whether every cell of a column is present. */
  predicate AllPresent(cells: seq<CsvCell>)
  {
    forall i :: 0 <= i < |cells| ==> !cells[i].Missing?
  }

  /** `pd.to_numeric(column, errors='coerce').notna().all()`: every cell is a
      number, or text that parses as a number (`parses` stands for pandas'
      float parser). */
  predicate AllNumeric(cells: seq<CsvCell>, parses: string -> bool)
  {
    forall i :: 0 <= i < |cells| ==>
      cells[i].Number? || (cells[i].Text? && parses(cells[i].s))
  }

  /** `np.isnan(element)` on one cell: true for a missing cell, false for a
      number, and TypeError for a present cell of a text column, which
      pandas holds as a `str`. */
  function IsNaN(cell: CsvCell, textColumn: bool): Result<bool>
  {
    if cell.Missing? then Ok(true)
    else if textColumn then Err(TypeError)
    else Ok(false)
  }

  /** `any(np.isnan(element) for element in column)`: stops at the first
      element that is NaN or raises. */
  function AnyIsNaN(cells: seq<CsvCell>, textColumn: bool): (r: Result<bool>)
    ensures !textColumn ==> r == Ok(exists i :: 0 <= i < |cells| && cells[i].Missing?)
    ensures textColumn && |cells| > 0 ==> r == IsNaN(cells[0], textColumn)
    decreases |cells|
  {
    if |cells| == 0 then Ok(false)
    else
      var first :- IsNaN(cells[0], textColumn);
      if first then Ok(true)
      else
        var rest := AnyIsNaN(cells[1..], textColumn);
        assert forall i :: 1 <= i < |cells| ==> cells[i] == cells[1..][i - 1];
        rest
  }

  /** The longitude scan of `get_site_info`: a NaN makes `any` true and the
      caller raises ValueError, while `np.isnan` raises TypeError on text.
      A column holding any text is all text, so the scan fails at its
      first cell: ValueError when that cell is missing, TypeError
      otherwise. A numeric column passes exactly when no cell is missing. */
  function NaNScan(cells: seq<CsvCell>): (o: Outcome)
    ensures o.Pass? <==> forall i :: 0 <= i < |cells| ==> cells[i].Number?
    ensures o == Fail(TypeError) <==> TextColumn(cells) && !cells[0].Missing?
    ensures o.Fail? ==> o.error == ValueError || o.error == TypeError
  {
    var any := AnyIsNaN(cells, TextColumn(cells));
    if any.Err? then Fail(any.error)
    else if any.value then Fail(ValueError)
    else Pass
  }

  /** One row of the table `get_site_info` returns: the site name as text,
      the latitude and longitude cells as read. */
  datatype Site = Site(name: string, lat: CsvCell, lon: CsvCell)

  /** `get_site_info`: every site name present, every latitude present and
      numeric, every longitude a number; otherwise ValueError (or TypeError
      from `np.isnan` on a text longitude). Every site name is converted
      with `str`, so a numeric name becomes its text. No range is checked. */
  function GetSiteInfo(rows: seq<SiteRow>, parses: string -> bool, numberText: real -> string): (r: Result<seq<Site>>)
    ensures r.Ok? <==>
      && AllPresent(Sites(rows))
      && AllPresent(Latitudes(rows)) && AllNumeric(Latitudes(rows), parses)
      && forall i :: 0 <= i < |rows| ==> rows[i].lon.Number?
    ensures r.Ok? ==> |r.value| == |rows|
    ensures r.Ok? ==> forall i :: 0 <= i < |rows| ==>
      && r.value[i].lat == rows[i].lat && r.value[i].lon == rows[i].lon
      && (rows[i].site.Text? ==> r.value[i].name == rows[i].site.s)
      && (rows[i].site.Number? ==> r.value[i].name == numberText(rows[i].site.x))
    ensures r.Err? ==> r.error == ValueError || r.error == TypeError
  {
    if !AllPresent(Sites(rows)) then Err(ValueError)
    else if !AllPresent(Latitudes(rows)) then Err(ValueError)
    else if !AllNumeric(Latitudes(rows), parses) then Err(ValueError)
    else
      var scan := NaNScan(Longitudes(rows));
      if scan.Fail? then Err(scan.error)
      else if !AllNumeric(Longitudes(rows), parses) then Err(ValueError)
      else Ok(seq(|rows|, i requires 0 <= i < |rows| && !rows[i].site.Missing? =>
                Site(CellText(rows[i].site, numberText), rows[i].lat, rows[i].lon)))
  }

  /** Coordinates are never range-checked: any numeric latitude and longitude
      pass, such as a latitude of 1000 degrees, and a numeric site name
      becomes its text. */
  lemma NoRangeCheck(site: CsvCell, lat: real, lon: real, parses: string -> bool, numberText: real -> string)
    requires !site.Missing?
    ensures GetSiteInfo([SiteRow(site, Number(lat), Number(lon))], parses, numberText)
         == Ok([Site(CellText(site, numberText), Number(lat), Number(lon))])
  {
    var rows := [SiteRow(site, Number(lat), Number(lon))];
    assert Sites(rows)[0] == site && Latitudes(rows)[0] == Number(lat) && Longitudes(rows)[0] == Number(lon);
    var r := GetSiteInfo(rows, parses, numberText);
    assert r.Ok? && |r.value| == 1;
    assert r.value[0] == Site(CellText(site, numberText), Number(lat), Number(lon));
    assert r.value == [Site(CellText(site, numberText), Number(lat), Number(lon))];
  }

  /** A longitude column holding any text stops the table at its first
      cell: TypeError from `np.isnan` on a `str`, or ValueError when that
      cell is missing. The numeric check after the scan is never reached. */
  lemma {:induction false} TextLongitudesStopAtFirstCell(rows: seq<SiteRow>, parses: string -> bool, numberText: real -> string)
    requires AllPresent(Sites(rows)) && AllPresent(Latitudes(rows)) && AllNumeric(Latitudes(rows), parses)
    requires TextColumn(Longitudes(rows))
    ensures GetSiteInfo(rows, parses, numberText) == Err(if rows[0].lon.Missing? then ValueError else TypeError)
  {
    var k :| 0 <= k < |rows| && Longitudes(rows)[k].Text?;
    assert !rows[k].lon.Number?;
  }

  class Flex {
    /** `__FLEX_RESOLUTION`. */
    var resolution: int
    /** `_area_ROI`. */
    var areaRoi: Setting<int>
    /** `_vegetation_pixel`. */
    var vegetationPixel: Setting<real>

    /** The resolution is the one written by the constructor, and every
        checked setting obeys its setter; raw text assigned by the driver is
        unconstrained. */
    ghost predicate Valid()
      reads this
    {
      && resolution == Calval.FlexResolution
      && (areaRoi.Checked? ==> Calval.IsFlexSide(areaRoi.value))
      && (vegetationPixel.Checked? ==> Calval.IsFraction(vegetationPixel.value))
    }

    /** The defaults of `FLEX.__init__`. */
    constructor()
      ensures Valid()
      ensures areaRoi == Checked(900) && vegetationPixel == Checked(0.5)
    {
      resolution := Calval.FlexResolution;
      areaRoi := Checked(900);
      vegetationPixel := Checked(0.5);
    }

    /** `flex.flex_resolution(value)`: the plain method that replaced the
        property. A truthy value raises AttributeError; a falsy one does
        nothing. Either way the resolution stays what it was. */
    method FlexResolution(value: int) returns (o: Outcome)
      ensures o.Fail? <==> value != 0
      ensures o.Fail? ==> o.error == AttributeError
    {
      if value != 0 {
        return Fail(AttributeError);
      }
      return Pass;
    }

    /** The `vegetation_pixel` setter. */
    method SetVegetationPixel(v: real) returns (o: Outcome)
      requires Valid()
      modifies this
      ensures Valid()
      ensures o.Pass? <==> Calval.IsFraction(v)
      ensures o.Fail? ==> o.error == ValueError
      ensures vegetationPixel == if o.Pass? then Checked(v) else old(vegetationPixel)
      ensures areaRoi == old(areaRoi) && resolution == old(resolution)
    {
      if v < 0.0 || v > 1.0 {
        return Fail(ValueError);
      }
      vegetationPixel := Checked(v);
      return Pass;
    }

    /** The `area_ROI` setter: a positive whole number of FLEX pixels is
        stored where the getter reads it. */
    method SetAreaRoi(v: int) returns (o: Outcome)
      requires Valid()
      modifies this
      ensures Valid()
      ensures o.Pass? <==> Calval.IsFlexSide(v)
      ensures o.Fail? ==> o.error == ValueError
      ensures areaRoi == if o.Pass? then Checked(v) else old(areaRoi)
      ensures vegetationPixel == old(vegetationPixel) && resolution == old(resolution)
    {
      if v < resolution {
        return Fail(ValueError);
      }
      if v % resolution != 0 {
        return Fail(ValueError);
      }
      areaRoi := Checked(v);
      return Pass;
    }
  }

  /** Setting the ROI to 600 m on a fresh object reads back 600, and the
      resolution is still 300. */
  method AreaRoiReadsBack() returns (readBack: Setting<int>, resolution: int)
    ensures readBack == Checked(600) && resolution == 300
  {
    var flex := new Flex();
    var _ := flex.SetAreaRoi(600);
    var _ := flex.FlexResolution(500);
    readBack, resolution := flex.areaRoi, flex.resolution;
  }

  class S2 {
    /** `_threshold_CV`. */
    var thresholdCv: Setting<real>
    /** `_area`. */
    var area: Setting<int>
    /** `_cloud`. */
    var cloud: Setting<real>

    ghost predicate Valid()
      reads this
    {
      && (thresholdCv.Checked? ==> thresholdCv.value > 0.0)
      && (area.Checked? ==> Calval.IsS2Side(area.value))
      && (cloud.Checked? ==> Calval.IsFraction(cloud.value))
    }

    /** The defaults of `S2.__init__`. */
    constructor()
      ensures Valid()
      ensures thresholdCv == Checked(0.2) && area == Checked(900) && cloud == Checked(0.5)
    {
      thresholdCv := Checked(0.2);
      area := Checked(900);
      cloud := Checked(0.5);
    }

    /** The `s2_resolution` setter: a truthy value raises AttributeError. */
    method SetS2Resolution(value: int) returns (o: Outcome)
      ensures o.Fail? <==> value != 0
      ensures o.Fail? ==> o.error == AttributeError
    {
      if value != 0 {
        return Fail(AttributeError);
      }
      return Pass;
    }

    /** The `threshold_CV` setter. */
    method SetThresholdCv(v: real) returns (o: Outcome)
      requires Valid()
      modifies this
      ensures Valid()
      ensures o.Pass? <==> v > 0.0
      ensures o.Fail? ==> o.error == ValueError
      ensures thresholdCv == if o.Pass? then Checked(v) else old(thresholdCv)
      ensures area == old(area) && cloud == old(cloud)
    {
      if v <= 0.0 {
        return Fail(ValueError);
      }
      thresholdCv := Checked(v);
      return Pass;
    }

    /** The `area` setter. */
    method SetArea(v: int) returns (o: Outcome)
      requires Valid()
      modifies this
      ensures Valid()
      ensures o.Pass? <==> Calval.IsS2Side(v)
      ensures o.Fail? ==> o.error == ValueError
      ensures area == if o.Pass? then Checked(v) else old(area)
      ensures thresholdCv == old(thresholdCv) && cloud == old(cloud)
    {
      if v < Calval.S2Resolution {
        return Fail(ValueError);
      }
      if v % Calval.S2Resolution != 0 {
        return Fail(ValueError);
      }
      area := Checked(v);
      return Pass;
    }

    /** The `cloud` setter. */
    method SetCloud(v: real) returns (o: Outcome)
      requires Valid()
      modifies this
      ensures Valid()
      ensures o.Pass? <==> Calval.IsFraction(v)
      ensures o.Fail? ==> o.error == ValueError
      ensures cloud == if o.Pass? then Checked(v) else old(cloud)
      ensures thresholdCv == old(thresholdCv) && area == old(area)
    {
      if v < 0.0 || v > 1.0 {
        return Fail(ValueError);
      }
      cloud := Checked(v);
      return Pass;
    }

    /** `create_shapefile` with this object's side: with readable CRS texts
        it raises SystemExit exactly when the EPSG codes differ; with
        matching codes a side holding raw text raises TypeError, and a
        checked side gives the centred box of `Roi.BoxAround`. */
    function CreateShapefile(initL1C: string, initL2A: string, px: real, py: real): (r: Result<Box>)
      requires Valid()
      reads this
      ensures ':' in initL1C && ':' in initL2A && CrsCode(initL1C).value != CrsCode(initL2A).value ==>
        r == Err(SystemExit)
      ensures ':' in initL1C && ':' in initL2A && CrsCode(initL1C).value == CrsCode(initL2A).value ==>
        && (area.RawText? ==> r == Err(TypeError))
        && (area.Checked? ==> r == Ok(BoxAround(area.value, px, py)))
      ensures r.Ok? ==>
        && area.Checked?
        && r.value.right - r.value.left == (10 * (2 * (area.value / 10 / 2) + 1)) as real
    {
      if area.Checked? then
        CardinalDistanceEndsInFive(area.value);
        BoxIsCentredSquare(area.value, px, py);
        Roi.CreateShapefile(initL1C, initL2A, area, px, py)
      else
        Roi.CreateShapefile(initL1C, initL2A, area, px, py)
    }

    /** `cal_valid_pixels`: the clear short cut, and AttributeError on a cloudy
        mask because `clip_RasterbySHP` is not defined in this class either. */
    function CalValidPixels(combined: Grid<int>, clipped: Grid<int>): (r: Result<Validity>)
      reads this
      ensures |Flatten(combined)| == 0 ==> r == Err(ValueError)
      ensures |Flatten(combined)| > 0 && !HasPositive(combined) ==> r == AllClear(area)
      ensures |Flatten(combined)| > 0 && HasPositive(combined) ==> r == Err(AttributeError)
    {
      if |Flatten(combined)| > 0 && !HasPositive(combined) then
        ClearMaskShortCut(false, area, cloud, combined, clipped);
        ValidPixels(false, area, cloud, combined, clipped)
      else if |Flatten(combined)| > 0 then
        MissingClipRaises(area, cloud, combined, clipped);
        ValidPixels(false, area, cloud, combined, clipped)
      else
        ValidPixels(false, area, cloud, combined, clipped)
    }

    /** `cal_Flag`: 1 iff the CV is at most the threshold; a threshold holding
        raw text raises TypeError. */
    function CalFlag(cv: real): (r: Result<int>)
      reads this
      ensures r.Err? <==> thresholdCv.RawText?
      ensures r.Ok? ==> (r.value == 1 <==> cv <= thresholdCv.value) && (r.value == 0 <==> cv > thresholdCv.value)
    {
      CvFlag(cv, thresholdCv)
    }
  }
}
