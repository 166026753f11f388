/** The `FLEX` and `S2` configuration classes of `class_calval.py`, the ones
    `Main.py` drives. Each holds a few numeric settings behind validating
    setters; a rejected value raises and leaves the object as it was. The
    FLEX ROI setter stores an accepted value under a second attribute
    (`_area_ROI`) instead of the one the getter reads (`_area_roi`), so the
    getter keeps returning 900; `SetAreaRoi` models that, `SetAreaRoiCorrected`
    the intended behaviour. The pure parts of the S2 methods (box arithmetic,
    mask gate, CV flag) are the functions of `Roi` and `Quality` applied to
    the object's settings. */
module Calval {
  import opened Values
  import opened Roi
  import opened Grid
  import opened Quality

  /** `FLEX._FLEX_RESOLUTION`, the FLEX pixel size in metres. */
  const FlexResolution: int := 300

  /** `S2.__S2_RESOLUTION`, the Sentinel-2 pixel size in metres. */
  const S2Resolution: int := 10

  /** An ROI side the FLEX setter accepts: whole FLEX pixels, at least one. */
  predicate IsFlexSide(v: int)
  {
    v >= FlexResolution && v % FlexResolution == 0
  }

  /** An ROI side the S2 setter accepts: whole S2 pixels, at least one. */
  predicate IsS2Side(v: int)
  {
    v >= S2Resolution && v % S2Resolution == 0
  }

  /** A fraction in [0, 1], as the cloud and vegetation setters demand. */
  predicate IsFraction(v: real)
  {
    0.0 <= v <= 1.0
  }

  class Flex {
    /** `_area_roi`, the attribute the `area_roi` getter reads. */
    var areaRoi: int
    /** `_area_ROI`, the attribute the setter creates; absent until the first
        accepted assignment. */
    var areaRoiWritten: Option<int>
    /** `_vegetation_pixel`. */
    var vegetationPixel: real

    ghost predicate Valid()
      reads this
    {
      && IsFlexSide(areaRoi)
      && (areaRoiWritten.Some? ==> IsFlexSide(areaRoiWritten.value))
      && IsFraction(vegetationPixel)
    }

    /** The defaults of `FLEX.__init__`: a 900 m ROI and a 0.5 vegetation share. */
    constructor()
      ensures Valid()
      ensures areaRoi == 900 && areaRoiWritten == None && vegetationPixel == 0.5
    {
      areaRoi := 900;
      areaRoiWritten := None;
      vegetationPixel := 0.5;
    }

    /** The `area_roi` setter as written: it rejects a side that is not a
        positive whole number of FLEX pixels, and stores an accepted one in
        `_area_ROI`, leaving `_area_roi` (what the getter returns) untouched. */
    method SetAreaRoi(v: int) returns (o: Outcome)
      requires Valid()
      modifies this
      ensures Valid()
      ensures o.Pass? <==> IsFlexSide(v)
      ensures o.Fail? ==> o.error == ValueError
      ensures areaRoi == old(areaRoi)
      ensures areaRoiWritten == if o.Pass? then Some(v) else old(areaRoiWritten)
      ensures vegetationPixel == old(vegetationPixel)
    {
      if v < FlexResolution {
        return Fail(ValueError);
      }
      if v % FlexResolution != 0 {
        return Fail(ValueError);
      }
      areaRoiWritten := Some(v);
      return Pass;
    }

    /** The intended setter: the same checks, and an accepted side is what
        the getter reads back. */
    method SetAreaRoiCorrected(v: int) returns (o: Outcome)
      requires Valid()
      modifies this
      ensures Valid()
      ensures o.Pass? <==> IsFlexSide(v)
      ensures o.Fail? ==> o.error == ValueError
      ensures areaRoi == if o.Pass? then v else old(areaRoi)
      ensures areaRoiWritten == old(areaRoiWritten)
      ensures vegetationPixel == old(vegetationPixel)
    {
      if v < FlexResolution {
        return Fail(ValueError);
      }
      if v % FlexResolution != 0 {
        return Fail(ValueError);
      }
      areaRoi := v;
      return Pass;
    }

    /** The `vegetation_pixel` setter: only a share in [0, 1] is stored. */
    method SetVegetationPixel(v: real) returns (o: Outcome)
      requires Valid()
      modifies this
      ensures Valid()
      ensures o.Pass? <==> IsFraction(v)
      ensures o.Fail? ==> o.error == ValueError
      ensures vegetationPixel == if o.Pass? then v else old(vegetationPixel)
      ensures areaRoi == old(areaRoi) && areaRoiWritten == old(areaRoiWritten)
    {
      if v < 0.0 || v > 1.0 {
        return Fail(ValueError);
      }
      vegetationPixel := v;
      return Pass;
    }
  }

  /** Setting the FLEX ROI to 600 m on a fresh object: the setter accepts the
      value, yet the getter still reads 900, and 600 sits in the stray
      attribute. */
  method AreaRoiSetterLosesValue() returns (accepted: bool, readBack: int, stray: Option<int>)
    ensures accepted && readBack == 900 && stray == Some(600)
  {
    var flex := new Flex();
    var o := flex.SetAreaRoi(600);
    accepted, readBack, stray := o.Pass?, flex.areaRoi, flex.areaRoiWritten;
  }

  /** The same assignment through the corrected setter reads back 600. */
  method AreaRoiCorrectedKeepsValue() returns (accepted: bool, readBack: int)
    ensures accepted && readBack == 600
  {
    var flex := new Flex();
    var o := flex.SetAreaRoiCorrected(600);
    accepted, readBack := o.Pass?, flex.areaRoi;
  }

  class S2 {
    /** `_threshold_cv`. */
    var thresholdCv: real
    /** `_area`, the ROI side in metres. */
    var area: int
    /** `_cloud`, the least share of clear pixels an image needs. */
    var cloud: real

    ghost predicate Valid()
      reads this
    {
      thresholdCv > 0.0 && IsS2Side(area) && IsFraction(cloud)
    }

    /** The defaults of `S2.__init__`: CV threshold 0.2, a 900 m ROI, 0.5 cloud share. */
    constructor()
      ensures Valid()
      ensures thresholdCv == 0.2 && area == 900 && cloud == 0.5
    {
      thresholdCv := 0.2;
      area := 900;
      cloud := 0.5;
    }

    /** The `s2_resolution` setter: a truthy value raises AttributeError, a
        falsy one is silently ignored; the resolution is never changed. */
    method SetS2Resolution(value: int) returns (o: Outcome)
      ensures o.Fail? <==> value != 0
      ensures o.Fail? ==> o.error == AttributeError
    {
      if value != 0 {
        return Fail(AttributeError);
      }
      return Pass;
    }

    /** The `threshold_cv` setter: only a positive threshold is stored. */
    method SetThresholdCv(v: real) returns (o: Outcome)
      requires Valid()
      modifies this
      ensures Valid()
      ensures o.Pass? <==> v > 0.0
      ensures o.Fail? ==> o.error == ValueError
      ensures thresholdCv == if o.Pass? then v else old(thresholdCv)
      ensures area == old(area) && cloud == old(cloud)
    {
      if v <= 0.0 {
        return Fail(ValueError);
      }
      thresholdCv := v;
      return Pass;
    }

    /** The `area` setter: the side must be at least one pixel and a whole
        number of 10 m pixels. */
    method SetArea(v: int) returns (o: Outcome)
      requires Valid()
      modifies this
      ensures Valid()
      ensures o.Pass? <==> IsS2Side(v)
      ensures o.Fail? ==> o.error == ValueError
      ensures area == if o.Pass? then v else old(area)
      ensures thresholdCv == old(thresholdCv) && cloud == old(cloud)
    {
      if v < S2Resolution {
        return Fail(ValueError);
      }
      if v % S2Resolution != 0 {
        return Fail(ValueError);
      }
      area := v;
      return Pass;
    }

    /** The `cloud` setter: only a share in [0, 1] is stored. */
    method SetCloud(v: real) returns (o: Outcome)
      requires Valid()
      modifies this
      ensures Valid()
      ensures o.Pass? <==> IsFraction(v)
      ensures o.Fail? ==> o.error == ValueError
      ensures cloud == if o.Pass? then v else old(cloud)
      ensures thresholdCv == old(thresholdCv) && area == old(area)
    {
      if v < 0.0 || v > 1.0 {
        return Fail(ValueError);
      }
      cloud := v;
      return Pass;
    }

    /** `create_shapefile` with this object's ROI side. With readable CRS
        texts it raises SystemExit exactly when the EPSG codes differ; the box
        it returns is centred on the snapped pixel and, the side being a whole
        number of pixels, spans an odd number of 10 m pixels. */
    function CreateShapefile(initL1C: string, initL2A: string, px: real, py: real): (r: Result<Box>)
      requires Valid()
      reads this
      ensures ':' !in initL1C || ':' !in initL2A ==> r == Err(IndexError)
      ensures ':' in initL1C && ':' in initL2A ==>
        (r.Err? <==> CrsCode(initL1C).value != CrsCode(initL2A).value)
      ensures r.Err? ==> r.error == IndexError || r.error == SystemExit
      ensures r.Ok? ==>
        && (r.value.left + r.value.right) / 2.0 == px
        && (r.value.bottom + r.value.top) / 2.0 == py
        && r.value.right - r.value.left == r.value.top - r.value.bottom
        && r.value.right - r.value.left == (10 * (2 * (area / 10 / 2) + 1)) as real
    {
      CardinalDistanceEndsInFive(area);
      BoxIsCentredSquare(area, px, py);
      Roi.CreateShapefile(initL1C, initL2A, Checked(area), px, py)
    }

    /** `cal_valid_pixels` as written. An empty mask raises ValueError; a
        mask with no flagged cell passes with `(area / 10) ** 2` valid pixels
        and ratio 1; a cloudy mask reaches the call to `clip_RasterbySHP`,
        which this class does not define, and raises AttributeError. */
    function CalValidPixels(combined: Grid<int>, clipped: Grid<int>): (r: Result<Validity>)
      reads this
      ensures |Flatten(combined)| == 0 ==> r == Err(ValueError)
      ensures |Flatten(combined)| > 0 && !HasPositive(combined) ==>
        r == Ok(Validity(true, ShortCutCount(area), 1.0))
      ensures |Flatten(combined)| > 0 && HasPositive(combined) ==> r == Err(AttributeError)
    {
      if |Flatten(combined)| > 0 && !HasPositive(combined) then
        ClearMaskShortCut(false, Checked(area), Checked(cloud), combined, clipped);
        ValidPixels(false, Checked(area), Checked(cloud), combined, clipped)
      else if |Flatten(combined)| > 0 then
        MissingClipRaises(Checked(area), Checked(cloud), combined, clipped);
        ValidPixels(false, Checked(area), Checked(cloud), combined, clipped)
      else
        ValidPixels(false, Checked(area), Checked(cloud), combined, clipped)
    }

    /** `cal_valid_pixels` with the clip call resolved to the class's
        `clip_raster_by_shapefile`: a cloudy mask whose clipped part is also
        cloudy passes exactly when the share of clear clipped cells reaches
        the cloud threshold, and that share lies in [0, 1). */
    function CalValidPixelsCorrected(combined: Grid<int>, clipped: Grid<int>): (r: Result<Validity>)
      reads this
      ensures |Flatten(combined)| == 0 ==> r == Err(ValueError)
      ensures |Flatten(combined)| > 0 && !HasPositive(combined) ==>
        r == Ok(Validity(true, ShortCutCount(area), 1.0))
      ensures |Flatten(combined)| > 0 && HasPositive(combined) && |Flatten(clipped)| > 0 && !HasPositive(clipped) ==>
        r == Ok(Validity(true, ShortCutCount(area), 1.0))
      ensures |Flatten(combined)| > 0 && HasPositive(combined) && HasPositive(clipped) ==>
        && r.Ok?
        && |Flatten(clipped)| > 0
        && r.value.validCount == CountZero(Flatten(clipped)) as real
        && r.value.ratio == CountZero(Flatten(clipped)) as real / |Flatten(clipped)| as real
        && 0.0 <= r.value.ratio < 1.0
        && (r.value.passed <==> r.value.ratio >= cloud)
    {
      if |Flatten(combined)| == 0 then
        ValidPixels(true, Checked(area), Checked(cloud), combined, clipped)
      else if !HasPositive(combined) then
        ClearMaskShortCut(true, Checked(area), Checked(cloud), combined, clipped);
        ValidPixels(true, Checked(area), Checked(cloud), combined, clipped)
      else if HasPositive(clipped) then
        CloudyBranch(Checked(cloud), Checked(area), combined, clipped);
        CloudyVerdictMeaning(cloud, clipped);
        ValidPixels(true, Checked(area), Checked(cloud), combined, clipped)
      else if |Flatten(clipped)| > 0 then
        ClearClipShortCut(Checked(area), Checked(cloud), combined, clipped);
        ValidPixels(true, Checked(area), Checked(cloud), combined, clipped)
      else
        ValidPixels(true, Checked(area), Checked(cloud), combined, clipped)
    }

    /** `cal_flag`: 1 when the CV is at most the threshold, 0 when it is above. */
    function CalFlag(cv: real): (r: int)
      reads this
      ensures r == 1 <==> cv <= thresholdCv
      ensures r == 0 <==> cv > thresholdCv
    {
      CvFlag(cv, Checked(thresholdCv)).value
    }
  }

  /** The short cuts of `cal_valid_pixels` report `(area / 10) ** 2` valid
      pixels, while the box `create_shapefile` clips spans `2 * (area / 10 / 2) + 1`
      pixels per side. The two agree exactly when the side holds an odd number
      of pixels; for the default 900 m (90 pixels) the box holds 91 x 91. */
  lemma ShortCutCountVersusBox(area: int)
    requires IsS2Side(area)
    ensures var n := 2 * (area / 10 / 2) + 1;
      ShortCutCount(area) == (n as real) * (n as real) <==> (area / 10) % 2 == 1
  {
    var k := area / 10;
    var n := 2 * (k / 2) + 1;
    assert area as real / 10.0 == k as real;
    var x := k as real;
    if k % 2 == 1 {
      assert n == k;
    } else {
      assert n == k + 1;
      assert (n as real) * (n as real) == x * x + 2.0 * x + 1.0;
      assert x >= 1.0;
    }
  }

  /** Raising the CV threshold never turns a flag of 1 into 0. */
  lemma CalFlagMonotone(s: S2, t: S2, cv: real)
    requires s.thresholdCv <= t.thresholdCv
    ensures s.CalFlag(cv) <= t.CalFlag(cv)
  {
  }
}
