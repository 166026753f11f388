/** The `S2` and `FLEX` classes of the archived `Class.py`, the ones
    `Archived/Main.py` drives. Its S2 `area` setter only checks divisibility
    by 10, so 0 and negative multiples of 10 are stored; the later classes
    also demand at least one pixel. Its S2 class does define
    `clip_RasterbySHP`, so the cloudy branch of the mask gate is reachable.
    Its FLEX class has a read-only vegetation share. */
module ClassPy {
  import opened Values
  import opened Tables
  import opened Roi
  import opened Grid
  import opened Quality
  import Calval

  /** What the `area` setter of this file accepts: a multiple of 10, of any sign. */
  predicate IsAreaMultiple(v: int)
  {
    v % 10 == 0
  }

  class S2 {
    /** `_threshold_CV`. */
    var thresholdCv: Setting<real>
    /** `_area`. */
    var area: Setting<int>
    /** `_cloud`. */
    var cloud: Setting<real>

    ghost predicate Valid()
      reads this
    {
      && (thresholdCv.Checked? ==> thresholdCv.value > 0.0)
      && (area.Checked? ==> IsAreaMultiple(area.value))
      && (cloud.Checked? ==> Calval.IsFraction(cloud.value))
    }

    /** The defaults of `S2.__init__`. */
    constructor()
      ensures Valid()
      ensures thresholdCv == Checked(0.2) && area == Checked(900) && cloud == Checked(0.5)
    {
      thresholdCv := Checked(0.2);
      area := Checked(900);
      cloud := Checked(0.5);
    }

    /** The `threshold_CV` setter. */
    method SetThresholdCv(v: real) returns (o: Outcome)
      requires Valid()
      modifies this
      ensures Valid()
      ensures o.Pass? <==> v > 0.0
      ensures o.Fail? ==> o.error == ValueError
      ensures thresholdCv == if o.Pass? then Checked(v) else old(thresholdCv)
      ensures area == old(area) && cloud == old(cloud)
    {
      if v <= 0.0 {
        return Fail(ValueError);
      }
      thresholdCv := Checked(v);
      return Pass;
    }

    /** The `area` setter as written: only `value % 10 != 0` is rejected. */
    method SetArea(v: int) returns (o: Outcome)
      requires Valid()
      modifies this
      ensures Valid()
      ensures o.Pass? <==> IsAreaMultiple(v)
      ensures o.Fail? ==> o.error == ValueError
      ensures area == if o.Pass? then Checked(v) else old(area)
      ensures thresholdCv == old(thresholdCv) && cloud == old(cloud)
    {
      if v % 10 != 0 {
        return Fail(ValueError);
      }
      area := Checked(v);
      return Pass;
    }

    /** The `cloud` setter. */
    method SetCloud(v: real) returns (o: Outcome)
      requires Valid()
      modifies this
      ensures Valid()
      ensures o.Pass? <==> Calval.IsFraction(v)
      ensures o.Fail? ==> o.error == ValueError
      ensures cloud == if o.Pass? then Checked(v) else old(cloud)
      ensures thresholdCv == old(thresholdCv) && area == old(area)
    {
      if v < 0.0 || v > 1.0 {
        return Fail(ValueError);
      }
      cloud := Checked(v);
      return Pass;
    }

    /** `create_Shapefile`: SystemExit on different EPSG codes, TypeError on a
        raw-text side, and otherwise the box around the snapped centre. */
    function CreateShapefile(initL1C: string, initL2A: string, px: real, py: real): (r: Result<Box>)
      reads this
      ensures ':' in initL1C && ':' in initL2A && CrsCode(initL1C).value != CrsCode(initL2A).value ==>
        r == Err(SystemExit)
      ensures ':' in initL1C && ':' in initL2A && CrsCode(initL1C).value == CrsCode(initL2A).value ==>
        && (area.RawText? ==> r == Err(TypeError))
        && (area.Checked? ==> r == Ok(BoxAround(area.value, px, py)))
      ensures r.Ok? ==>
        && (r.value.left + r.value.right) / 2.0 == px
        && (r.value.bottom + r.value.top) / 2.0 == py
    {
      if area.Checked? then
        BoxIsCentredSquare(area.value, px, py);
        Roi.CreateShapefile(initL1C, initL2A, area, px, py)
      else
        Roi.CreateShapefile(initL1C, initL2A, area, px, py)
    }

    /** `cal_ValidPixels`, with the clip method present: the clear short cuts
        before and after clipping, and otherwise a pass exactly when the
        share of clear clipped cells reaches the cloud threshold. */
    function CalValidPixels(combined: Grid<int>, clipped: Grid<int>): (r: Result<Validity>)
      reads this
      ensures |Flatten(combined)| == 0 ==> r == Err(ValueError)
      ensures |Flatten(combined)| > 0 && !HasPositive(combined) ==> r == AllClear(area)
      ensures |Flatten(combined)| > 0 && HasPositive(combined) && |Flatten(clipped)| > 0 && !HasPositive(clipped) ==>
        r == AllClear(area)
      ensures |Flatten(combined)| > 0 && HasPositive(combined) && HasPositive(clipped) && cloud.Checked? ==>
        && r.Ok?
        && |Flatten(clipped)| > 0
        && r.value.validCount == CountZero(Flatten(clipped)) as real
        && r.value.ratio == CountZero(Flatten(clipped)) as real / |Flatten(clipped)| as real
        && 0.0 <= r.value.ratio < 1.0
        && (r.value.passed <==> r.value.ratio >= cloud.value)
      ensures |Flatten(combined)| > 0 && HasPositive(combined) && HasPositive(clipped) && cloud.RawText? ==>
        r == Err(TypeError)
    {
      if |Flatten(combined)| == 0 then
        ValidPixels(true, area, cloud, combined, clipped)
      else if !HasPositive(combined) then
        ClearMaskShortCut(true, area, cloud, combined, clipped);
        ValidPixels(true, area, cloud, combined, clipped)
      else if HasPositive(clipped) then
        CloudyBranch(cloud, area, combined, clipped);
        if cloud.Checked? then
          CloudyVerdictMeaning(cloud.value, clipped);
          ValidPixels(true, area, cloud, combined, clipped)
        else
          ValidPixels(true, area, cloud, combined, clipped)
      else if |Flatten(clipped)| > 0 then
        ClearClipShortCut(area, cloud, combined, clipped);
        ValidPixels(true, area, cloud, combined, clipped)
      else
        ValidPixels(true, area, cloud, combined, clipped)
    }

    /** `cal_Flag`: 1 iff the CV is at most the threshold. */
    function CalFlag(cv: real): (r: Result<int>)
      reads this
      ensures r.Err? <==> thresholdCv.RawText?
      ensures r.Ok? ==> (r.value == 1 <==> cv <= thresholdCv.value) && (r.value == 0 <==> cv > thresholdCv.value)
    {
      CvFlag(cv, thresholdCv)
    }
  }

  /** Setting the side to 0 is accepted and yields a single-pixel box; a side
      of -20 m is accepted and yields a box whose right edge lies left of its
      left edge. */
  method DegenerateAreasAccepted(initL1C: string, initL2A: string, px: real, py: real)
    returns (zeroAccepted: bool, zeroBox: Result<Box>, negativeAccepted: bool, negativeBox: Result<Box>)
    requires ':' in initL1C && CrsCode(initL1C) == CrsCode(initL2A)
    ensures zeroAccepted && zeroBox.Ok? && zeroBox.value.right - zeroBox.value.left == 10.0
    ensures negativeAccepted && negativeBox.Ok? && negativeBox.value.right < negativeBox.value.left
  {
    var s2 := new S2();
    var o := s2.SetArea(0);
    zeroAccepted := o.Pass?;
    zeroBox := s2.CreateShapefile(initL1C, initL2A, px, py);
    o := s2.SetArea(-20);
    negativeAccepted := o.Pass?;
    negativeBox := s2.CreateShapefile(initL1C, initL2A, px, py);
  }

  /** The intended check of the later classes (at least one 10 m pixel)
      rejects both degenerate sides, and every side it accepts gives a box of
      positive width. */
  lemma IntendedSideGivesProperBox(v: int, px: real, py: real)
    ensures !Calval.IsS2Side(0) && !Calval.IsS2Side(-20)
    ensures Calval.IsS2Side(v) ==> BoxAround(v, px, py).right - BoxAround(v, px, py).left >= 10.0
  {
    if Calval.IsS2Side(v) {
      CardinalDistanceEndsInFive(v);
    }
  }

  /** `get_SiteInfo`: the three column lists are taken from one table, so
      their lengths always agree and the table itself is returned; the
      `None` branch cannot be taken. */
  function GetSiteInfo(rows: seq<SiteRow>): (r: Option<seq<SiteRow>>)
    ensures r == Some(rows)
  {
    if |Sites(rows)| == |Latitudes(rows)| == |Longitudes(rows)| then Some(rows) else None
  }

  class Flex {
    /** `_vegetationPixel`, exposed by a getter without a setter. */
    var vegetationPixel: Setting<real>

    /** The default of `FLEX.__init__`. */
    constructor()
      ensures vegetationPixel == Checked(0.5)
    {
      vegetationPixel := Checked(0.5);
    }

    /** The `VegetationPixel` getter. */
    function VegetationPixel(): (r: Setting<real>)
      reads this
      ensures r == vegetationPixel
    {
      vegetationPixel
    }
  }

  /** A fresh FLEX object reads the 0.5 default. */
  method DefaultVegetationPixel() returns (r: Setting<real>)
    ensures r == Checked(0.5)
  {
    var flex := new Flex();
    r := flex.VegetationPixel();
  }
}
