/** The cloud-mask gate of `cal_valid_pixels` and the CV flag of `cal_flag`.

    The gate receives the combined mask (the sum of the opaque-cloud, cirrus and
    snow layers on the 60 m grid). If no cell is flagged the image passes at
    once. Otherwise the mask is up-sampled 6 x 6 to the 10 m grid, written to
    disk, clipped to the ROI box by the raster library and read back; the
    clipped array is an input here. If the clipped array has no flagged cell
    the image passes; otherwise the share of unflagged cells is compared with
    the cloud threshold. Both short cuts report `(area / 10) ** 2` valid pixels
    and a ratio of 1, whatever the clipped array holds. */
module Quality {
  import opened Values
  import opened Grid

  /** The triple `(pass, valid pixels, valid ratio)` returned by the gate. */
  datatype Validity = Validity(passed: bool, validCount: real, ratio: real)

  /** Factor between the 60 m mask grid and the 10 m band grid. */
  const MaskUpsampling: nat := 6

  /** The up-sampled mask `cal_valid_pixels` writes before clipping. */
  function UpsampledMask(combined: Grid<int>): Grid<int>
  {
    Expand(combined, MaskUpsampling)
  }

  /** `(area / 10) ** 2`, the pixel count of an ROI side of `area` metres. */
  function ShortCutCount(area: int): real
  {
    var side := area as real / 10.0;
    side * side
  }

  /** The answer of the short cuts: `(True, (self._area / 10) ** 2, 1)`. A side
      that holds raw configuration text makes `/ 10` raise TypeError. */
  function AllClear(area: Setting<int>): (r: Result<Validity>)
    ensures area.RawText? <==> r.Err?
    ensures r.Err? ==> r.error == TypeError
    ensures r.Ok? ==> r == Ok(Validity(true, ShortCutCount(area.value), 1.0))
  {
    match area
    case RawText(_) => Err(TypeError)
    case Checked(a) =>
      Ok(Validity(true, ShortCutCount(a), 1.0))
  }

  /** The ratio and counts of the clipped mask, when it has a flagged cell. */
  function CloudyVerdict(cloud: Setting<real>, clipped: Grid<int>): (r: Result<Validity>)
    requires HasPositive(clipped)
  {
    var cells := Flatten(clipped);
    var valid := CountZero(cells);
    var invalid := CountNonZero(cells);
    PositiveCellCounted(clipped);
    var ratio := valid as real / (valid + invalid) as real;
    match cloud
    case RawText(_) => Err(TypeError)
    case Checked(c) => Ok(Validity(ratio >= c, valid as real, ratio))
  }

  /** `cal_valid_pixels`. `hasClip` says whether the class defines the
      `clip_RasterbySHP` method the cloudy branch calls; when it does not, the
      attribute lookup raises AttributeError. `np.max` of an empty array raises
      ValueError. */
  function ValidPixels(hasClip: bool, area: Setting<int>, cloud: Setting<real>,
                       combined: Grid<int>, clipped: Grid<int>): (r: Result<Validity>)
  {
    var cloudy :- MaxAtLeastOne(combined);
    if !cloudy then AllClear(area)
    else if !hasClip then Err(AttributeError)
    else
      var clippedCloudy :- MaxAtLeastOne(clipped);
      if !clippedCloudy then AllClear(area)
      else
        MaxAtLeastOneIffCell(clipped);
        CloudyVerdict(cloud, clipped)
  }

  /** A combined mask with no flagged cell passes with `(area / 10) ** 2` valid
      pixels and ratio 1, whatever the cloud threshold and the clipped array,
      and whether or not the clip method exists. */
  lemma ClearMaskShortCut(hasClip: bool, area: Setting<int>, cloud: Setting<real>,
                          combined: Grid<int>, clipped: Grid<int>)
    requires |Flatten(combined)| > 0 && !HasPositive(combined)
    ensures ValidPixels(hasClip, area, cloud, combined, clipped) == AllClear(area)
    ensures area.Checked? ==>
      ValidPixels(hasClip, area, cloud, combined, clipped)
        == Ok(Validity(true, ShortCutCount(area.value), 1.0))
  {
    MaxAtLeastOneIffCell(combined);
  }

  /** A cloudy combined mask whose clipped part has no flagged cell also takes
      the short cut: the count is `(area / 10) ** 2`, not the size of the clipped
      array. */
  lemma ClearClipShortCut(area: Setting<int>, cloud: Setting<real>, combined: Grid<int>, clipped: Grid<int>)
    requires |Flatten(combined)| > 0 && HasPositive(combined)
    requires |Flatten(clipped)| > 0 && !HasPositive(clipped)
    ensures ValidPixels(true, area, cloud, combined, clipped) == AllClear(area)
  {
    MaxAtLeastOneIffCell(combined);
    MaxAtLeastOneIffCell(clipped);
  }

  /** When the class lacks `clip_RasterbySHP`, every cloudy mask raises
      AttributeError: only the clear short cut can return. */
  lemma MissingClipRaises(area: Setting<int>, cloud: Setting<real>, combined: Grid<int>, clipped: Grid<int>)
    requires |Flatten(combined)| > 0
    ensures HasPositive(combined) <==> ValidPixels(false, area, cloud, combined, clipped) == Err(AttributeError)
  {
    MaxAtLeastOneIffCell(combined);
  }

  /** `np.max` of an empty mask raises ValueError before anything else. */
  lemma EmptyMaskRaises(hasClip: bool, area: Setting<int>, cloud: Setting<real>, clipped: Grid<int>)
    ensures ValidPixels(hasClip, area, cloud, [], clipped) == Err(ValueError)
  {
  }

  /** Valid and invalid cells partition the clipped array, the ratio lies in
      [0, 1) because at least one cell is flagged, and the verdict is a pass
      exactly when that ratio reaches the cloud threshold. */
  lemma CloudyVerdictMeaning(cloud: real, clipped: Grid<int>)
    requires HasPositive(clipped)
    ensures var r := CloudyVerdict(Checked(cloud), clipped);
      var cells := Flatten(clipped);
      && r.Ok?
      && r.value.validCount == CountZero(cells) as real
      && CountZero(cells) + CountNonZero(cells) == |cells|
      && CountNonZero(cells) >= 1
      && r.value.ratio == CountZero(cells) as real / |cells| as real
      && 0.0 <= r.value.ratio < 1.0
      && (r.value.passed <==> r.value.ratio >= cloud)
  {
    var cells := Flatten(clipped);
    CountsPartition(cells);
    PositiveCellCounted(clipped);
    var v, w := CountZero(cells), CountNonZero(cells);
    assert (v + w) as real == |cells| as real;
    ShareBelowOne(v as real, (v + w) as real);
  }

  /** A share of a strictly larger positive total lies in [0, 1). */
  lemma ShareBelowOne(part: real, total: real)
    requires 0.0 <= part < total
    ensures 0.0 <= part / total < 1.0
  {
    assert part / total * total == part;
  }

  /** A cloudy mask whose clipped part is cloudy gets the cloudy verdict. */
  lemma CloudyBranch(cloud: Setting<real>, area: Setting<int>, combined: Grid<int>, clipped: Grid<int>)
    requires |Flatten(combined)| > 0 && HasPositive(combined)
    requires HasPositive(clipped)
    ensures ValidPixels(true, area, cloud, combined, clipped) == CloudyVerdict(cloud, clipped)
  {
    MaxAtLeastOneIffCell(combined);
    PositiveCellCounted(clipped);
    MaxAtLeastOneIffCell(clipped);
  }

  /** A cloud threshold of 0 lets every image through; a threshold of 1 rejects
      every image whose clipped mask has a flagged cell. */
  lemma CloudThresholdExtremes(area: Setting<int>, combined: Grid<int>, clipped: Grid<int>)
    requires |Flatten(combined)| > 0 && HasPositive(combined)
    requires HasPositive(clipped)
    ensures ValidPixels(true, area, Checked(0.0), combined, clipped).Ok?
    ensures ValidPixels(true, area, Checked(0.0), combined, clipped).value.passed
    ensures ValidPixels(true, area, Checked(1.0), combined, clipped).Ok?
    ensures !ValidPixels(true, area, Checked(1.0), combined, clipped).value.passed
  {
    CloudyBranch(Checked(0.0), area, combined, clipped);
    CloudyBranch(Checked(1.0), area, combined, clipped);
    CloudyVerdictMeaning(0.0, clipped);
    CloudyVerdictMeaning(1.0, clipped);
  }

  /** `cal_flag`: 1 when the CV is at most the threshold, else 0. A threshold
      holding raw configuration text makes the comparison raise TypeError. */
  function CvFlag(cv: real, threshold: Setting<real>): (r: Result<int>)
    ensures r.Err? <==> threshold.RawText?
    ensures r.Err? ==> r.error == TypeError
    ensures r.Ok? ==> (r.value == 1 <==> cv <= threshold.value) && (r.value == 0 <==> cv > threshold.value)
  {
    match threshold
    case RawText(_) => Err(TypeError)
    case Checked(t) => if cv <= t then Ok(1) else Ok(0)
  }

  /** The flag is monotone: raising the threshold never turns a 1 into a 0. */
  lemma CvFlagMonotone(cv: real, t1: real, t2: real)
    requires t1 <= t2
    ensures CvFlag(cv, Checked(t1)).value <= CvFlag(cv, Checked(t2)).value
  {
  }
}
