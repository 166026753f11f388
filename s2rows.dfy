/** The Sentinel-2 half shared by `main_improve.py` and `Archived/Main.py`:
    for every row of the usable-FLEX table, find the S2 product nearest in
    time, build the ROI, run the quality-mask gate on the L1C and the L2A
    masks, and, when both pass, record the CV of the clipped NIRv and its
    flag. Every row appends exactly one value to each output column; the
    first row that raises stops the run. */
module S2Rows {
  import opened Values
  import opened Grid
  import opened Roi
  import opened Quality
  import opened Matching

  /** One row of `Usable FLEX Images.csv` as pandas reads it back: the date
      and time columns come back as integers. */
  datatype FlexRow = FlexRow(site: string, filename: string, date: nat, time: nat)

  /** The three layers of one mask raster: opaque clouds, cirrus clouds, snow and ice. */
  datatype MaskLayers = MaskLayers(opaqueClouds: Grid<int>, cirrus: Grid<int>, snow: Grid<int>)

  /** What the raster libraries supply for one chosen product: the CRS texts
      of the L1C and L2A bands, the snapped pixel centre of the site, the two
      mask rasters, those masks clipped to the ROI, and the CV of the clipped
      NIRv. */
  datatype Scene = Scene(initL1C: string, initL2A: string, px: real, py: real,
                         masksL1C: MaskLayers, masksL2A: MaskLayers,
                         clippedL1C: Grid<int>, clippedL2A: Grid<int>, cv: real)

  /** The state of the S2 object the loop reads, and whether its class
      defines the clip method the cloudy branch of the gate calls. */
  datatype Gate = Gate(hasClip: bool, area: Setting<int>, cloud: Setting<real>, thresholdCv: Setting<real>)

  /** The site names of the site table, the listing of each site's S2 folder
      (None when the folder does not exist), and the scene of each
      (site, product) pair. */
  datatype Inputs = Inputs(siteNames: seq<string>,
                           listing: string -> Option<seq<string>>,
                           scene: (string, string) -> Scene)

  /** The product the scan settles on, as an index into the listing and as a name. */
  datatype Located = Located(index: nat, image: string)

  /** The two gate results of a product. */
  datatype Assessed = Assessed(l1c: Validity, l2a: Validity)

  /** What one row appends to the seven output lists. */
  datatype RowValues = RowValues(flexName: string, pixelsL1C: real, pixelsL2A: real,
                                 shareL1C: real, shareL2A: real,
                                 cv: Option<real>, flag: Option<int>)

  /** The seven lists the loop appends to, in the order of the output table
      after its `Site` column. */
  datatype Lists = Lists(flexName: seq<string>,
                         pixelsL1C: seq<real>, pixelsL2A: seq<real>,
                         shareL1C: seq<real>, shareL2A: seq<real>,
                         cv: seq<Option<real>>, flag: seq<Option<int>>)

  /** The output table: the `Site` column copied from the FLEX table, then the
      seven accumulated lists. */
  datatype Columns = Columns(site: seq<string>, lists: Lists)

  /** Every list has `n` entries. */
  predicate ListsOfLength(l: Lists, n: nat)
  {
    && |l.flexName| == n
    && |l.pixelsL1C| == n && |l.pixelsL2A| == n
    && |l.shareL1C| == n && |l.shareL2A| == n
    && |l.cv| == n && |l.flag| == n
  }

  /** The values of entry `k` of the lists. */
  function EntryAt(l: Lists, k: nat): RowValues
    requires ListsOfLength(l, |l.flexName|) && k < |l.flexName|
  {
    RowValues(l.flexName[k], l.pixelsL1C[k], l.pixelsL2A[k], l.shareL1C[k], l.shareL2A[k], l.cv[k], l.flag[k])
  }

  /** One value appended to each list. */
  function Append(l: Lists, v: RowValues): (r: Lists)
    ensures ListsOfLength(l, |l.flexName|) ==> ListsOfLength(r, |l.flexName| + 1) && EntryAt(r, |l.flexName|) == v
    ensures ListsOfLength(l, |l.flexName|) ==> forall k :: 0 <= k < |l.flexName| ==> EntryAt(r, k) == EntryAt(l, k)
  {
    Lists(l.flexName + [v.flexName], l.pixelsL1C + [v.pixelsL1C], l.pixelsL2A + [v.pixelsL2A],
          l.shareL1C + [v.shareL1C], l.shareL2A + [v.shareL2A], l.cv + [v.cv], l.flag + [v.flag])
  }

  /** `list(df_FLEX["Site"])`. */
  function SiteColumn(rows: seq<FlexRow>): (c: seq<string>)
    ensures |c| == |rows| && forall k :: 0 <= k < |rows| ==> c[k] == rows[k].site
  {
    seq(|rows|, k requires 0 <= k < |rows| => rows[k].site)
  }

  /** `df_site.index[df_site[<site column>] == site].tolist()[0]`: the first
      row holding the site, IndexError when there is none. */
  function SiteIndex(names: seq<string>, site: string): (r: Result<nat>)
    ensures r.Err? <==> site !in names
    ensures r.Err? ==> r.error == IndexError
    ensures r.Ok? ==> r.value < |names| && names[r.value] == site && site !in names[..r.value]
    decreases |names|
  {
    if |names| == 0 then Err(IndexError)
    else if names[0] == site then Ok(0)
    else
      var k :- SiteIndex(names[1..], site);
      assert names[..k + 1] == [names[0]] + names[1..][..k];
      Ok(k + 1)
  }

  /** `os.listdir(<S2 folder of the site>)`, of which element 0 is taken first:
      FileNotFoundError for a missing folder, IndexError for an empty one. */
  function Products(inputs: Inputs, site: string): (r: Result<seq<string>>)
    ensures r.Err? <==> inputs.listing(site).None? || inputs.listing(site) == Some([])
    ensures inputs.listing(site).None? ==> r == Err(FileNotFoundError)
    ensures inputs.listing(site) == Some([]) ==> r == Err(IndexError)
    ensures r.Ok? ==> inputs.listing(site) == Some(r.value) && |r.value| > 0
  {
    match inputs.listing(site)
    case None => Err(FileNotFoundError)
    case Some(names) => if |names| == 0 then Err(IndexError) else Ok(names)
  }

  /** Equal dimensions. */
  predicate SameShape(a: Grid<int>, b: Grid<int>)
  {
    |a| == |b| && forall i :: 0 <= i < |a| ==> |a[i]| == |b[i]|
  }

  /** `opaque + cirrus + snow` on the `uint8` layers of one raster; layers of
      different shapes raise ValueError. */
  function Combine(m: MaskLayers): (r: Result<Grid<int>>)
    ensures r.Err? <==> !(SameShape(m.opaqueClouds, m.cirrus) && SameShape(m.opaqueClouds, m.snow))
    ensures r.Err? ==> r.error == ValueError
    ensures r.Ok? ==> r.value == Sum3(m.opaqueClouds, m.cirrus, m.snow) && SameShape(r.value, m.opaqueClouds)
  {
    if SameShape(m.opaqueClouds, m.cirrus) && SameShape(m.opaqueClouds, m.snow) then
      Ok(Sum3(m.opaqueClouds, m.cirrus, m.snow))
    else Err(ValueError)
  }

  /** The FLEX instant, the site look-up, the S2 listing and the nearest scan
      keyed by `name[0:8] + name[-6:]`. There is no window: once the keys
      parse, the nearest product is taken however far away it lies. */
  function Locate(inputs: Inputs, row: FlexRow): (r: Result<Located>)
    ensures r.Ok? ==>
      && FlexInstant(row.date, row.time).Ok?
      && row.site in inputs.siteNames
      && Products(inputs, row.site).Ok?
      && var names := Products(inputs, row.site).value;
         && Keys(names, S2InstantKey).Ok?
         && r.value.index < |names|
         && r.value.image == names[r.value.index]
         && IsFirstNearest(Differences(Keys(names, S2InstantKey).value, FlexInstant(row.date, row.time).value), r.value.index)
    ensures r.Err? <==>
      || FlexInstant(row.date, row.time).Err?
      || row.site !in inputs.siteNames
      || Products(inputs, row.site).Err?
      || Keys(Products(inputs, row.site).value, S2InstantKey).Err?
  {
    var target :- FlexInstant(row.date, row.time);
    var siteIndex :- SiteIndex(inputs.siteNames, row.site);
    var names :- Products(inputs, row.site);
    var choice :- NearestChoice(names, S2InstantKey, target);
    FirstNearestUnique(Differences(Keys(names, S2InstantKey).value, target), choice.index,
                       NearestIndex(Differences(Keys(names, S2InstantKey).value, target)));
    Ok(Located(choice.index, names[choice.index]))
  }

  /** `create_shapefile`, the two combined masks (L2A first) and the gate on
      L1C, then on L2A, for one product. */
  function Assess(gate: Gate, scene: Scene): (r: Result<Assessed>)
    ensures r.Ok? ==>
      && CreateShapefile(scene.initL1C, scene.initL2A, gate.area, scene.px, scene.py).Ok?
      && Combine(scene.masksL1C).Ok? && Combine(scene.masksL2A).Ok?
      && ValidPixels(gate.hasClip, gate.area, gate.cloud, Combine(scene.masksL1C).value, scene.clippedL1C) == Ok(r.value.l1c)
      && ValidPixels(gate.hasClip, gate.area, gate.cloud, Combine(scene.masksL2A).value, scene.clippedL2A) == Ok(r.value.l2a)
  {
    var box :- CreateShapefile(scene.initL1C, scene.initL2A, gate.area, scene.px, scene.py);
    var combinedL2A :- Combine(scene.masksL2A);
    var combinedL1C :- Combine(scene.masksL1C);
    var l1c :- ValidPixels(gate.hasClip, gate.area, gate.cloud, combinedL1C, scene.clippedL1C);
    var l2a :- ValidPixels(gate.hasClip, gate.area, gate.cloud, combinedL2A, scene.clippedL2A);
    Ok(Assessed(l1c, l2a))
  }

  /** The values one row appends: the counts and shares of both gates, and
      the CV with its flag only when both gates pass (None otherwise). */
  function Record(thresholdCv: Setting<real>, filename: string, a: Assessed, cv: real): (r: Result<RowValues>)
    ensures r.Err? <==> a.l1c.passed && a.l2a.passed && thresholdCv.RawText?
    ensures r.Err? ==> r.error == TypeError
    ensures r.Ok? ==>
      && r.value.flexName == filename
      && r.value.pixelsL1C == a.l1c.validCount && r.value.shareL1C == a.l1c.ratio
      && r.value.pixelsL2A == a.l2a.validCount && r.value.shareL2A == a.l2a.ratio
      && (r.value.cv.Some? <==> a.l1c.passed && a.l2a.passed)
      && (r.value.flag.Some? <==> a.l1c.passed && a.l2a.passed)
    ensures r.Ok? && r.value.cv.Some? ==>
      && r.value.cv.value == cv
      && (r.value.flag.value == 1 <==> cv <= thresholdCv.value)
      && (r.value.flag.value == 0 <==> cv > thresholdCv.value)
  {
    if a.l1c.passed && a.l2a.passed then
      var flag :- CvFlag(cv, thresholdCv);
      Ok(RowValues(filename, a.l1c.validCount, a.l2a.validCount, a.l1c.ratio, a.l2a.ratio, Some(cv), Some(flag)))
    else
      Ok(RowValues(filename, a.l1c.validCount, a.l2a.validCount, a.l1c.ratio, a.l2a.ratio, None, None))
  }

  /** One row of the loop, or the error that stops the run. */
  function RowResult(gate: Gate, inputs: Inputs, row: FlexRow): (r: Result<RowValues>)
    ensures r.Ok? ==> Locate(inputs, row).Ok? && r.value.flexName == row.filename
    ensures Locate(inputs, row).Err? ==> r == Err(Locate(inputs, row).error)
  {
    var located :- Locate(inputs, row);
    var scene := inputs.scene(row.site, located.image);
    var assessed :- Assess(gate, scene);
    Record(gate.thresholdCv, row.filename, assessed, scene.cv)
  }

  /** With both combined masks non-empty and free of flagged cells, a numeric
      side and a numeric CV threshold, the product passes both gates with
      the short-cut count and share 1, and the CV and its flag are recorded. */
  lemma ClearMasksRecordCv(gate: Gate, scene: Scene, filename: string)
    requires gate.area.Checked? && gate.thresholdCv.Checked?
    requires CreateShapefile(scene.initL1C, scene.initL2A, gate.area, scene.px, scene.py).Ok?
    requires Combine(scene.masksL1C).Ok? && Combine(scene.masksL2A).Ok?
    requires |Flatten(Combine(scene.masksL1C).value)| > 0 && !HasPositive(Combine(scene.masksL1C).value)
    requires |Flatten(Combine(scene.masksL2A).value)| > 0 && !HasPositive(Combine(scene.masksL2A).value)
    ensures Assess(gate, scene).Ok?
    ensures Assess(gate, scene).value.l1c == Validity(true, ShortCutCount(gate.area.value), 1.0)
    ensures Assess(gate, scene).value.l2a == Validity(true, ShortCutCount(gate.area.value), 1.0)
    ensures var r := Record(gate.thresholdCv, filename, Assess(gate, scene).value, scene.cv);
      r.Ok? && r.value.cv == Some(scene.cv) && r.value.flag.Some?
  {
    ClearMaskShortCut(gate.hasClip, gate.area, gate.cloud, Combine(scene.masksL1C).value, scene.clippedL1C);
    ClearMaskShortCut(gate.hasClip, gate.area, gate.cloud, Combine(scene.masksL2A).value, scene.clippedL2A);
  }

  /** Without the clip method, a product whose L1C mask flags any cell stops
      the run with AttributeError, whatever its clipped mask holds. */
  lemma FlaggedMaskWithoutClipRaises(gate: Gate, scene: Scene)
    requires !gate.hasClip
    requires CreateShapefile(scene.initL1C, scene.initL2A, gate.area, scene.px, scene.py).Ok?
    requires Combine(scene.masksL1C).Ok? && Combine(scene.masksL2A).Ok?
    requires |Flatten(Combine(scene.masksL1C).value)| > 0 && HasPositive(Combine(scene.masksL1C).value)
    ensures Assess(gate, scene) == Err(AttributeError)
  {
    MissingClipRaises(gate.area, gate.cloud, Combine(scene.masksL1C).value, scene.clippedL1C);
  }

  /** One iteration of the loop: the FLEX instant, the site look-up, the
      nearest scan over the S2 listing, the gates and the values to append. */
  method ProcessRow(gate: Gate, inputs: Inputs, row: FlexRow) returns (r: Result<RowValues>)
    ensures r == RowResult(gate, inputs, row)
  {
    var target := FlexInstant(row.date, row.time);
    if target.Err? {
      return Err(target.error);
    }
    var siteIndex := SiteIndex(inputs.siteNames, row.site);
    if siteIndex.Err? {
      return Err(siteIndex.error);
    }
    var names := Products(inputs, row.site);
    if names.Err? {
      return Err(names.error);
    }
    var choice := NearestScan(names.value, S2InstantKey, target.value);
    if choice.Err? {
      return Err(choice.error);
    }
    var image := names.value[choice.value.index];
    assert Locate(inputs, row) == Ok(Located(choice.value.index, image));
    var scene := inputs.scene(row.site, image);
    var assessed := Assess(gate, scene);
    if assessed.Err? {
      return Err(assessed.error);
    }
    r := Record(gate.thresholdCv, row.filename, assessed.value, scene.cv);
  }

  /** What the loop has appended after `rows`, with `step` giving each
      row's values, or the error of the first row that raises. */
  function Accumulate(step: FlexRow -> Result<RowValues>, rows: seq<FlexRow>): (r: Result<Lists>)
    decreases |rows|
  {
    if |rows| == 0 then Ok(Lists([], [], [], [], [], [], []))
    else
      var before :- Accumulate(step, rows[..|rows| - 1]);
      var v :- step(rows[|rows| - 1]);
      Ok(Append(before, v))
  }

  /** Every row appends exactly one value to each list, whichever branch it
      takes: when no row raises, the lists have one entry per row and entry
      `k` is what row `k` yields; otherwise the run stops with the error of
      the first row that raises. */
  lemma AccumulateOneEntryPerRow(step: FlexRow -> Result<RowValues>, rows: seq<FlexRow>)
    ensures Accumulate(step, rows).Ok? <==> forall k :: 0 <= k < |rows| ==> step(rows[k]).Ok?
    ensures Accumulate(step, rows).Ok? ==>
      && ListsOfLength(Accumulate(step, rows).value, |rows|)
      && forall k :: 0 <= k < |rows| ==> Ok(EntryAt(Accumulate(step, rows).value, k)) == step(rows[k])
    ensures Accumulate(step, rows).Err? ==>
      exists k :: 0 <= k < |rows| && step(rows[k]) == Err(Accumulate(step, rows).error)
                && forall m :: 0 <= m < k ==> step(rows[m]).Ok?
  {
    AccumulateOkIff(step, rows);
    if Accumulate(step, rows).Ok? {
      AccumulateEntries(step, rows);
    } else {
      AccumulateFirstError(step, rows);
    }
  }

  lemma {:induction false} AccumulateOkIff(step: FlexRow -> Result<RowValues>, rows: seq<FlexRow>)
    ensures Accumulate(step, rows).Ok? <==> forall k :: 0 <= k < |rows| ==> step(rows[k]).Ok?
    decreases |rows|
  {
    if |rows| > 0 {
      var n := |rows| - 1;
      AccumulateOkIff(step, rows[..n]);
      assert forall k :: 0 <= k < n ==> rows[..n][k] == rows[k];
    }
  }

  lemma {:induction false} AccumulateEntries(step: FlexRow -> Result<RowValues>, rows: seq<FlexRow>)
    requires Accumulate(step, rows).Ok?
    ensures ListsOfLength(Accumulate(step, rows).value, |rows|)
    ensures forall k :: 0 <= k < |rows| ==> Ok(EntryAt(Accumulate(step, rows).value, k)) == step(rows[k])
    decreases |rows|
  {
    if |rows| > 0 {
      var n := |rows| - 1;
      var init := rows[..n];
      var before := Accumulate(step, init).value;
      AccumulateEntries(step, init);
      var after := Append(before, step(rows[n]).value);
      assert Accumulate(step, rows).value == after;
      forall k | 0 <= k < |rows| ensures Ok(EntryAt(after, k)) == step(rows[k]) {
        if k < n {
          assert init[k] == rows[k];
          assert EntryAt(after, k) == EntryAt(before, k);
        }
      }
    }
  }

  lemma {:induction false} AccumulateFirstError(step: FlexRow -> Result<RowValues>, rows: seq<FlexRow>)
    requires Accumulate(step, rows).Err?
    ensures exists k :: 0 <= k < |rows| && step(rows[k]) == Err(Accumulate(step, rows).error)
                      && forall m :: 0 <= m < k ==> step(rows[m]).Ok?
    decreases |rows|
  {
    var n := |rows| - 1;
    var init := rows[..n];
    assert forall k :: 0 <= k < n ==> init[k] == rows[k];
    if Accumulate(step, init).Err? {
      AccumulateFirstError(step, init);
      var k :| 0 <= k < n && step(init[k]) == Err(Accumulate(step, init).error)
               && forall m :: 0 <= m < k ==> step(init[m]).Ok?;
      assert step(rows[k]) == Err(Accumulate(step, rows).error);
    } else {
      AccumulateOkIff(step, init);
      assert step(rows[n]) == Err(Accumulate(step, rows).error);
    }
  }

  /** One more row: its values are appended, or its error ends the run. */
  lemma AccumulateStep(step: FlexRow -> Result<RowValues>, rows: seq<FlexRow>, i: nat)
    requires i < |rows| && Accumulate(step, rows[..i]).Ok?
    ensures step(rows[i]).Err? ==> Accumulate(step, rows[..i + 1]) == Err(step(rows[i]).error)
    ensures step(rows[i]).Ok? ==>
      Accumulate(step, rows[..i + 1]) == Ok(Append(Accumulate(step, rows[..i]).value, step(rows[i]).value))
  {
    assert rows[..i + 1][..i] == rows[..i];
  }

  /** An error in the lists of a prefix is the error of the whole table. */
  lemma {:induction false} AccumulatePrefixError(step: FlexRow -> Result<RowValues>, rows: seq<FlexRow>, n: nat)
    requires n <= |rows| && Accumulate(step, rows[..n]).Err?
    ensures Accumulate(step, rows) == Err(Accumulate(step, rows[..n]).error)
    decreases |rows| - n
  {
    if n < |rows| {
      assert rows[..n + 1][..n] == rows[..n];
      AccumulatePrefixError(step, rows, n + 1);
    } else {
      assert rows[..n] == rows;
    }
  }

  /** Each row's values, as one step of the loop. */
  function RowStep(gate: Gate, inputs: Inputs): (step: FlexRow -> Result<RowValues>)
    ensures forall row :: step(row) == RowResult(gate, inputs, row)
  {
    row => RowResult(gate, inputs, row)
  }

  /** What the loop over the FLEX table leaves: the seven lists and the
      `Site` column, or the error of the first row that raises. */
  function FlexTable(gate: Gate, inputs: Inputs, rows: seq<FlexRow>): Result<Columns>
  {
    var lists :- Accumulate(RowStep(gate, inputs), rows);
    Ok(Columns(SiteColumn(rows), lists))
  }

  /** The table has one entry per FLEX row in every column, each the row's
      values, unless some row raises; then it is the first such row's error. */
  lemma FlexTableOneEntryPerRow(gate: Gate, inputs: Inputs, rows: seq<FlexRow>)
    ensures FlexTable(gate, inputs, rows).Err? <==> exists k :: 0 <= k < |rows| && RowResult(gate, inputs, rows[k]).Err?
    ensures FlexTable(gate, inputs, rows).Err? ==>
      exists k :: 0 <= k < |rows| && RowResult(gate, inputs, rows[k]) == Err(FlexTable(gate, inputs, rows).error)
                && forall m :: 0 <= m < k ==> RowResult(gate, inputs, rows[m]).Ok?
    ensures FlexTable(gate, inputs, rows).Ok? ==>
      var t := FlexTable(gate, inputs, rows).value;
      && |t.site| == |rows| && ListsOfLength(t.lists, |rows|)
      && forall k :: 0 <= k < |rows| ==>
           t.site[k] == rows[k].site && Ok(EntryAt(t.lists, k)) == RowResult(gate, inputs, rows[k])
  {
    var step := RowStep(gate, inputs);
    AccumulateOneEntryPerRow(step, rows);
    if Accumulate(step, rows).Err? {
      var k :| 0 <= k < |rows| && step(rows[k]) == Err(Accumulate(step, rows).error)
               && forall m :: 0 <= m < k ==> step(rows[m]).Ok?;
      assert RowResult(gate, inputs, rows[k]) == Err(FlexTable(gate, inputs, rows).error);
    }
  }

  /** The loop over the FLEX table: the seven lists grow by one entry per
      row; the `Site` column is copied from the FLEX table at the end. */
  method ProcessFlexTable(gate: Gate, inputs: Inputs, rows: seq<FlexRow>) returns (r: Result<Columns>)
    ensures r == FlexTable(gate, inputs, rows)
  {
    ghost var step := RowStep(gate, inputs);
    var flexNames: seq<string> := [];
    var pixelsL1C: seq<real> := [];
    var pixelsL2A: seq<real> := [];
    var sharesL1C: seq<real> := [];
    var sharesL2A: seq<real> := [];
    var cvs: seq<Option<real>> := [];
    var flags: seq<Option<int>> := [];
    var i := 0;
    while i < |rows|
      invariant 0 <= i <= |rows|
      invariant Accumulate(step, rows[..i]) == Ok(Lists(flexNames, pixelsL1C, pixelsL2A, sharesL1C, sharesL2A, cvs, flags))
    {
      var values := ProcessRow(gate, inputs, rows[i]);
      AccumulateStep(step, rows, i);
      if values.Err? {
        AccumulatePrefixError(step, rows, i + 1);
        return Err(values.error);
      }
      flexNames := flexNames + [values.value.flexName];
      pixelsL1C := pixelsL1C + [values.value.pixelsL1C];
      pixelsL2A := pixelsL2A + [values.value.pixelsL2A];
      sharesL1C := sharesL1C + [values.value.shareL1C];
      sharesL2A := sharesL2A + [values.value.shareL2A];
      cvs := cvs + [values.value.cv];
      flags := flags + [values.value.flag];
      i := i + 1;
    }
    assert rows[..i] == rows;
    r := Ok(Columns(SiteColumn(rows), Lists(flexNames, pixelsL1C, pixelsL2A, sharesL1C, sharesL2A, cvs, flags)));
  }
}
