/** `main()` of `main_improve.py`: configuration overrides on the FLEX
    object, the FLEX recording loop over the sites and their files, the
    overrides on the S2 object, and the Sentinel-2 loop over the
    usable-FLEX table (the shared loop of `S2Rows`, with the classes of
    `class_improve.py`, whose S2 class has no `clip_RasterbySHP`). */
module MainImprove {
  import opened Values
  import opened Text
  import opened Tables
  import opened FileNames
  import opened Quality
  import opened S2Rows
  import Improve

  /** A record whose name follows the FLEX convention and whose date and time
      are that name's 8-digit and 6-digit fields. */
  predicate WellNamed(rec: FlexRecord)
  {
    && |rec.date| == 8 && AllDigits(rec.date)
    && |rec.time| == 6 && AllDigits(rec.time)
    && rec.filename == FlexName(rec.date, rec.time)
  }

  /** Lines 36-45: the FLEX overrides. Each option that holds text replaces
      the attribute with that raw text; an absent section or option raises
      KeyError. */
  method ApplyFlexOverrides(cfg: Config, flex: Improve.Flex) returns (o: Outcome)
    requires flex.Valid()
    modifies flex
    ensures flex.Valid()
    ensures flex.resolution == old(flex.resolution)
    ensures o.Pass? <==>
      && Override(cfg, old(flex.areaRoi), "FLEX", "area_roi", "FLEX", "area_roi").Ok?
      && Override(cfg, old(flex.vegetationPixel), "FLEX", "threshold_vegetation_pixel",
                  "FLEX", "threshold_vegetation_pixel").Ok?
    ensures o.Fail? ==> o.error == KeyError
    ensures o.Pass? ==>
      && flex.areaRoi == Override(cfg, old(flex.areaRoi), "FLEX", "area_roi", "FLEX", "area_roi").value
      && flex.vegetationPixel == Override(cfg, old(flex.vegetationPixel), "FLEX", "threshold_vegetation_pixel",
                                          "FLEX", "threshold_vegetation_pixel").value
  {
    var area := Override(cfg, flex.areaRoi, "FLEX", "area_roi", "FLEX", "area_roi");
    if area.Err? {
      return Fail(area.error);
    }
    flex.areaRoi := area.value;
    var vegetation := Override(cfg, flex.vegetationPixel, "FLEX", "threshold_vegetation_pixel",
                               "FLEX", "threshold_vegetation_pixel");
    if vegetation.Err? {
      return Fail(vegetation.error);
    }
    flex.vegetationPixel := vegetation.value;
    return Pass;
  }

  /** The vegetation filter of the FLEX loop never skips an image: the
      default 0.5 is truthy, and an override stores the non-empty text that
      triggered it. */
  lemma VegetationFilterNeverSkips(cfg: Config)
    requires Override(cfg, Checked(0.5), "FLEX", "threshold_vegetation_pixel", "FLEX", "threshold_vegetation_pixel").Ok?
    ensures TruthyReal(Override(cfg, Checked(0.5), "FLEX", "threshold_vegetation_pixel",
                                "FLEX", "threshold_vegetation_pixel").value)
  {
    SelfGatedOverrideIsTruthy(cfg, Checked(0.5), "FLEX", "threshold_vegetation_pixel");
  }

  /** The inner loop over one site's files: each name must pass
      `check_filename` (ValueError otherwise), and with a truthy vegetation
      threshold each is recorded with its date and time tokens. */
  function SiteRecords(site: string, files: seq<string>, vegetation: Setting<real>): (r: Result<seq<FlexRecord>>)
    decreases |files|
  {
    if |files| == 0 then Ok([])
    else if CheckFilename(files[0]).Fail? then Err(ValueError)
    else
      var rest := SiteRecords(site, files[1..], vegetation);
      if rest.Err? then Err(rest.error)
      else
        AcceptedTokens(files[0]);
        var head := if TruthyReal(vegetation)
          then [FlexRecord(site, files[0], FlexDateToken(files[0]).value, FlexTimeToken(files[0]))]
          else [];
        Ok(head + rest.value)
  }

  /** What the inner loop leaves: ValueError exactly when some name fails
      `check_filename`; otherwise every file in order with its site, or nothing
      when the vegetation value is falsy, each record well named. */
  lemma SiteRecordsMeaning(site: string, files: seq<string>, vegetation: Setting<real>)
    ensures var r := SiteRecords(site, files, vegetation);
      && (r.Err? <==> exists k :: 0 <= k < |files| && CheckFilename(files[k]).Fail?)
      && (r.Err? ==> r.error == ValueError)
      && (r.Ok? ==> |r.value| == if TruthyReal(vegetation) then |files| else 0)
      && (r.Ok? && TruthyReal(vegetation) ==>
            forall k :: 0 <= k < |files| ==> r.value[k].site == site && r.value[k].filename == files[k])
      && (r.Ok? ==> forall k :: 0 <= k < |r.value| ==> WellNamed(r.value[k]))
  {
    SiteRecordsFail(site, files, vegetation);
    SiteRecordsRows(site, files, vegetation);
  }

  /** The inner loop raises ValueError exactly when some name fails `check_filename`. */
  lemma {:induction false} SiteRecordsFail(site: string, files: seq<string>, vegetation: Setting<real>)
    ensures var r := SiteRecords(site, files, vegetation);
      && (r.Err? <==> exists k :: 0 <= k < |files| && CheckFilename(files[k]).Fail?)
      && (r.Err? ==> r.error == ValueError)
    decreases |files|
  {
    if |files| > 0 && CheckFilename(files[0]).Pass? {
      var tail := files[1..];
      SiteRecordsFail(site, tail, vegetation);
      assert forall k :: 0 <= k < |tail| ==> tail[k] == files[k + 1];
      assert forall k :: 0 < k < |files| ==> files[k] == tail[k - 1];
    }
  }

  /** The rows the inner loop records: every file in order with its site,
      or none when the vegetation value is falsy, each well named. */
  lemma {:induction false} SiteRecordsRows(site: string, files: seq<string>, vegetation: Setting<real>)
    ensures var r := SiteRecords(site, files, vegetation);
      && (r.Ok? ==> |r.value| == if TruthyReal(vegetation) then |files| else 0)
      && (r.Ok? && TruthyReal(vegetation) ==>
            forall k :: 0 <= k < |files| ==> r.value[k].site == site && r.value[k].filename == files[k])
      && (r.Ok? ==> forall k :: 0 <= k < |r.value| ==> WellNamed(r.value[k]))
    decreases |files|
  {
    if |files| > 0 && CheckFilename(files[0]).Pass? {
      var tail := files[1..];
      SiteRecordsRows(site, tail, vegetation);
      assert forall k :: 0 <= k < |tail| ==> tail[k] == files[k + 1];
      AcceptedTokens(files[0]);
      AcceptedIsFlexName(files[0]);
    }
  }

  /** One site of the table: nothing for a missing or empty folder, else
      the records of its files. The name is already text, so joining it to
      the input path cannot fail. */
  function SiteEntry(site: Improve.Site, folders: string -> Option<seq<string>>, vegetation: Setting<real>): (r: Result<seq<FlexRecord>>)
    ensures folders(site.name).None? || folders(site.name) == Some([]) ==> r == Ok([])
    ensures r.Ok? ==> forall k :: 0 <= k < |r.value| ==> WellNamed(r.value[k]) && r.value[k].site == site.name
    ensures r.Err? <==> folders(site.name).Some? && exists k :: 0 <= k < |folders(site.name).value| && CheckFilename(folders(site.name).value[k]).Fail?
  {
    match folders(site.name)
    case None => Ok([])
    case Some(files) =>
      SiteRecordsMeaning(site.name, files, vegetation);
      if |files| == 0 then Ok([]) else SiteRecords(site.name, files, vegetation)
  }

  /** The outer loop over the rows of the site table. */
  function AllRecords(sites: seq<Improve.Site>, folders: string -> Option<seq<string>>, vegetation: Setting<real>): (r: Result<seq<FlexRecord>>)
    ensures r.Ok? ==> forall k :: 0 <= k < |r.value| ==> WellNamed(r.value[k])
    decreases |sites|
  {
    if |sites| == 0 then Ok([])
    else
      var first :- SiteEntry(sites[0], folders, vegetation);
      var rest :- AllRecords(sites[1..], folders, vegetation);
      Ok(first + rest)
  }

  /** Lines 82-98: the inner loop over one site's files. */
  method RecordSiteFiles(site: string, files: seq<string>, vegetation: Setting<real>)
    returns (r: Result<seq<FlexRecord>>)
    ensures r == SiteRecords(site, files, vegetation)
  {
    var records: seq<FlexRecord> := [];
    var j := 0;
    assert files[j..] == files;
    while j < |files|
      invariant 0 <= j <= |files|
      invariant SiteRecords(site, files, vegetation) == Prepend(records, SiteRecords(site, files[j..], vegetation))
    {
      var check := CheckFilename(files[j]);
      if check.Fail? {
        SiteRecordsError(site, files, j, vegetation);
        return Err(check.error);
      }
      SiteRecordsStep(site, files, j, vegetation);
      ghost var rest := SiteRecords(site, files[j + 1..], vegetation);
      if TruthyReal(vegetation) {
        var date := FlexDateToken(files[j]).value;
        var time := FlexTimeToken(files[j]);
        PrependTwice(records, [FlexRecord(site, files[j], date, time)], rest);
        records := records + [FlexRecord(site, files[j], date, time)];
      } else {
        PrependTwice(records, [], rest);
        assert records + [] == records;
      }
      j := j + 1;
    }
    assert files[j..] == [];
    r := Ok(records);
    assert records + [] == records;
  }

  /** A file name that passes `check_filename` puts its record (none without a
      truthy vegetation threshold) before the records of the later files. */
  lemma SiteRecordsStep(site: string, files: seq<string>, j: nat, vegetation: Setting<real>)
    requires j < |files| && CheckFilename(files[j]).Pass?
    ensures FlexDateToken(files[j]).Ok?
    ensures SiteRecords(site, files[j..], vegetation) ==
      Prepend(if TruthyReal(vegetation)
              then [FlexRecord(site, files[j], FlexDateToken(files[j]).value, FlexTimeToken(files[j]))]
              else [],
              SiteRecords(site, files[j + 1..], vegetation))
  {
    AcceptedTokens(files[j]);
    assert files[j..][1..] == files[j + 1..];
  }

  /** A file name that fails `check_filename` ends the files from it on with ValueError. */
  lemma SiteRecordsError(site: string, files: seq<string>, j: nat, vegetation: Setting<real>)
    requires j < |files| && CheckFilename(files[j]).Fail?
    ensures SiteRecords(site, files[j..], vegetation) == Err(ValueError)
  {
    assert files[j..][0] == files[j];
  }

  /** One row of the outer loop: its site's records, then those of the
      later rows; the first error ends the run. */
  lemma AllRecordsStep(sites: seq<Improve.Site>, i: nat, folders: string -> Option<seq<string>>, vegetation: Setting<real>)
    requires i < |sites|
    ensures AllRecords(sites[i..], folders, vegetation) ==
      var first := SiteEntry(sites[i], folders, vegetation);
      if first.Err? then Err(first.error) else Prepend(first.value, AllRecords(sites[i + 1..], folders, vegetation))
  {
    assert sites[i..][0] == sites[i];
    assert sites[i..][1..] == sites[i + 1..];
  }

  /** Lines 55-104: `get_site_info`, then the loop over the sites, each
      skipped when its folder is missing or empty, appending to the four
      FLEX lists. */
  method RecordFlexImages(rows: seq<SiteRow>, parses: string -> bool, numberText: real -> string,
                          folders: string -> Option<seq<string>>, vegetation: Setting<real>)
    returns (r: Result<seq<FlexRecord>>)
    ensures var table := Improve.GetSiteInfo(rows, parses, numberText);
      && (table.Err? ==> r == Err(table.error))
      && (table.Ok? ==> r == AllRecords(table.value, folders, vegetation))
  {
    var table := Improve.GetSiteInfo(rows, parses, numberText);
    if table.Err? {
      return Err(table.error);
    }
    var sites := table.value;
    var records: seq<FlexRecord> := [];
    var i := 0;
    assert sites[i..] == sites;
    while i < |sites|
      invariant 0 <= i <= |sites|
      invariant AllRecords(sites, folders, vegetation) == Prepend(records, AllRecords(sites[i..], folders, vegetation))
    {
      AllRecordsStep(sites, i, folders, vegetation);
      ghost var rest := AllRecords(sites[i + 1..], folders, vegetation);
      var listing := folders(sites[i].name);
      if listing.None? || |listing.value| == 0 {
        PrependTwice(records, [], rest);
        assert records + [] == records;
        i := i + 1;
        continue;
      }
      var siteRecords := RecordSiteFiles(sites[i].name, listing.value, vegetation);
      if siteRecords.Err? {
        return Err(siteRecords.error);
      }
      PrependTwice(records, siteRecords.value, rest);
      records := records + siteRecords.value;
      i := i + 1;
    }
    r := Ok(records);
    assert records + [] == records;
  }

  /** Lines 107-117: the S2 overrides. The CV threshold is gated and read in
      section `S2`; cloud and side are gated in `S2` but read from section
      `Optional Input`. Then `config["General"]["bool_delete_cache"]` is read. */
  method ApplyS2Overrides(cfg: Config, s2: Improve.S2) returns (o: Outcome)
    requires s2.Valid()
    modifies s2
    ensures s2.Valid()
    ensures o.Pass? <==>
      && Override(cfg, old(s2.thresholdCv), "S2", "threshold_cv", "S2", "threshold_cv").Ok?
      && Override(cfg, old(s2.cloud), "S2", "threshold_cloud", "Optional Input", "threshold_cloud").Ok?
      && Override(cfg, old(s2.area), "S2", "area_roi", "Optional Input", "area_roi").Ok?
      && Lookup(cfg, "General", "bool_delete_cache").Ok?
    ensures o.Fail? ==> o.error == KeyError
    ensures o.Pass? ==>
      && s2.thresholdCv == Override(cfg, old(s2.thresholdCv), "S2", "threshold_cv", "S2", "threshold_cv").value
      && s2.cloud == Override(cfg, old(s2.cloud), "S2", "threshold_cloud", "Optional Input", "threshold_cloud").value
      && s2.area == Override(cfg, old(s2.area), "S2", "area_roi", "Optional Input", "area_roi").value
  {
    var threshold := Override(cfg, s2.thresholdCv, "S2", "threshold_cv", "S2", "threshold_cv");
    if threshold.Err? {
      return Fail(threshold.error);
    }
    s2.thresholdCv := threshold.value;
    var cloud := Override(cfg, s2.cloud, "S2", "threshold_cloud", "Optional Input", "threshold_cloud");
    if cloud.Err? {
      return Fail(cloud.error);
    }
    s2.cloud := cloud.value;
    var area := Override(cfg, s2.area, "S2", "area_roi", "Optional Input", "area_roi");
    if area.Err? {
      return Fail(area.error);
    }
    s2.area := area.value;
    var deleteCache := Lookup(cfg, "General", "bool_delete_cache");
    if deleteCache.Err? {
      return Fail(deleteCache.error);
    }
    return Pass;
  }

  /** The S2 state the loop reads; this class has no `clip_RasterbySHP`. */
  function GateOf(s2: Improve.S2): (g: Gate)
    reads s2
    ensures !g.hasClip
    ensures g.area == s2.area && g.cloud == s2.cloud && g.thresholdCv == s2.thresholdCv
  {
    Gate(false, s2.area, s2.cloud, s2.thresholdCv)
  }

  /** Lines 123-245: with an empty S2 input folder only a warning is printed
      and no table is produced; otherwise the loop runs over the FLEX table. */
  method ProcessS2(s2: Improve.S2, inputs: Inputs, rootListing: seq<string>, rows: seq<FlexRow>)
    returns (r: Result<Option<Columns>>)
    ensures |rootListing| == 0 ==> r == Ok(None)
    ensures |rootListing| > 0 && r.Ok? ==>
      && r.value.Some?
      && |r.value.value.site| == |rows| && ListsOfLength(r.value.value.lists, |rows|)
      && forall k :: 0 <= k < |rows| ==> Ok(EntryAt(r.value.value.lists, k)) == RowResult(GateOf(s2), inputs, rows[k])
    ensures |rootListing| > 0 ==> (r.Err? <==> exists k :: 0 <= k < |rows| && RowResult(GateOf(s2), inputs, rows[k]).Err?)
  {
    if |rootListing| == 0 {
      return Ok(None);
    }
    var table := ProcessFlexTable(GateOf(s2), inputs, rows);
    FlexTableOneEntryPerRow(GateOf(s2), inputs, rows);
    if table.Err? {
      return Err(table.error);
    }
    return Ok(Some(table.value));
  }

  /** A side taken from the configuration is raw text, so the first row
      that reaches `create_shapefile` raises TypeError. */
  lemma TextSideStopsAtShapefile(cfg: Config, s2Area: Setting<int>, gate: Gate, scene: Scene)
    requires Override(cfg, s2Area, "S2", "area_roi", "Optional Input", "area_roi").Ok?
    requires Override(cfg, s2Area, "S2", "area_roi", "Optional Input", "area_roi").value.RawText?
    requires gate.area == Override(cfg, s2Area, "S2", "area_roi", "Optional Input", "area_roi").value
    requires ':' in scene.initL1C && ':' in scene.initL2A
    requires Roi.CrsCode(scene.initL1C) == Roi.CrsCode(scene.initL2A)
    ensures Assess(gate, scene) == Err(TypeError)
  {
  }

  /** A CV threshold taken from the configuration is raw text, so the first
      product that passes both gates raises TypeError in `cal_Flag`. */
  lemma TextThresholdStopsAtFlag(gate: Gate, filename: string, a: Assessed, cv: real)
    requires gate.thresholdCv.RawText?
    requires a.l1c.passed && a.l2a.passed
    ensures Record(gate.thresholdCv, filename, a, cv) == Err(TypeError)
  {
  }
}
