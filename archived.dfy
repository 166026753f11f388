/** The top-level script `Archived/Main.py`, driving the classes of
    `Class.py`: configuration overrides on both objects, the FLEX recording
    loop (every file of a site folder, without a name check), and the
    Sentinel-2 loop over the usable-FLEX table (the shared loop of
    `S2Rows`; this S2 class defines `clip_RasterbySHP`, so a flagged mask
    is judged by its clipped share instead of raising). */
module ArchivedMain {
  import opened Values
  import opened Text
  import opened Tables
  import opened FileNames
  import opened Grid
  import opened Roi
  import opened Quality
  import opened S2Rows
  import ClassPy

  /** Lines 35-49: every override is gated by section `OptionalInput` and
      read from section `Optional Input`, and stored as raw text on the
      private attributes; then `bool_DeleteCache` is read. */
  method ApplyOverrides(cfg: Config, flex: ClassPy.Flex, s2: ClassPy.S2) returns (o: Outcome)
    requires s2.Valid()
    modifies flex, s2
    ensures s2.Valid()
    ensures o.Pass? <==>
      && Override(cfg, old(flex.vegetationPixel), "OptionalInput", "threshold_vegetation",
                  "Optional Input", "threshold_vegetation").Ok?
      && Override(cfg, old(s2.thresholdCv), "OptionalInput", "threshold_cv", "Optional Input", "threshold_cv").Ok?
      && Override(cfg, old(s2.cloud), "OptionalInput", "threshold_cloud", "Optional Input", "threshold_cloud").Ok?
      && Override(cfg, old(s2.area), "OptionalInput", "area_roi", "Optional Input", "area_roi").Ok?
      && Lookup(cfg, "OptionalInput", "bool_deletecache").Ok?
    ensures o.Fail? ==> o.error == KeyError
    ensures o.Pass? ==>
      && flex.vegetationPixel == Override(cfg, old(flex.vegetationPixel), "OptionalInput", "threshold_vegetation",
                                          "Optional Input", "threshold_vegetation").value
      && s2.thresholdCv == Override(cfg, old(s2.thresholdCv), "OptionalInput", "threshold_cv",
                                    "Optional Input", "threshold_cv").value
      && s2.cloud == Override(cfg, old(s2.cloud), "OptionalInput", "threshold_cloud",
                              "Optional Input", "threshold_cloud").value
      && s2.area == Override(cfg, old(s2.area), "OptionalInput", "area_roi", "Optional Input", "area_roi").value
  {
    var vegetation := Override(cfg, flex.vegetationPixel, "OptionalInput", "threshold_vegetation",
                               "Optional Input", "threshold_vegetation");
    if vegetation.Err? {
      return Fail(vegetation.error);
    }
    flex.vegetationPixel := vegetation.value;
    var threshold := Override(cfg, s2.thresholdCv, "OptionalInput", "threshold_cv", "Optional Input", "threshold_cv");
    if threshold.Err? {
      return Fail(threshold.error);
    }
    s2.thresholdCv := threshold.value;
    var cloud := Override(cfg, s2.cloud, "OptionalInput", "threshold_cloud", "Optional Input", "threshold_cloud");
    if cloud.Err? {
      return Fail(cloud.error);
    }
    s2.cloud := cloud.value;
    var area := Override(cfg, s2.area, "OptionalInput", "area_roi", "Optional Input", "area_roi");
    if area.Err? {
      return Fail(area.error);
    }
    s2.area := area.value;
    var deleteCache := Lookup(cfg, "OptionalInput", "bool_deletecache");
    if deleteCache.Err? {
      return Fail(deleteCache.error);
    }
    return Pass;
  }

  /** The records of one site's files: every file, with the last two `_`
      fields of its stem as date and time; a stem without `_` raises
      IndexError. */
  function FileRecords(site: string, files: seq<string>): (r: Result<seq<FlexRecord>>)
    decreases |files|
  {
    if |files| == 0 then Ok([])
    else
      var date := FlexDateToken(files[0]);
      if date.Err? then Err(IndexError)
      else
        var rest := FileRecords(site, files[1..]);
        if rest.Err? then Err(rest.error)
        else Ok([FlexRecord(site, files[0], date.value, FlexTimeToken(files[0]))] + rest.value)
  }

  /** What the file loop leaves: IndexError exactly when some stem has no
      `_`; otherwise every file in order, with its site and its date and
      time tokens. */
  lemma {:induction false} FileRecordsMeaning(site: string, files: seq<string>)
    ensures var r := FileRecords(site, files);
      && (r.Err? <==> exists k :: 0 <= k < |files| && FlexDateToken(files[k]).Err?)
      && (r.Err? ==> r.error == IndexError)
      && (r.Ok? ==> |r.value| == |files|)
      && (r.Ok? ==> forall k :: 0 <= k < |files| ==>
            && r.value[k].site == site && r.value[k].filename == files[k]
            && Ok(r.value[k].date) == FlexDateToken(files[k]) && r.value[k].time == FlexTimeToken(files[k]))
    decreases |files|
  {
    if |files| > 0 && FlexDateToken(files[0]).Ok? {
      FileRecordsMeaning(site, files[1..]);
      assert forall k :: 0 <= k < |files[1..]| ==> files[1..][k] == files[k + 1];
    }
  }

  /** There is no name check: a file `<a>_<b>.<ext>` is recorded with date
      `<a>` and time `<b>` (for example `notes_v2.txt` gives `notes` and `v2`). */
  lemma {:induction false} AnyTwoFieldNameRecorded(a: string, b: string, ext: string)
    requires '_' !in a && '.' !in a && '_' !in b && '.' !in b
    ensures FlexDateToken(a + "_" + b + "." + ext) == Ok(a)
    ensures FlexTimeToken(a + "_" + b + "." + ext) == b
  {
    var name := a + "_" + b + "." + ext;
    var stem := a + ['_'] + b;
    assert name == stem + ['.'] + ext;
    assert '.' !in stem;
    SplitAround(stem, ext, '.');
    SplitWithoutSeparator(stem, '.');
    assert BeforeFirst(name, '.') == stem;
    SplitAround(a, b, '_');
    SplitWithoutSeparator(a, '_');
    SplitWithoutSeparator(b, '_');
    assert StemFields(name) == [a, b];
  }

  /** A file whose stem has no `_` stops the run with IndexError. */
  lemma {:induction false} SingleFieldNameRaises(a: string, ext: string)
    requires '_' !in a && '.' !in a
    ensures FlexDateToken(a + "." + ext) == Err(IndexError)
  {
    var name := a + "." + ext;
    assert name == a + ['.'] + ext;
    SplitAround(a, ext, '.');
    SplitWithoutSeparator(a, '.');
    SplitWithoutSeparator(a, '_');
    assert StemFields(name) == [a];
  }

  /** One site: its name (TypeError when the cell is not text), then nothing
      for a missing or empty folder, else every file. */
  function SiteEntry(row: SiteRow, folders: string -> Option<seq<string>>): (r: Result<seq<FlexRecord>>)
    ensures row.site.Text? && (folders(row.site.s).None? || folders(row.site.s) == Some([])) ==> r == Ok([])
    ensures row.site.Text? && folders(row.site.s).Some? ==> r == FileRecords(row.site.s, folders(row.site.s).value)
  {
    var name :- SiteName(row.site);
    match folders(name)
    case None => Ok([])
    case Some(files) => if |files| == 0 then Ok([]) else FileRecords(name, files)
  }

  /** The loop over the rows of the site table. */
  function AllRecords(rows: seq<SiteRow>, folders: string -> Option<seq<string>>): (r: Result<seq<FlexRecord>>)
    decreases |rows|
  {
    if |rows| == 0 then Ok([])
    else
      var first :- SiteEntry(rows[0], folders);
      var rest :- AllRecords(rows[1..], folders);
      Ok(first + rest)
  }

  /** When every site cell is text and every file name has a `_` in its
      stem, each site contributes exactly one record per file of its folder
      (none for a missing folder). */
  lemma {:induction false} RecordsPerSite(rows: seq<SiteRow>, folders: string -> Option<seq<string>>)
    requires forall k :: 0 <= k < |rows| ==> rows[k].site.Text?
    requires forall k, f :: 0 <= k < |rows| && folders(rows[k].site.s).Some? && f in folders(rows[k].site.s).value ==>
               FlexDateToken(f).Ok?
    ensures AllRecords(rows, folders).Ok?
    ensures |AllRecords(rows, folders).value| == FileCount(rows, folders)
    decreases |rows|
  {
    if |rows| > 0 {
      var name := rows[0].site.s;
      if folders(name).Some? {
        var files := folders(name).value;
        assert forall k :: 0 <= k < |files| ==> files[k] in files;
        FileRecordsMeaning(name, files);
      }
      assert forall k :: 0 <= k < |rows[1..]| ==> rows[1..][k] == rows[k + 1];
      RecordsPerSite(rows[1..], folders);
    }
  }

  /** The number of files in the folders of the sites (0 for a missing one). */
  function FileCount(rows: seq<SiteRow>, folders: string -> Option<seq<string>>): nat
    requires forall k :: 0 <= k < |rows| ==> rows[k].site.Text?
    decreases |rows|
  {
    if |rows| == 0 then 0
    else
      (match folders(rows[0].site.s) case None => 0 case Some(files) => |files|)
      + FileCount(rows[1..], folders)
  }

  /** Lines 54-119: with an empty FLEX input folder nothing is recorded and
      no table is written; otherwise the site loop runs over the site table
      of `get_SiteInfo`. */
  method RecordFlexImages(rootListing: seq<string>, rows: seq<SiteRow>, folders: string -> Option<seq<string>>)
    returns (r: Result<Option<seq<FlexRecord>>>)
    ensures |rootListing| == 0 ==> r == Ok(None)
    ensures |rootListing| > 0 ==>
      && (r.Ok? <==> AllRecords(rows, folders).Ok?)
      && (r.Ok? ==> r == Ok(Some(AllRecords(rows, folders).value)))
      && (r.Err? ==> r.error == AllRecords(rows, folders).error)
  {
    if |rootListing| == 0 {
      return Ok(None);
    }
    var table := ClassPy.GetSiteInfo(rows);
    if table.None? {
      return Ok(None);
    }
    var siteRows := table.value;
    var records: seq<FlexRecord> := [];
    var i := 0;
    assert siteRows[i..] == siteRows;
    while i < |siteRows|
      invariant 0 <= i <= |siteRows|
      invariant AllRecords(siteRows, folders) == Prepend(records, AllRecords(siteRows[i..], folders))
    {
      AllRecordsStep(siteRows, i, folders);
      ghost var rest := AllRecords(siteRows[i + 1..], folders);
      var name := SiteName(siteRows[i].site);
      if name.Err? {
        return Err(name.error);
      }
      var listing := folders(name.value);
      if listing.None? || |listing.value| == 0 {
        PrependTwice(records, [], rest);
        assert records + [] == records;
        i := i + 1;
        continue;
      }
      var siteRecords := RecordSiteFiles(name.value, listing.value);
      if siteRecords.Err? {
        return Err(siteRecords.error);
      }
      PrependTwice(records, siteRecords.value, rest);
      records := records + siteRecords.value;
      i := i + 1;
    }
    assert records + [] == records;
    return Ok(Some(records));
  }

  /** One row of the site loop: its site's records, then those of the
      later rows; the first error ends the run. */
  lemma AllRecordsStep(rows: seq<SiteRow>, i: nat, folders: string -> Option<seq<string>>)
    requires i < |rows|
    ensures AllRecords(rows[i..], folders) ==
      var first := SiteEntry(rows[i], folders);
      if first.Err? then Err(first.error) else Prepend(first.value, AllRecords(rows[i + 1..], folders))
  {
    assert rows[i..][0] == rows[i];
    assert rows[i..][1..] == rows[i + 1..];
  }

  /** One file of the file loop: its record before those of the later
      files, or IndexError when its stem has no `_`. */
  lemma FileRecordsStep(site: string, files: seq<string>, k: nat)
    requires k < |files|
    ensures FileRecords(site, files[k..]) ==
      var date := FlexDateToken(files[k]);
      if date.Err? then Err(IndexError)
      else Prepend([FlexRecord(site, files[k], date.value, FlexTimeToken(files[k]))], FileRecords(site, files[k + 1..]))
  {
    assert files[k..][0] == files[k];
    assert files[k..][1..] == files[k + 1..];
  }

  /** Lines 78-88: the loop over one site's files. */
  method RecordSiteFiles(site: string, files: seq<string>) returns (r: Result<seq<FlexRecord>>)
    ensures r == FileRecords(site, files)
  {
    var records: seq<FlexRecord> := [];
    var k := 0;
    assert files[k..] == files;
    while k < |files|
      invariant 0 <= k <= |files|
      invariant FileRecords(site, files) == Prepend(records, FileRecords(site, files[k..]))
    {
      FileRecordsStep(site, files, k);
      var date := FlexDateToken(files[k]);
      if date.Err? {
        return Err(date.error);
      }
      var record := FlexRecord(site, files[k], date.value, FlexTimeToken(files[k]));
      PrependTwice(records, [record], FileRecords(site, files[k + 1..]));
      records := records + [record];
      k := k + 1;
    }
    assert records + [] == records;
    return Ok(records);
  }

  /** The S2 state the loop reads; this class defines `clip_RasterbySHP`. */
  function GateOf(s2: ClassPy.S2): (g: Gate)
    reads s2
    ensures g.hasClip
    ensures g.area == s2.area && g.cloud == s2.cloud && g.thresholdCv == s2.thresholdCv
  {
    Gate(true, s2.area, s2.cloud, s2.thresholdCv)
  }

  /** Lines 121-249: with an empty S2 input folder no table is produced;
      otherwise the loop runs over the FLEX table. */
  method ProcessS2(s2: ClassPy.S2, inputs: Inputs, rootListing: seq<string>, rows: seq<FlexRow>)
    returns (r: Result<Option<Columns>>)
    ensures |rootListing| == 0 ==> r == Ok(None)
    ensures |rootListing| > 0 && r.Ok? ==>
      && r.value.Some?
      && |r.value.value.site| == |rows| && ListsOfLength(r.value.value.lists, |rows|)
      && forall k :: 0 <= k < |rows| ==> Ok(EntryAt(r.value.value.lists, k)) == RowResult(GateOf(s2), inputs, rows[k])
    ensures |rootListing| > 0 ==> (r.Err? <==> exists k :: 0 <= k < |rows| && RowResult(GateOf(s2), inputs, rows[k]).Err?)
  {
    if |rootListing| == 0 {
      return Ok(None);
    }
    var table := ProcessFlexTable(GateOf(s2), inputs, rows);
    FlexTableOneEntryPerRow(GateOf(s2), inputs, rows);
    if table.Err? {
      return Err(table.error);
    }
    return Ok(Some(table.value));
  }

  /** With the clip method present, a product whose masks flag cells is not
      an error: with a numeric cloud threshold each gate passes exactly when
      the clear share of its clipped mask reaches the threshold. */
  lemma FlaggedMasksAreJudged(gate: Gate, scene: Scene)
    requires gate.hasClip && gate.cloud.Checked?
    requires CreateShapefile(scene.initL1C, scene.initL2A, gate.area, scene.px, scene.py).Ok?
    requires Combine(scene.masksL1C).Ok? && Combine(scene.masksL2A).Ok?
    requires |Flatten(Combine(scene.masksL1C).value)| > 0 && HasPositive(Combine(scene.masksL1C).value)
    requires |Flatten(Combine(scene.masksL2A).value)| > 0 && HasPositive(Combine(scene.masksL2A).value)
    requires HasPositive(scene.clippedL1C) && HasPositive(scene.clippedL2A)
    ensures Assess(gate, scene).Ok?
    ensures Assess(gate, scene).value.l1c.passed <==> Assess(gate, scene).value.l1c.ratio >= gate.cloud.value
    ensures Assess(gate, scene).value.l2a.passed <==> Assess(gate, scene).value.l2a.ratio >= gate.cloud.value
  {
    CloudyBranch(gate.cloud, gate.area, Combine(scene.masksL1C).value, scene.clippedL1C);
    CloudyBranch(gate.cloud, gate.area, Combine(scene.masksL2A).value, scene.clippedL2A);
    CloudyVerdictMeaning(gate.cloud.value, scene.clippedL1C);
    CloudyVerdictMeaning(gate.cloud.value, scene.clippedL2A);
  }
}
