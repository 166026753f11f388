/** The `main()` of `Main.py`: a loop over the site table and, per site,
    over its FLEX `.nc` images, appending to parallel lists that become the
    columns of the L2B log report. Each image walks a chain of gates (file
    name, FLOX date, S2 folder, nearest S2 date, time window, S2 settings,
    valid pixels) and every way out of that chain fills every per-image
    list exactly once. The services of the S2 class `main()` constructs
    (`cal_valid_pixels()`, `cal_l2a_indices`, `cal_transfer_function`) and
    the FLOX date dictionary are inputs. */
module CalvalMain {
  import opened Values
  import opened Text
  import opened FileNames
  import opened Calendar
  import opened Matching
  import Strptime
  import Calval

  /** One row of the site table as `main()` reads it (lines 87-94). */
  datatype SiteInfo = SiteInfo(name: string, lat: real, lon: real, roi: int, window: int,
                               thresholdCv: real, vegetation: real, cloud: real)

  /** A value in a report column: `'N/A'`, a string, a float or an int. */
  datatype Cell = NA | Str(s: string) | Num(x: real) | Whole(n: int)

  /** The eight site-level lists (lines 42-49). */
  datatype SiteColumn = SiteCode | Latitude | Longitude | ReferenceArea | TimeWindow
                      | ThresholdCv | VegetationPixel | ThresholdCloud

  /** The seventeen per-image lists (lines 51-67). */
  datatype Column =
    | FlexDate | FlexTime | FlexFilename | FlexValidPixels
    | S2Filename | S2Date | S2Time | S2ValidPixels | TimeDifference
    | NirvAvg | NirvStd | NirvCv | NdviAvg | NdviStd | NdviCv | NirvCvFlag | NdviCvFlag

  /** `list_list_others`, every per-image list (lines 72-76). */
  const Others: seq<Column> :=
    [FlexDate, FlexTime, FlexFilename, FlexValidPixels, S2Filename, S2Date, S2Time, S2ValidPixels,
     TimeDifference, NirvAvg, NirvStd, NirvCv, NdviAvg, NdviStd, NdviCv, NirvCvFlag, NdviCvFlag]

  /** `list_list_others_noflex`, the lists filled after the FLEX part (lines 77-80). */
  const OthersNoFlex: seq<Column> :=
    [S2Filename, S2Date, S2Time, S2ValidPixels, TimeDifference, NirvAvg, NirvStd, NirvCv,
     NdviAvg, NdviStd, NdviCv, NirvCvFlag, NdviCvFlag]

  /** The four lists of the FLEX part. */
  predicate IsFlexColumn(c: Column)
  {
    c == FlexDate || c == FlexTime || c == FlexFilename || c == FlexValidPixels
  }

  /** The five lists of the chosen S2 image. */
  predicate IsS2Column(c: Column)
  {
    c == S2Filename || c == S2Date || c == S2Time || c == S2ValidPixels || c == TimeDifference
  }

  /** The eight index lists filled from `cal_l2a_indices`. */
  predicate IsIndexColumn(c: Column)
  {
    c == NirvAvg || c == NirvStd || c == NirvCv || c == NdviAvg || c == NdviStd || c == NdviCv
    || c == NirvCvFlag || c == NdviCvFlag
  }

  /** The position of a list in `list_list_others`; the FLEX lists come
      first, then the S2 lists, then the index lists. */
  function Rank(c: Column): (k: nat)
    ensures k < 17
  {
    match c
    case FlexDate => 0
    case FlexTime => 1
    case FlexFilename => 2
    case FlexValidPixels => 3
    case S2Filename => 4
    case S2Date => 5
    case S2Time => 6
    case S2ValidPixels => 7
    case TimeDifference => 8
    case NirvAvg => 9
    case NirvStd => 10
    case NirvCv => 11
    case NdviAvg => 12
    case NdviStd => 13
    case NdviCv => 14
    case NirvCvFlag => 15
    case NdviCvFlag => 16
  }

  /** A list is found at its rank, and its rank tells its part. */
  lemma RankPlacesColumn(c: Column)
    ensures Others[Rank(c)] == c
    ensures IsFlexColumn(c) <==> Rank(c) < 4
    ensures IsS2Column(c) <==> 4 <= Rank(c) < 9
    ensures IsIndexColumn(c) <==> 9 <= Rank(c)
  {
    match c
    case FlexDate =>
    case FlexTime =>
    case FlexFilename =>
    case FlexValidPixels =>
    case S2Filename =>
    case S2Date =>
    case S2Time =>
    case S2ValidPixels =>
    case TimeDifference =>
    case NirvAvg =>
    case NirvStd =>
    case NirvCv =>
    case NdviAvg =>
    case NdviStd =>
    case NdviCv =>
    case NirvCvFlag =>
    case NdviCvFlag =>
  }

  /** Each list sits at its own rank, and the no-FLEX group is the tail of
      `list_list_others` after the four FLEX lists. */
  lemma RankOfOthers()
    ensures forall i :: 0 <= i < |Others| ==> Rank(Others[i]) == i
    ensures OthersNoFlex == Others[4..]
  {
  }

  /** Every list is in `list_list_others` and in one of the three parts,
      and the no-FLEX group is exactly the lists outside the FLEX part. */
  lemma ColumnGroups(c: Column)
    ensures c in Others
    ensures IsFlexColumn(c) || IsS2Column(c) || IsIndexColumn(c)
    ensures c in OthersNoFlex <==> !IsFlexColumn(c)
  {
    var k := Rank(c);
    RankPlacesColumn(c);
    RankOfOthers();
    if !IsFlexColumn(c) {
      assert OthersNoFlex[k - 4] == c;
    }
    if c in OthersNoFlex {
      var i :| 0 <= i < |OthersNoFlex| && OthersNoFlex[i] == c;
      assert Others[i + 4] == c;
    }
  }

  /** The note of one image (the f-strings of lines 120-310, by their data). */
  datatype Note =
    | NoFlexImages
    | NoFloxOnDate(date: string)
    | NoS2Images
    | NoS2WithinWindow(days: int)
    | FloxOnInvalidPixel
    | NoRemark
    | InvalidPixelsExceed(percent: real)

  /** What `cal_valid_pixels()` returns: pass, valid count, valid share. */
  datatype S2Check = S2Check(passed: bool, validPixels: real, share: real)

  /** What `cal_l2a_indices()` returns, in its order. */
  datatype Indices = Indices(ndviStd: real, ndviAvg: real, ndviCv: real, ndviFlag: int,
                             nirvStd: real, nirvAvg: real, nirvCv: real, nirvFlag: int)

  /** The FLOX dictionary, the folder listings and the S2 services. */
  datatype Services = Services(
    floxFound: bool,
    floxDates: map<string, set<string>>,
    flexFolders: string -> Option<seq<string>>,
    s2Folders: string -> Option<seq<string>>,
    validPixels: (SiteInfo, string) -> S2Check,
    indices: (SiteInfo, string) -> Indices,
    floxInvalid: (SiteInfo, string, string) -> bool)

  datatype FlexPart = FlexPart(filename: string, date: string, time: string)
  datatype S2Part = S2Part(filename: string, date: string, time: string, days: int, share: real)

  /** What one image (or one site without images) leaves in the lists: the
      parts that were recorded, the rest being `'N/A'`, and its note. */
  datatype Entry = Entry(flex: Option<FlexPart>, s2: Option<S2Part>, indices: Option<Indices>, note: Note)

  /** The parts are recorded in order: no S2 part without the FLEX part,
      no indices without the S2 part. */
  predicate InOrder(e: Entry)
  {
    (e.s2.Some? ==> e.flex.Some?) && (e.indices.Some? ==> e.s2.Some?)
  }

  /** The value an entry leaves in one list: each group of lists reads only
      its own part of the entry. */
  function CellOf(e: Entry, c: Column): Cell
  {
    if IsFlexColumn(c) then FlexCell(e.flex, c)
    else if IsS2Column(c) then S2Cell(e.s2, c)
    else IndexCell(e.indices, c)
  }

  /** Lines 171-174: the FLEX lists; `FlexValidPixels` is the remaining one. */
  function FlexCell(flex: Option<FlexPart>, c: Column): Cell
  {
    match flex
    case None => NA
    case Some(f) =>
      match c
      case FlexDate => Str(f.date)
      case FlexTime => Str(f.time)
      case FlexFilename => Str(f.filename)
      case _ => Whole(100)
  }

  /** Lines 218-221 and 246: the S2 lists; `TimeDifference` is the remaining one. */
  function S2Cell(s2: Option<S2Part>, c: Column): Cell
  {
    match s2
    case None => NA
    case Some(s) =>
      match c
      case S2Filename => Str(s.filename)
      case S2Date => Str(s.date)
      case S2Time => Str(s.time)
      case S2ValidPixels => Num(s.share * 100.0)
      case _ => Whole(s.days)
  }

  /** Lines 259-266: the index lists; `NdviCvFlag` is the remaining one. */
  function IndexCell(indices: Option<Indices>, c: Column): Cell
  {
    match indices
    case None => NA
    case Some(ind) =>
      match c
      case NirvAvg => Num(ind.nirvAvg)
      case NirvStd => Num(ind.nirvStd)
      case NirvCv => Num(ind.nirvCv * 100.0)
      case NdviAvg => Num(ind.ndviAvg)
      case NdviStd => Num(ind.ndviStd)
      case NdviCv => Num(ind.ndviCv * 100.0)
      case NirvCvFlag => Whole(ind.nirvFlag)
      case _ => Whole(ind.ndviFlag)
  }

  /** The value a site leaves in one site-level list (lines 96-103). */
  function SiteCell(site: SiteInfo, sc: SiteColumn): Cell
  {
    match sc
    case SiteCode => Str(site.name)
    case Latitude => Num(site.lat)
    case Longitude => Num(site.lon)
    case ReferenceArea => Whole(site.roi)
    case TimeWindow => Whole(site.window)
    case ThresholdCv => Num(site.thresholdCv * 100.0)
    case VegetationPixel => Num(site.vegetation * 100.0)
    case ThresholdCloud => Num(site.cloud * 100.0)
  }

  /** One list of the report: entry `k` leaves its value at position `k`. */
  function ColumnOf(es: seq<Entry>, c: Column): (col: seq<Cell>)
    ensures |col| == |es|
    ensures forall k :: 0 <= k < |es| ==> col[k] == CellOf(es[k], c)
    decreases |es|
  {
    if |es| == 0 then [] else ColumnOf(es[..|es| - 1], c) + [CellOf(es[|es| - 1], c)]
  }

  /** `list_note`. */
  function NotesOf(es: seq<Entry>): (notes: seq<Note>)
    ensures |notes| == |es|
    ensures forall k :: 0 <= k < |es| ==> notes[k] == es[k].note
    decreases |es|
  {
    if |es| == 0 then [] else NotesOf(es[..|es| - 1]) + [es[|es| - 1].note]
  }

  /** One site-level list: site `k` leaves its value at position `k`. */
  function SiteColumnOf(sites: seq<SiteInfo>, sc: SiteColumn): (col: seq<Cell>)
    ensures |col| == |sites|
    ensures forall k :: 0 <= k < |sites| ==> col[k] == SiteCell(sites[k], sc)
    decreases |sites|
  {
    if |sites| == 0 then [] else SiteColumnOf(sites[..|sites| - 1], sc) + [SiteCell(sites[|sites| - 1], sc)]
  }

  /** The site-level lists record exactly the sites `sites`. */
  predicate SiteMirrors(lists: map<SiteColumn, seq<Cell>>, sites: seq<SiteInfo>)
  {
    && SiteComplete(lists)
    && forall sc :: lists[sc] == SiteColumnOf(sites, sc)
  }

  /** Appending a site's values keeps the site-level lists in step with
      the sites. */
  lemma SiteMirrorsExtend(lists: map<SiteColumn, seq<Cell>>, sites: seq<SiteInfo>, i: nat,
                          lists': map<SiteColumn, seq<Cell>>)
    requires i < |sites| && SiteMirrors(lists, sites[..i])
    requires SiteComplete(lists') && forall sc :: lists'[sc] == lists[sc] + [SiteCell(sites[i], sc)]
    ensures SiteMirrors(lists', sites[..i + 1])
  {
    assert sites[..i + 1][..i] == sites[..i];
  }

  /** Lines 124: the `.nc` files of a listing, in listing order. */
  function NcFiles(listing: seq<string>): (r: seq<string>)
    ensures forall f :: f in r <==> f in listing && EndsWith(f, ".nc")
    ensures |r| <= |listing|
    decreases |listing|
  {
    if |listing| == 0 then []
    else if EndsWith(listing[0], ".nc") then [listing[0]] + NcFiles(listing[1..])
    else NcFiles(listing[1..])
  }

  /** Lines 227-229: the `area`, `threshold_cv` and `cloud` setters of the
      S2 object, in that order. */
  function S2Settings(site: SiteInfo): (o: Outcome)
    ensures o.Pass? <==> Calval.IsS2Side(site.roi) && site.thresholdCv > 0.0 && Calval.IsFraction(site.cloud)
    ensures o.Fail? ==> o.error == ValueError
  {
    if !Calval.IsS2Side(site.roi) then Fail(ValueError)
    else if site.thresholdCv <= 0.0 then Fail(ValueError)
    else if !Calval.IsFraction(site.cloud) then Fail(ValueError)
    else Pass
  }

  /** The entry of a site without a folder or without `.nc` files. */
  const NoFlexEntry: Entry := Entry(None, None, None, NoFlexImages)

  /** What the S2 part of one image leaves: the S2 record and the indices,
      when they were computed, and the note. */
  datatype S2Leaves = S2Leaves(s2: Option<S2Part>, indices: Option<Indices>, note: Note)

  /** Lines 218-313, once `image` is the chosen S2 image, `days` days after
      the FLEX date: its time token, the S2 setters, then the valid-pixel
      gate, which decides between the indices and `'N/A'`. */
  function S2Record(env: Services, site: SiteInfo, date: string, image: string, days: int): (r: Result<S2Leaves>)
    requires S2DateToken(image).Ok?
    ensures r.Ok? <==> S2TimeToken(image).Ok? && S2Settings(site).Pass?
    ensures r.Err? ==> r.error == IndexError || r.error == ValueError
    ensures r.Ok? ==>
      && r.value.s2 == Some(S2Part(image, S2DateToken(image).value, S2TimeToken(image).value, days,
                                   env.validPixels(site, image).share))
      && (r.value.indices.Some? <==> env.validPixels(site, image).passed)
    ensures r.Ok? && r.value.indices.Some? ==>
      && r.value.indices.value == env.indices(site, image)
      && (r.value.note == FloxOnInvalidPixel <==> env.floxInvalid(site, image, date))
      && (r.value.note == NoRemark <==> !env.floxInvalid(site, image, date))
    ensures r.Ok? && r.value.indices.None? ==> r.value.note == InvalidPixelsExceed(site.cloud * 100.0)
  {
    var s2time :- S2TimeToken(image);
    if S2Settings(site).Fail? then Err(S2Settings(site).error)
    else
      var check := env.validPixels(site, image);
      var s2 := S2Part(image, S2DateToken(image).value, s2time, days, check.share);
      if check.passed then
        Ok(S2Leaves(Some(s2), Some(env.indices(site, image)),
                    if env.floxInvalid(site, image, date) then FloxOnInvalidPixel else NoRemark))
      else
        Ok(S2Leaves(Some(s2), None, InvalidPixelsExceed(site.cloud * 100.0)))
  }

  /** Every name the scan keyed has a date token. */
  lemma ScannedNamesHaveDates(names: seq<string>, i: nat)
    requires Keys(names, S2DayKey).Ok? && i < |names|
    ensures S2DateToken(names[i]).Ok?
  {
    KeysFailIffSomeKeyFails(names, S2DayKey);
  }

  /** Lines 182-313, the S2 part of an image whose FLEX date is `day`: the
      S2 listing, the nearest S2 date and the window gate, then the record
      of the chosen image. */
  function S2Stage(env: Services, site: SiteInfo, date: string, day: int): (r: Result<S2Leaves>)
    ensures env.s2Folders(site.name).None? ==> r == Err(FileNotFoundError)
    ensures env.s2Folders(site.name) == Some([]) ==> r == Ok(S2Leaves(None, None, NoS2Images))
    ensures r.Ok? && r.value.s2.None? ==>
      r.value.indices.None? && (r.value.note == NoS2Images || r.value.note == NoS2WithinWindow(site.window))
    ensures r.Ok? && r.value.s2.Some? ==>
      && env.s2Folders(site.name).Some? && |env.s2Folders(site.name).value| > 0
      && var names := env.s2Folders(site.name).value;
         var choice := NearestChoice(names, S2DayKey, day);
         && choice.Ok?
         && IsFirstNearest(Differences(Keys(names, S2DayKey).value, day), choice.value.index)
         && !OutsideWindow(choice.value.diff, site.window)
         && S2DateToken(names[choice.value.index]).Ok?
         && r == S2Record(env, site, date, names[choice.value.index], choice.value.diff)
  {
    match env.s2Folders(site.name)
    case None => Err(FileNotFoundError)
    case Some(names) =>
      if |names| == 0 then Ok(S2Leaves(None, None, NoS2Images))
      else
        var choice :- NearestChoice(names, S2DayKey, day);
        if OutsideWindow(choice.diff, site.window) then Ok(S2Leaves(None, None, NoS2WithinWindow(site.window)))
        else
          ScannedNamesHaveDates(names, choice.index);
          S2Record(env, site, date, names[choice.index], choice.diff)
  }

  /** The window gate: when the nearest S2 image lies more than `window`
      days after the FLEX date the S2 part records nothing; one on or before
      the FLEX date is never turned away by the gate. */
  lemma WindowGate(env: Services, site: SiteInfo, date: string, day: int)
    requires env.s2Folders(site.name).Some? && |env.s2Folders(site.name).value| > 0
    requires NearestChoice(env.s2Folders(site.name).value, S2DayKey, day).Ok?
    requires site.window >= 0
    ensures var choice := NearestChoice(env.s2Folders(site.name).value, S2DayKey, day).value;
      && (OutsideWindow(choice.diff, site.window) ==>
            S2Stage(env, site, date, day) == Ok(S2Leaves(None, None, NoS2WithinWindow(site.window))))
      && (choice.diff <= 0 && S2Stage(env, site, date, day).Ok? ==> S2Stage(env, site, date, day).value.s2.Some?)
  {
    var choice := NearestChoice(env.s2Folders(site.name).value, S2DayKey, day).value;
    WindowIsOneSided(choice.diff, site.window);
  }

  /** Lines 141-174 and the S2 part, one FLEX image: the file-name check,
      the FLOX date gate, the FLEX record, then the S2 part. */
  function ImageEntry(env: Services, site: SiteInfo, file: string): (r: Result<Entry>)
    ensures CheckFilename(file).Fail? ==> r == Err(ValueError)
    ensures CheckFilename(file).Pass? && site.name !in env.floxDates ==> r == Err(KeyError)
    ensures r.Ok? ==> CheckFilename(file).Pass? && FlexDateToken(file).Ok? && site.name in env.floxDates
    ensures r.Ok? ==> InOrder(r.value)
    ensures r.Ok? ==> (r.value.flex.None? <==> FlexDateToken(file).value !in env.floxDates[site.name])
    ensures r.Ok? && r.value.flex.None? ==>
      r.value == Entry(None, None, None, NoFloxOnDate(FlexDateToken(file).value))
    ensures r.Ok? && r.value.flex.Some? ==>
      && r.value.flex.value == FlexPart(file, FlexDateToken(file).value, FlexTimeToken(file))
      && Strptime.StrptimeDate(FlexDateToken(file).value).Ok?
      && S2Stage(env, site, FlexDateToken(file).value, Strptime.StrptimeDate(FlexDateToken(file).value).value)
         == Ok(S2Leaves(r.value.s2, r.value.indices, r.value.note))
  {
    if CheckFilename(file).Fail? then Err(ValueError)
    else
      AcceptedTokens(file);
      var date := FlexDateToken(file).value;
      if site.name !in env.floxDates then Err(KeyError)
      else if date !in env.floxDates[site.name] then Ok(Entry(None, None, None, NoFloxOnDate(date)))
      else
        var flex := FlexPart(file, date, FlexTimeToken(file));
        var day :- Strptime.StrptimeDate(date);
        var s :- S2Stage(env, site, date, day);
        Ok(Entry(Some(flex), s.s2, s.indices, s.note))
  }

  /** A FLEX date missing from the site's FLOX dates skips the image: every
      per-image list gets `'N/A'` and the note names the date. */
  lemma FloxGateSkipsImage(env: Services, site: SiteInfo, date: string, time: string)
    requires |date| == 8 && AllDigits(date) && |time| == 6 && AllDigits(time)
    requires site.name in env.floxDates && date !in env.floxDates[site.name]
    ensures ImageEntry(env, site, FlexName(date, time)) == Ok(Entry(None, None, None, NoFloxOnDate(date)))
    ensures forall c :: CellOf(ImageEntry(env, site, FlexName(date, time)).value, c) == NA
  {
    FlexNameAccepted(date, time);
    FlexTokensRoundTrip(date, time);
  }

  /** A site without images leaves `'N/A'` in every per-image list. */
  lemma NoFlexEntryIsAllNA(c: Column)
    ensures CellOf(NoFlexEntry, c) == NA && NoFlexEntry.note == NoFlexImages
  {
  }

  /** `items` processed one after the other, each yielding one entry, until
      the first that raises. */
  function Collect<X>(step: X -> Result<Entry>, items: seq<X>): (r: Result<seq<Entry>>)
    decreases |items|
  {
    if |items| == 0 then Ok([])
    else
      var before :- Collect(step, items[..|items| - 1]);
      var e :- step(items[|items| - 1]);
      Ok(before + [e])
  }

  /** One entry per item when none raises, otherwise the first error. */
  lemma {:induction false} CollectOnePerItem<X>(step: X -> Result<Entry>, items: seq<X>)
    ensures Collect(step, items).Ok? <==> forall k :: 0 <= k < |items| ==> step(items[k]).Ok?
    ensures Collect(step, items).Ok? ==>
      && |Collect(step, items).value| == |items|
      && forall k :: 0 <= k < |items| ==> Ok(Collect(step, items).value[k]) == step(items[k])
    ensures Collect(step, items).Err? ==>
      exists k :: 0 <= k < |items| && step(items[k]) == Err(Collect(step, items).error)
                && forall m :: 0 <= m < k ==> step(items[m]).Ok?
    decreases |items|
  {
    if |items| > 0 {
      var init := items[..|items| - 1];
      CollectOnePerItem(step, init);
      assert forall k :: 0 <= k < |init| ==> init[k] == items[k];
      var before := Collect(step, init);
      if before.Err? {
        var k :| 0 <= k < |init| && step(init[k]) == Err(before.error)
                 && forall m :: 0 <= m < k ==> step(init[m]).Ok?;
        assert step(items[k]) == Err(Collect(step, items).error);
      }
    }
  }

  /** One more item whose step succeeds extends a successful run. */
  lemma CollectStep<X>(step: X -> Result<Entry>, items: seq<X>, n: nat)
    requires n < |items| && Collect(step, items[..n]).Ok? && step(items[n]).Ok?
    ensures Collect(step, items[..n + 1]) == Ok(Collect(step, items[..n]).value + [step(items[n]).value])
  {
    assert items[..n + 1][..n] == items[..n];
  }

  /** An error in a prefix is the error of the whole run. */
  lemma {:induction false} CollectPrefixError<X>(step: X -> Result<Entry>, items: seq<X>, n: nat)
    requires n <= |items| && Collect(step, items[..n]).Err?
    ensures Collect(step, items) == Err(Collect(step, items[..n]).error)
    decreases |items| - n
  {
    if n < |items| {
      assert items[..n + 1][..n] == items[..n];
      CollectPrefixError(step, items, n + 1);
    } else {
      assert items[..n] == items;
    }
  }

  /** `items` processed one after the other, each yielding several entries. */
  function Gather<X>(step: X -> Result<seq<Entry>>, items: seq<X>): (r: Result<seq<Entry>>)
    decreases |items|
  {
    if |items| == 0 then Ok([])
    else
      var before :- Gather(step, items[..|items| - 1]);
      var es :- step(items[|items| - 1]);
      Ok(before + es)
  }

  /** One more item whose step succeeds extends a successful gather. */
  lemma GatherStep<X>(step: X -> Result<seq<Entry>>, items: seq<X>, n: nat)
    requires n < |items| && Gather(step, items[..n]).Ok? && step(items[n]).Ok?
    ensures Gather(step, items[..n + 1]) == Ok(Gather(step, items[..n]).value + step(items[n]).value)
  {
    assert items[..n + 1][..n] == items[..n];
  }

  /** An error in a prefix is the error of the whole run. */
  lemma {:induction false} GatherPrefixError<X>(step: X -> Result<seq<Entry>>, items: seq<X>, n: nat)
    requires n <= |items| && Gather(step, items[..n]).Err?
    ensures Gather(step, items) == Err(Gather(step, items[..n]).error)
    decreases |items| - n
  {
    if n < |items| {
      assert items[..n + 1][..n] == items[..n];
      GatherPrefixError(step, items, n + 1);
    } else {
      assert items[..n] == items;
    }
  }

  /** When every item yields at least one entry, there are at least as many
      entries as items, and exactly as many when every item yields one. */
  lemma {:induction false} GatherAligned<X>(step: X -> Result<seq<Entry>>, items: seq<X>)
    requires Gather(step, items).Ok?
    requires forall x :: step(x).Ok? ==> |step(x).value| >= 1
    ensures forall k :: 0 <= k < |items| ==> step(items[k]).Ok?
    ensures |Gather(step, items).value| >= |items|
    ensures |Gather(step, items).value| == |items| <==> forall k :: 0 <= k < |items| ==> |step(items[k]).value| == 1
    decreases |items|
  {
    if |items| > 0 {
      var init := items[..|items| - 1];
      assert forall k :: 0 <= k < |init| ==> init[k] == items[k];
      GatherAligned(step, init);
    }
  }

  /** Lines 140-313: the images of one site, in listing order. */
  /** The image loop's step. */
  function ImageStep(env: Services, site: SiteInfo): (step: string -> Result<Entry>)
    ensures forall f :: step(f) == ImageEntry(env, site, f)
  {
    f => ImageEntry(env, site, f)
  }

  /** Lines 140-313: the images of one site, in listing order. */
  function ImageEntries(env: Services, site: SiteInfo, files: seq<string>): (r: Result<seq<Entry>>)
    ensures r.Ok? <==> forall k :: 0 <= k < |files| ==> ImageEntry(env, site, files[k]).Ok?
    ensures r.Ok? ==> |r.value| == |files|
  {
    CollectOnePerItem(ImageStep(env, site), files);
    Collect(ImageStep(env, site), files)
  }

  /** Lines 96-134 and the image loop: a site leaves one entry when it has
      no folder or no `.nc` file, otherwise one per `.nc` file; the
      vegetation setter (line 105) raises on a share outside [0, 1]. */
  function SiteEntries(env: Services, site: SiteInfo): (r: Result<seq<Entry>>)
    ensures !Calval.IsFraction(site.vegetation) ==> r == Err(ValueError)
    ensures Calval.IsFraction(site.vegetation) && env.flexFolders(site.name).None? ==> r == Ok([NoFlexEntry])
    ensures Calval.IsFraction(site.vegetation) && env.flexFolders(site.name).Some? ==>
      (if |NcFiles(env.flexFolders(site.name).value)| == 0 then r == Ok([NoFlexEntry])
       else r == ImageEntries(env, site, NcFiles(env.flexFolders(site.name).value)))
    ensures r.Ok? ==> |r.value| >= 1
  {
    if !Calval.IsFraction(site.vegetation) then Err(ValueError)
    else
      match env.flexFolders(site.name)
      case None => Ok([NoFlexEntry])
      case Some(listing) =>
        var nc := NcFiles(listing);
        if |nc| == 0 then Ok([NoFlexEntry]) else ImageEntries(env, site, nc)
  }

  /** The site loop's step. */
  function SiteStep(env: Services): (step: SiteInfo -> Result<seq<Entry>>)
    ensures forall site :: step(site) == SiteEntries(env, site)
  {
    site => SiteEntries(env, site)
  }

  /** The site loop (lines 83-313). */
  function AllEntries(env: Services, sites: seq<SiteInfo>): (r: Result<seq<Entry>>)
  {
    Gather(SiteStep(env), sites)
  }

  /** The report lines up (one entry per site) exactly when every site
      leaves one entry; no site leaves fewer. */
  lemma AlignedIffOneEntryPerSite(env: Services, sites: seq<SiteInfo>)
    requires AllEntries(env, sites).Ok?
    ensures forall k :: 0 <= k < |sites| ==> SiteEntries(env, sites[k]).Ok?
    ensures |AllEntries(env, sites).value| >= |sites|
    ensures |AllEntries(env, sites).value| == |sites| <==>
            forall k :: 0 <= k < |sites| ==> |SiteEntries(env, sites[k]).value| == 1
  {
    GatherAligned(SiteStep(env), sites);
  }

  /** Two `.nc` images at one site leave two entries against one row of
      site data, so the report's columns cannot line up. */
  lemma TwoImagesMisalignReport(env: Services, sites: seq<SiteInfo>, k: nat)
    requires AllEntries(env, sites).Ok? && k < |sites|
    requires env.flexFolders(sites[k].name).Some? && |NcFiles(env.flexFolders(sites[k].name).value)| >= 2
    ensures |AllEntries(env, sites).value| > |sites|
  {
    AlignedIffOneEntryPerSite(env, sites);
  }

  /** A site-level list as the report needs it: each site's value repeated
      once per entry the site leaves, as if the eight site appends sat in
      the image loop and in each skip branch. */
  function SiteColumnPerEntry(env: Services, sites: seq<SiteInfo>, sc: SiteColumn): (r: Result<seq<Cell>>)
    decreases |sites|
  {
    if |sites| == 0 then Ok([])
    else
      var before :- SiteColumnPerEntry(env, sites[..|sites| - 1], sc);
      var es :- SiteEntries(env, sites[|sites| - 1]);
      Ok(before + seq(|es|, _ => SiteCell(sites[|sites| - 1], sc)))
  }

  /** With the site values repeated per entry, every site-level list is as
      long as the per-image lists, whatever the number of images per site. */
  lemma {:induction false} CorrectedReportAligned(env: Services, sites: seq<SiteInfo>, sc: SiteColumn)
    ensures SiteColumnPerEntry(env, sites, sc).Ok? <==> AllEntries(env, sites).Ok?
    ensures AllEntries(env, sites).Ok? ==>
      |SiteColumnPerEntry(env, sites, sc).value| == |AllEntries(env, sites).value|
    decreases |sites|
  {
    if |sites| > 0 {
      CorrectedReportAligned(env, sites[..|sites| - 1], sc);
    }
  }

  /** Some image got as far as constructing the S2 object (line 226). */
  predicate S2Constructed(es: seq<Entry>)
    ensures S2Constructed(es) <==> exists k :: 0 <= k < |es| && es[k].s2.Some?
    decreases |es|
  {
    |es| > 0 && (S2Constructed(es[..|es| - 1]) || es[|es| - 1].s2.Some?)
  }

  /** What the lists, the note list and the S2 binding become when one more
      entry is appended. */
  lemma ExtendByOne(es: seq<Entry>, e: Entry)
    ensures forall c :: ColumnOf(es + [e], c) == ColumnOf(es, c) + [CellOf(e, c)]
    ensures NotesOf(es + [e]) == NotesOf(es) + [e.note]
    ensures S2Constructed(es + [e]) == (S2Constructed(es) || e.s2.Some?)
  {
    assert (es + [e])[..|es|] == es;
  }

  /** The per-image lists, the note list and the S2 binding record exactly
      the entries `es`. */
  predicate Mirrors(others: map<Column, seq<Cell>>, notes: seq<Note>, constructed: bool, es: seq<Entry>)
  {
    && Complete(others)
    && (forall c :: others[c] == ColumnOf(es, c))
    && notes == NotesOf(es)
    && constructed == S2Constructed(es)
  }

  /** Appending an entry's cells, note and binding keeps the lists in step
      with the entries. */
  lemma MirrorsExtend(others: map<Column, seq<Cell>>, notes: seq<Note>, constructed: bool, es: seq<Entry>,
                      e: Entry, others': map<Column, seq<Cell>>)
    requires Mirrors(others, notes, constructed, es)
    requires Complete(others') && forall c :: others'[c] == others[c] + [CellOf(e, c)]
    ensures Mirrors(others', notes + [e.note], constructed || e.s2.Some?, es + [e])
  {
    ExtendByOne(es, e);
  }

  /** The lists when the loop ends. */
  datatype Lists = Lists(site: map<SiteColumn, seq<Cell>>, others: map<Column, seq<Cell>>, notes: seq<Note>)

  predicate Distinct<T(==)>(s: seq<T>)
  {
    forall i, j :: 0 <= i < j < |s| ==> s[i] != s[j]
  }

  /** Neither group repeats a list. */
  lemma GroupsDistinct()
    ensures Distinct(Others) && Distinct(OthersNoFlex)
  {
    RankOfOthers();
    forall i, j | 0 <= i < j < |OthersNoFlex| ensures OthersNoFlex[i] != OthersNoFlex[j] {
      assert OthersNoFlex[i] == Others[i + 4] && OthersNoFlex[j] == Others[j + 4];
    }
  }

  /** Lines 118-119 and their kind: `'N/A'` appended to each list of a group. */
  method AppendNA(lists: map<Column, seq<Cell>>, group: seq<Column>) returns (r: map<Column, seq<Cell>>)
    requires Distinct(group)
    requires forall c :: c in group ==> c in lists
    ensures r.Keys == lists.Keys
    ensures forall c :: c in lists ==> r[c] == if c in group then lists[c] + [NA] else lists[c]
  {
    r := lists;
    var i := 0;
    while i < |group|
      invariant 0 <= i <= |group|
      invariant r.Keys == lists.Keys
      invariant forall c :: c in lists ==> r[c] == if c in group[..i] then lists[c] + [NA] else lists[c]
    {
      assert group[..i + 1] == group[..i] + [group[i]];
      assert group[i] !in group[..i];
      r := r[group[i] := r[group[i]] + [NA]];
      i := i + 1;
    }
    assert group[..i] == group;
  }

  /** Lines 186-191 and 211-216: `'N/A'` in every list outside the FLEX part. */
  method SkipS2(others: map<Column, seq<Cell>>) returns (others': map<Column, seq<Cell>>)
    requires Complete(others)
    ensures Complete(others')
    ensures forall c :: others'[c] == if IsFlexColumn(c) then others[c] else others[c] + [NA]
  {
    GroupsDistinct();
    forall c: Column ensures c in OthersNoFlex <==> !IsFlexColumn(c) {
      ColumnGroups(c);
    }
    others' := AppendNA(others, OthersNoFlex);
  }

  /** Lines 115-133 and 149-154: `'N/A'` in every per-image list. */
  method SkipAll(others: map<Column, seq<Cell>>) returns (others': map<Column, seq<Cell>>)
    requires Complete(others)
    ensures Complete(others')
    ensures forall c :: others'[c] == others[c] + [NA]
  {
    GroupsDistinct();
    forall c: Column ensures c in Others {
      ColumnGroups(c);
    }
    others' := AppendNA(others, Others);
  }

  /** Every per-image list is present. */
  predicate Complete(lists: map<Column, seq<Cell>>)
  {
    forall c :: c in lists
  }

  /** Every site-level list is present. */
  predicate SiteComplete(lists: map<SiteColumn, seq<Cell>>)
  {
    forall sc :: sc in lists
  }

  /** Lines 96-103: the site's values go to the eight site-level lists. */
  method RecordSite(lists: map<SiteColumn, seq<Cell>>, site: SiteInfo) returns (lists': map<SiteColumn, seq<Cell>>)
    requires SiteComplete(lists)
    ensures SiteComplete(lists')
    ensures forall sc :: lists'[sc] == lists[sc] + [SiteCell(site, sc)]
  {
    lists' := lists[SiteCode := lists[SiteCode] + [Str(site.name)]]
                   [Latitude := lists[Latitude] + [Num(site.lat)]]
                   [Longitude := lists[Longitude] + [Num(site.lon)]]
                   [ReferenceArea := lists[ReferenceArea] + [Whole(site.roi)]]
                   [ThresholdCv := lists[ThresholdCv] + [Num(site.thresholdCv * 100.0)]]
                   [VegetationPixel := lists[VegetationPixel] + [Num(site.vegetation * 100.0)]]
                   [TimeWindow := lists[TimeWindow] + [Whole(site.window)]]
                   [ThresholdCloud := lists[ThresholdCloud] + [Num(site.cloud * 100.0)]];
  }

  /** Lines 171-174: the FLEX part of an image goes to the four FLEX lists. */
  method RecordFlex(others: map<Column, seq<Cell>>, flex: FlexPart) returns (others': map<Column, seq<Cell>>)
    requires Complete(others)
    ensures Complete(others')
    ensures forall c :: others'[c] == if IsFlexColumn(c) then others[c] + [FlexCell(Some(flex), c)] else others[c]
  {
    others' := others[FlexFilename := others[FlexFilename] + [Str(flex.filename)]]
                     [FlexDate := others[FlexDate] + [Str(flex.date)]]
                     [FlexTime := others[FlexTime] + [Str(flex.time)]]
                     [FlexValidPixels := others[FlexValidPixels] + [Whole(100)]];
  }

  /** Lines 218-221 and 246: the chosen S2 image's name, date, time,
      distance and valid-pixel share go to the five S2 lists. */
  method RecordMatch(others: map<Column, seq<Cell>>, s2: S2Part) returns (others': map<Column, seq<Cell>>)
    requires Complete(others)
    ensures Complete(others')
    ensures forall c :: others'[c] == if IsS2Column(c) then others[c] + [S2Cell(Some(s2), c)] else others[c]
  {
    others' := others[S2Filename := others[S2Filename] + [Str(s2.filename)]]
                     [S2Date := others[S2Date] + [Str(s2.date)]]
                     [S2Time := others[S2Time] + [Str(s2.time)]]
                     [TimeDifference := others[TimeDifference] + [Whole(s2.days)]]
                     [S2ValidPixels := others[S2ValidPixels] + [Num(s2.share * 100.0)]];
  }

  /** Lines 259-266: the indices of an image that passed the valid-pixel gate. */
  method RecordIndices(others: map<Column, seq<Cell>>, ind: Indices) returns (others': map<Column, seq<Cell>>)
    requires Complete(others)
    ensures Complete(others')
    ensures forall c :: others'[c] == if IsIndexColumn(c) then others[c] + [IndexCell(Some(ind), c)] else others[c]
  {
    others' := others[NdviStd := others[NdviStd] + [Num(ind.ndviStd)]]
                     [NdviAvg := others[NdviAvg] + [Num(ind.ndviAvg)]]
                     [NdviCv := others[NdviCv] + [Num(ind.ndviCv * 100.0)]]
                     [NdviCvFlag := others[NdviCvFlag] + [Whole(ind.ndviFlag)]]
                     [NirvStd := others[NirvStd] + [Num(ind.nirvStd)]]
                     [NirvAvg := others[NirvAvg] + [Num(ind.nirvAvg)]]
                     [NirvCv := others[NirvCv] + [Num(ind.nirvCv * 100.0)]]
                     [NirvCvFlag := others[NirvCvFlag] + [Whole(ind.nirvFlag)]];
  }

  /** Lines 302-309: `'N/A'` in the eight index lists of an image that failed it. */
  method SkipIndices(others: map<Column, seq<Cell>>) returns (others': map<Column, seq<Cell>>)
    requires Complete(others)
    ensures Complete(others')
    ensures forall c :: others'[c] == if IsIndexColumn(c) then others[c] + [NA] else others[c]
  {
    others' := others[NirvAvg := others[NirvAvg] + [NA]]
                     [NirvStd := others[NirvStd] + [NA]]
                     [NirvCv := others[NirvCv] + [NA]]
                     [NirvCvFlag := others[NirvCvFlag] + [NA]]
                     [NdviAvg := others[NdviAvg] + [NA]]
                     [NdviStd := others[NdviStd] + [NA]]
                     [NdviCv := others[NdviCv] + [NA]]
                     [NdviCvFlag := others[NdviCvFlag] + [NA]];
  }

  /** Lines 218-309 once the S2 record is known: the match, the valid-pixel
      share and the indices (or `'N/A'`) go to every list outside the FLEX
      part. */
  method AppendLeaves(others: map<Column, seq<Cell>>, leaves: S2Leaves) returns (others': map<Column, seq<Cell>>)
    requires Complete(others) && leaves.s2.Some?
    ensures Complete(others')
    ensures forall c :: others'[c] == if IsFlexColumn(c) then others[c]
                                      else others[c] + [CellOf(Entry(None, leaves.s2, leaves.indices, leaves.note), c)]
  {
    var matched := RecordMatch(others, leaves.s2.value);
    if leaves.indices.Some? {
      others' := RecordIndices(matched, leaves.indices.value);
    } else {
      others' := SkipIndices(matched);
    }
    ghost var e := Entry(None, leaves.s2, leaves.indices, leaves.note);
    forall c ensures others'[c] == if IsFlexColumn(c) then others[c] else others[c] + [CellOf(e, c)] {
      RankPlacesColumn(c);
      if IsS2Column(c) {
        assert others'[c] == matched[c] && matched[c] == others[c] + [S2Cell(leaves.s2, c)];
      } else if IsIndexColumn(c) {
        assert matched[c] == others[c] && others'[c] == matched[c] + [IndexCell(leaves.indices, c)];
      }
    }
  }

  /** Lines 218-313 for the chosen S2 image: the S2 object with the site's
      settings, the valid-pixel gate, then the image's values in every list
      outside the FLEX part. */
  method RecordS2(env: Services, site: SiteInfo, date: string, image: string, days: int,
                  others: map<Column, seq<Cell>>)
    returns (o: Outcome, others': map<Column, seq<Cell>>, note: Note)
    requires S2DateToken(image).Ok?
    requires Complete(others)
    ensures Complete(others')
    ensures o.Fail? <==> S2Record(env, site, date, image, days).Err?
    ensures o.Fail? ==> o.error == S2Record(env, site, date, image, days).error
    ensures o.Pass? ==>
      var s := S2Record(env, site, date, image, days).value;
      && note == s.note
      && forall c :: others'[c] == if IsFlexColumn(c) then others[c]
                                   else others[c] + [CellOf(Entry(None, s.s2, s.indices, s.note), c)]
  {
    others' := others;
    note := NoRemark;
    var s2time := S2TimeToken(image);
    if s2time.Err? {
      return Fail(s2time.error), others', note;
    }
    var s2 := new Calval.S2();
    var setter := s2.SetArea(site.roi);
    if setter.Fail? {
      return setter, others', note;
    }
    setter := s2.SetThresholdCv(site.thresholdCv);
    if setter.Fail? {
      return setter, others', note;
    }
    setter := s2.SetCloud(site.cloud);
    if setter.Fail? {
      return setter, others', note;
    }
    var check := env.validPixels(site, image);
    var part := S2Part(image, S2DateToken(image).value, s2time.value, days, check.share);
    var leaves: S2Leaves;
    if check.passed {
      var invalid := env.floxInvalid(site, image, date);
      leaves := S2Leaves(Some(part), Some(env.indices(site, image)), if invalid then FloxOnInvalidPixel else NoRemark);
    } else {
      leaves := S2Leaves(Some(part), None, InvalidPixelsExceed(s2.cloud * 100.0));
    }
    others' := AppendLeaves(others, leaves);
    note := leaves.note;
    o := Pass;
  }

  /** Lines 182-313: the S2 part of one image; the four FLEX lists are left
      alone and every other list gets the image's value. */
  method ProcessS2(env: Services, site: SiteInfo, date: string, day: int,
                   others: map<Column, seq<Cell>>)
    returns (o: Outcome, others': map<Column, seq<Cell>>, note: Note, constructed: bool)
    requires Complete(others)
    ensures Complete(others')
    ensures o.Fail? <==> S2Stage(env, site, date, day).Err?
    ensures o.Fail? ==> o.error == S2Stage(env, site, date, day).error
    ensures o.Pass? ==>
      var s := S2Stage(env, site, date, day).value;
      && note == s.note && constructed == s.s2.Some?
      && forall c :: others'[c] == if IsFlexColumn(c) then others[c]
                                   else others[c] + [CellOf(Entry(None, s.s2, s.indices, s.note), c)]
  {
    others' := others;
    note := NoRemark;
    constructed := false;
    var listing := env.s2Folders(site.name);
    if listing.None? {
      return Fail(FileNotFoundError), others', note, constructed;
    }
    var names := listing.value;
    if |names| == 0 {
      others' := SkipS2(others);
      NoS2Cells(NoS2Images);
      return Pass, others', NoS2Images, false;
    }
    var choice := NearestScan(names, S2DayKey, day);
    if choice.Err? {
      return Fail(choice.error), others', note, constructed;
    }
    if OutsideWindow(choice.value.diff, site.window) {
      others' := SkipS2(others);
      NoS2Cells(NoS2WithinWindow(site.window));
      return Pass, others', NoS2WithinWindow(site.window), false;
    }
    ScannedNamesHaveDates(names, choice.value.index);
    var image := names[choice.value.index];
    assert S2Stage(env, site, date, day) == S2Record(env, site, date, image, choice.value.diff);
    o, others', note := RecordS2(env, site, date, image, choice.value.diff, others);
    constructed := true;
  }

  /** An image without an S2 part leaves `'N/A'` in every list outside the
      FLEX part. */
  lemma NoS2Cells(note: Note)
    ensures forall c :: !IsFlexColumn(c) ==> CellOf(Entry(None, None, None, note), c) == NA
  {
  }

  /** Lines 141-313 for one FLEX image: every per-image list gets exactly
      one value, the image's, whichever branch the image takes. */
  method ProcessImage(env: Services, site: SiteInfo, file: string, others: map<Column, seq<Cell>>)
    returns (o: Outcome, others': map<Column, seq<Cell>>, note: Note, constructed: bool)
    requires Complete(others)
    ensures Complete(others')
    ensures o.Fail? <==> ImageEntry(env, site, file).Err?
    ensures o.Fail? ==> o.error == ImageEntry(env, site, file).error
    ensures o.Pass? ==>
      && (forall c :: others'[c] == others[c] + [CellOf(ImageEntry(env, site, file).value, c)])
      && note == ImageEntry(env, site, file).value.note
      && constructed == ImageEntry(env, site, file).value.s2.Some?
  {
    others' := others;
    note := NoRemark;
    constructed := false;
    var check := CheckFilename(file);
    if check.Fail? {
      return check, others', note, constructed;
    }
    AcceptedTokens(file);
    var date := FlexDateToken(file).value;
    if site.name !in env.floxDates {
      return Fail(KeyError), others', note, constructed;
    }
    if date !in env.floxDates[site.name] {
      others' := SkipAll(others);
      return Pass, others', NoFloxOnDate(date), false;
    }
    var flex := FlexPart(file, date, FlexTimeToken(file));
    var recorded := RecordFlex(others, flex);
    var day := Strptime.StrptimeDate(date);
    ImageEntryOfFloxDate(env, site, file);
    if day.Err? {
      return Fail(day.error), others', note, constructed;
    }
    o, others', note, constructed := ProcessS2(env, site, date, day.value, recorded);
    if o.Pass? {
      ghost var e := ImageEntry(env, site, file).value;
      forall c ensures others'[c] == others[c] + [CellOf(e, c)] {
        ColumnGroups(c);
      }
    }
  }

  /** `ImageEntry` for a FLEX date the FLOX data has: the date must parse,
      then the entry is the FLEX part and whatever the S2 part yields. */
  lemma ImageEntryOfFloxDate(env: Services, site: SiteInfo, file: string)
    requires CheckFilename(file) == Pass && FlexDateToken(file).Ok?
    requires site.name in env.floxDates && FlexDateToken(file).value in env.floxDates[site.name]
    ensures var date := FlexDateToken(file).value;
      && (Strptime.StrptimeDate(date).Err? ==> ImageEntry(env, site, file) == Err(Strptime.StrptimeDate(date).error))
      && (Strptime.StrptimeDate(date).Ok? ==>
            var s := S2Stage(env, site, date, Strptime.StrptimeDate(date).value);
            && (s.Err? ==> ImageEntry(env, site, file) == Err(s.error))
            && (s.Ok? ==> ImageEntry(env, site, file)
                           == Ok(Entry(Some(FlexPart(file, date, FlexTimeToken(file))), s.value.s2, s.value.indices, s.value.note))))
  {
  }

  /** Lines 86-313 for one site: the site-level lists get the site's values
      and the per-image lists the site's entries. */
  method ProcessSite(env: Services, site: SiteInfo, flex: Calval.Flex,
                     siteLists: map<SiteColumn, seq<Cell>>, others: map<Column, seq<Cell>>, notes: seq<Note>,
                     constructed: bool, ghost done: seq<Entry>)
    returns (o: Outcome, siteLists': map<SiteColumn, seq<Cell>>, others': map<Column, seq<Cell>>,
             notes': seq<Note>, constructed': bool)
    requires flex.Valid()
    requires SiteComplete(siteLists) && Mirrors(others, notes, constructed, done)
    modifies flex
    ensures flex.Valid()
    ensures o.Fail? <==> SiteEntries(env, site).Err?
    ensures o.Fail? ==> o.error == SiteEntries(env, site).error
    ensures o.Pass? ==>
      && SiteComplete(siteLists')
      && (forall sc :: siteLists'[sc] == siteLists[sc] + [SiteCell(site, sc)])
      && Mirrors(others', notes', constructed', done + SiteEntries(env, site).value)
  {
    siteLists' := RecordSite(siteLists, site);
    others' := others;
    notes' := notes;
    constructed' := constructed;
    var setter := flex.SetVegetationPixel(site.vegetation);
    if setter.Fail? {
      return setter, siteLists', others', notes', constructed';
    }
    var listing := env.flexFolders(site.name);
    var nc: seq<string> := [];
    if listing.Some? {
      nc := NcFiles(listing.value);
    }
    if listing.None? || |nc| == 0 {
      assert SiteEntries(env, site) == Ok([NoFlexEntry]);
      others' := SkipAll(others);
      notes' := notes + [NoFlexImages];
      forall c ensures others'[c] == others[c] + [CellOf(NoFlexEntry, c)] {
        NoFlexEntryIsAllNA(c);
      }
      MirrorsExtend(others, notes, constructed, done, NoFlexEntry, others');
      return Pass, siteLists', others', notes', constructed';
    }
    assert SiteEntries(env, site) == ImageEntries(env, site, nc);
    o, others', notes', constructed' := ProcessImages(env, site, nc, others, notes, constructed, done);
  }

  /** Lines 140-313: the image loop of one site; each image adds its entry
      to the lists, and the first error ends the run. */
  method ProcessImages(env: Services, site: SiteInfo, nc: seq<string>,
                       others: map<Column, seq<Cell>>, notes: seq<Note>, constructed: bool, ghost done: seq<Entry>)
    returns (o: Outcome, others': map<Column, seq<Cell>>, notes': seq<Note>, constructed': bool)
    requires Mirrors(others, notes, constructed, done)
    ensures o.Fail? <==> ImageEntries(env, site, nc).Err?
    ensures o.Fail? ==> o.error == ImageEntries(env, site, nc).error
    ensures o.Pass? ==> Mirrors(others', notes', constructed', done + ImageEntries(env, site, nc).value)
  {
    others' := others;
    notes' := notes;
    constructed' := constructed;
    ghost var step := ImageStep(env, site);
    var j := 0;
    while j < |nc|
      invariant 0 <= j <= |nc|
      invariant Collect(step, nc[..j]).Ok?
      invariant Mirrors(others', notes', constructed', done + Collect(step, nc[..j]).value)
    {
      ghost var before := Collect(step, nc[..j]).value;
      ghost var prev := others';
      var image: Outcome;
      var note: Note;
      var made: bool;
      image, others', note, made := ProcessImage(env, site, nc[j], others');
      if image.Fail? {
        ImagesError(env, site, nc, j);
        return image, others', notes', constructed';
      }
      ghost var e := ImageEntry(env, site, nc[j]).value;
      ImagesStep(env, site, nc, j, before);
      MirrorsExtend(prev, notes', constructed', done + before, e, others');
      assert done + (before + [e]) == (done + before) + [e];
      notes' := notes' + [note];
      constructed' := constructed' || made;
      j := j + 1;
    }
    assert nc[..j] == nc;
    o := Pass;
  }

  /** One site of the loop of `Run` that yields its entries. */
  lemma RunStep(env: Services, sites: seq<SiteInfo>, i: nat, done: seq<Entry>)
    requires i < |sites| && Gather(SiteStep(env), sites[..i]) == Ok(done)
    requires SiteEntries(env, sites[i]).Ok?
    ensures Gather(SiteStep(env), sites[..i + 1]) == Ok(done + SiteEntries(env, sites[i]).value)
  {
    assert SiteStep(env)(sites[i]) == SiteEntries(env, sites[i]);
    GatherStep(SiteStep(env), sites, i);
    assert sites[..i + 1][..i] == sites[..i];
  }

  /** A site that raises after a run of sites that did not ends `main()`
      with its error. */
  lemma RunError(env: Services, sites: seq<SiteInfo>, i: nat)
    requires i < |sites| && Gather(SiteStep(env), sites[..i]).Ok?
    requires SiteEntries(env, sites[i]).Err?
    ensures AllEntries(env, sites) == Err(SiteEntries(env, sites[i]).error)
  {
    var step := SiteStep(env);
    assert step(sites[i]) == SiteEntries(env, sites[i]);
    assert sites[..i + 1][..i] == sites[..i];
    assert Gather(step, sites[..i + 1]) == Err(SiteEntries(env, sites[i]).error);
    GatherPrefixError(step, sites, i + 1);
    assert sites[..|sites|] == sites;
  }

  /** One image of the loop of `ProcessImages` that yields its entry. */
  lemma ImagesStep(env: Services, site: SiteInfo, nc: seq<string>, j: nat, before: seq<Entry>)
    requires j < |nc| && Collect(ImageStep(env, site), nc[..j]) == Ok(before)
    requires ImageEntry(env, site, nc[j]).Ok?
    ensures Collect(ImageStep(env, site), nc[..j + 1]) == Ok(before + [ImageEntry(env, site, nc[j]).value])
  {
    var step := ImageStep(env, site);
    assert step(nc[j]) == ImageEntry(env, site, nc[j]);
    CollectStep(step, nc, j);
  }

  /** An image that raises after a run of images that did not ends the
      site's loop with its error. */
  lemma ImagesError(env: Services, site: SiteInfo, nc: seq<string>, j: nat)
    requires j < |nc| && Collect(ImageStep(env, site), nc[..j]).Ok?
    requires ImageEntry(env, site, nc[j]).Err?
    ensures ImageEntries(env, site, nc) == Err(ImageEntry(env, site, nc[j]).error)
  {
    var step := ImageStep(env, site);
    assert step(nc[j]) == ImageEntry(env, site, nc[j]);
    assert nc[..j + 1][..j] == nc[..j];
    assert Collect(step, nc[..j + 1]) == Err(ImageEntry(env, site, nc[j]).error);
    CollectPrefixError(step, nc, j + 1);
    assert nc[..|nc|] == nc;
  }

  /** `main()` up to the log report (lines 19-349): FileNotFoundError
      without the FLOX file; the first error of the site loop; ValueError
      from the DataFrame when the site-level and per-image lists differ in
      length; UnboundLocalError at `s2.path_output` when no image reached
      the S2 object; otherwise the report's columns. */
  method Run(env: Services, sites: seq<SiteInfo>) returns (r: Result<Lists>)
    ensures !env.floxFound ==> r == Err(FileNotFoundError)
    ensures env.floxFound && AllEntries(env, sites).Err? ==> r == Err(AllEntries(env, sites).error)
    ensures env.floxFound && AllEntries(env, sites).Ok? ==>
      var es := AllEntries(env, sites).value;
      && (|es| != |sites| ==> r == Err(ValueError))
      && (|es| == |sites| && !S2Constructed(es) ==> r == Err(UnboundLocalError))
      && (|es| == |sites| && S2Constructed(es) ==>
            && r.Ok? && SiteComplete(r.value.site) && Complete(r.value.others)
            && (forall sc :: r.value.site[sc] == SiteColumnOf(sites, sc))
            && (forall c :: r.value.others[c] == ColumnOf(es, c))
            && r.value.notes == NotesOf(es))
  {
    if !env.floxFound {
      return Err(FileNotFoundError);
    }
    var flex := new Calval.Flex();
    var siteLists: map<SiteColumn, seq<Cell>> :=
      map[SiteCode := [], Latitude := [], Longitude := [], ReferenceArea := [], TimeWindow := [],
          ThresholdCv := [], VegetationPixel := [], ThresholdCloud := []];
    forall sc: SiteColumn ensures sc in siteLists {
      match sc
      case SiteCode =>
      case Latitude =>
      case Longitude =>
      case ReferenceArea =>
      case TimeWindow =>
      case ThresholdCv =>
      case VegetationPixel =>
      case ThresholdCloud =>
    }
    var others: map<Column, seq<Cell>> := map c | c in Others :: [];
    forall c: Column ensures c in Others {
      ColumnGroups(c);
    }
    var notes: seq<Note> := [];
    var constructed := false;
    ghost var done: seq<Entry> := [];
    ghost var step := SiteStep(env);
    var i := 0;
    while i < |sites|
      invariant 0 <= i <= |sites|
      invariant flex.Valid()
      invariant Gather(step, sites[..i]) == Ok(done)
      invariant SiteMirrors(siteLists, sites[..i])
      invariant Mirrors(others, notes, constructed, done)
    {
      ghost var prev := siteLists;
      var o: Outcome;
      o, siteLists, others, notes, constructed :=
        ProcessSite(env, sites[i], flex, siteLists, others, notes, constructed, done);
      if o.Fail? {
        RunError(env, sites, i);
        return Err(o.error);
      }
      RunStep(env, sites, i, done);
      SiteMirrorsExtend(prev, sites, i, siteLists);
      done := done + SiteEntries(env, sites[i]).value;
      i := i + 1;
    }
    assert sites[..i] == sites;
    if |siteLists[SiteCode]| != |notes| {
      return Err(ValueError);
    }
    if !constructed {
      return Err(UnboundLocalError);
    }
    return Ok(Lists(siteLists, others, notes));
  }
}
