/** The tabular inputs the drivers read: the rows of `Sites.csv` as pandas
    loads them, and the sections of the optional configuration file as
    `configparser` exposes them. */
module Tables {
  import opened Values

  /** One cell of a CSV column: missing (read as NaN), a number, or other
      text. */
  datatype CsvCell = Missing | Number(x: real) | Text(s: string)

  /** A column holding any text cell: `pd.read_csv` gives it the object
      dtype and keeps every present cell, numbers included, as a `str`. */
  predicate TextColumn(cells: seq<CsvCell>)
  {
    exists i :: 0 <= i < |cells| && cells[i].Text?
  }

  /** `str(element)` of a present cell: the text itself, or `numberText`,
      which stands for Python's formatting of the number pandas read. */
  function CellText(cell: CsvCell, numberText: real -> string): string
    requires !cell.Missing?
  {
    match cell
    case Text(s) => s
    case Number(x) => numberText(x)
  }

  /** One row of `Sites.csv`: site name, latitude, longitude. */
  datatype SiteRow = SiteRow(site: CsvCell, lat: CsvCell, lon: CsvCell)

  /** The `Site` column. */
  function Sites(rows: seq<SiteRow>): (c: seq<CsvCell>)
    ensures |c| == |rows| && forall i :: 0 <= i < |rows| ==> c[i] == rows[i].site
  {
    seq(|rows|, i requires 0 <= i < |rows| => rows[i].site)
  }

  /** The `Latitude` column. */
  function Latitudes(rows: seq<SiteRow>): (c: seq<CsvCell>)
    ensures |c| == |rows| && forall i :: 0 <= i < |rows| ==> c[i] == rows[i].lat
  {
    seq(|rows|, i requires 0 <= i < |rows| => rows[i].lat)
  }

  /** The `Longitude` column. */
  function Longitudes(rows: seq<SiteRow>): (c: seq<CsvCell>)
    ensures |c| == |rows| && forall i :: 0 <= i < |rows| ==> c[i] == rows[i].lon
  {
    seq(|rows|, i requires 0 <= i < |rows| => rows[i].lon)
  }

  /** One recorded FLEX image, a row of `Usable FLEX Images.csv`: the
      entries the FLEX loops append to their site, file name, date and time
      lists. */
  datatype FlexRecord = FlexRecord(site: string, filename: string, date: string, time: string)

  /** The parsed configuration file: section name to (lower-cased) option
      name to raw value text. `configparser` lower-cases option names, so the
      drivers' look-ups are written here with lower-case option names;
      section names are case-sensitive. */
  datatype Config = Config(sections: map<string, map<string, string>>)

  /** `config[section][option]`: KeyError when the section or the option is absent. */
  function Lookup(cfg: Config, section: string, option: string): (r: Result<string>)
    ensures r.Err? <==> section !in cfg.sections || option !in cfg.sections[section]
    ensures r.Err? ==> r.error == KeyError
    ensures r.Ok? ==> r.value == cfg.sections[section][option]
  {
    if section !in cfg.sections then Err(KeyError)
    else if option !in cfg.sections[section] then Err(KeyError)
    else Ok(cfg.sections[section][option])
  }

  /** A site-name cell used as a path component: `os.path.join` and string
      concatenation accept text only, so a number (or NaN) raises TypeError. */
  function SiteName(cell: CsvCell): (r: Result<string>)
    ensures r.Ok? <==> cell.Text?
    ensures r.Ok? ==> r.value == cell.s
    ensures r.Err? ==> r.error == TypeError
  {
    match cell
    case Text(s) => Ok(s)
    case _ => Err(TypeError)
  }

  /** The text entries of a column, in order: the names a comparison
      `column == name` with a string can match. */
  function TextCells(cells: seq<CsvCell>): (r: seq<string>)
    ensures forall s :: s in r <==> Text(s) in cells
    decreases |cells|
  {
    if |cells| == 0 then []
    else (if cells[0].Text? then [cells[0].s] else []) + TextCells(cells[1..])
  }

  /** `if config[gateSection][gateOption]: field = config[valueSection][valueOption]`:
      a non-empty gate stores the raw value text, bypassing the setter; an
      empty gate leaves the field alone. The value is looked up only when
      the gate is non-empty; either look-up raises KeyError when absent. */
  function Override<T>(cfg: Config, current: Setting<T>, gateSection: string, gateOption: string,
                       valueSection: string, valueOption: string): (r: Result<Setting<T>>)
    ensures Lookup(cfg, gateSection, gateOption).Err? ==> r == Err(KeyError)
    ensures Lookup(cfg, gateSection, gateOption) == Ok("") ==> r == Ok(current)
    ensures Lookup(cfg, gateSection, gateOption).Ok? && Lookup(cfg, gateSection, gateOption).value != "" ==>
      && (Lookup(cfg, valueSection, valueOption).Err? ==> r == Err(KeyError))
      && (Lookup(cfg, valueSection, valueOption).Ok? ==> r == Ok(RawText(Lookup(cfg, valueSection, valueOption).value)))
    ensures r.Ok? ==> r.value == current || r.value.RawText?
  {
    var gate :- Lookup(cfg, gateSection, gateOption);
    if gate == "" then Ok(current)
    else
      var text :- Lookup(cfg, valueSection, valueOption);
      Ok(RawText(text))
  }

  /** When the gate and the value are the same option, an override that
      fires stores non-empty text, which is truthy. */
  lemma SelfGatedOverrideIsTruthy(cfg: Config, current: Setting<real>, section: string, option: string)
    requires Override(cfg, current, section, option, section, option).Ok?
    ensures var r := Override(cfg, current, section, option, section, option).value;
      r == current || (r.RawText? && TruthyReal(r))
  {
  }
}
