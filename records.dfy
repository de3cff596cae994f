/**
 * The rows of the two yearly call-center workbooks and the per-row part of
 * `load_and_process_data`: tagging by year, concatenation, header stripping,
 * the derived time fields, text cleaning of `TIPE LAPORAN`, `KECAMATAN` and
 * `KELURAHAN`, and the ghost / prank / short / fake-location flags.
 */
module Records {
  import opened Wrappers
  import opened Text
  import opened Duration

  /** The workbook a row came from; its label is the value of the `source` column. */
  datatype Source = Y2024 | Y2025

  function Label(s: Source): (l: string)
    ensures |l| == 4 && AllDigits(l)
  {
    match s
    case Y2024 => "2024"
    case Y2025 => "2025"
  }

  /** The columns the dashboard reads, by their (stripped) header names. */
  datatype Column =
    | WaktuLapor | DurasiPengerjaan | TipeLaporan | Kecamatan | Kelurahan
    | Kategori | Latitude | Longitude | Uid

  function Name(c: Column): string {
    match c
    case WaktuLapor => "WAKTU LAPOR"
    case DurasiPengerjaan => "DURASI PENGERJAAN"
    case TipeLaporan => "TIPE LAPORAN"
    case Kecamatan => "KECAMATAN"
    case Kelurahan => "KELURAHAN"
    case Kategori => "KATEGORI"
    case Latitude => "LATITUDE"
    case Longitude => "LONGITUDE"
    case Uid => "UID"
  }

  const AllColumns: set<Column> :=
    {WaktuLapor, DurasiPengerjaan, TipeLaporan, Kecamatan, Kelurahan, Kategori, Latitude, Longitude, Uid}

  /**
   * One spreadsheet row as read. `waktu` is the report time in seconds as
   * `pd.to_datetime(..., errors='coerce')` yields it (None for NaT), the
   * coordinates are the values `pd.to_numeric(..., errors='coerce')` yields,
   * and every other cell is its text, None for an empty cell.
   */
  datatype RawRow = RawRow(
    waktu: Option<int>,
    durasi: Option<string>,
    tipe: Option<string>,
    kecamatan: Option<string>,
    kelurahan: Option<string>,
    kategori: Option<string>,
    latitude: Option<real>,
    longitude: Option<real>,
    uid: Option<string>)

  lemma AllColumnsComplete()
    ensures forall c: Column :: c in AllColumns
  {
    forall c: Column ensures c in AllColumns {
      match c
      case WaktuLapor =>
      case DurasiPengerjaan =>
      case TipeLaporan =>
      case Kecamatan =>
      case Kelurahan =>
      case Kategori =>
      case Latitude =>
      case Longitude =>
      case Uid =>
    }
  }

  /** A workbook: its header row, as written, and its data rows. */
  datatype Sheet = Sheet(headers: seq<string>, rows: seq<RawRow>)

  /** Headers are compared after `str.strip`, as the source renames the columns. */
  predicate HasHeader(headers: seq<string>, name: string) {
    exists k :: 0 <= k < |headers| && Strip(headers[k]) == name
  }

  function Schema(sheet: Sheet): (cols: set<Column>)
    ensures forall c :: c in cols <==> HasHeader(sheet.headers, Name(c))
  {
    AllColumnsComplete();
    set c | c in AllColumns && HasHeader(sheet.headers, Name(c))
  }

  /** The cell of a column that is present; a missing one for an absent column. */
  function Keep<T>(present: bool, cell: Option<T>): (r: Option<T>)
    ensures present ==> r == cell
    ensures !present ==> r.None?
  {
    if present then cell else None
  }

  /** `pd.concat` fills the cells of a column the row's own workbook lacks with NaN. */
  function Masked(cols: set<Column>, r: RawRow): RawRow {
    RawRow(
      Keep(WaktuLapor in cols, r.waktu),
      Keep(DurasiPengerjaan in cols, r.durasi),
      Keep(TipeLaporan in cols, r.tipe),
      Keep(Kecamatan in cols, r.kecamatan),
      Keep(Kelurahan in cols, r.kelurahan),
      Keep(Kategori in cols, r.kategori),
      Keep(Latitude in cols, r.latitude),
      Keep(Longitude in cols, r.longitude),
      Keep(Uid in cols, r.uid))
  }

  /** A row of the concatenated frame: its `source` tag, the columns of its own workbook and the row as read. */
  datatype Entry = Entry(source: Source, own: set<Column>, raw: RawRow)

  /** The cells of an entry in the concatenated frame. */
  function Cells(e: Entry): RawRow {
    Masked(e.own, e.raw)
  }

  /** A column the entry's own workbook lacks holds only missing cells. */
  lemma MissingColumnCells(e: Entry)
    ensures WaktuLapor !in e.own ==> Cells(e).waktu.None?
    ensures DurasiPengerjaan !in e.own ==> Cells(e).durasi.None?
    ensures TipeLaporan !in e.own ==> Cells(e).tipe.None?
    ensures Kecamatan !in e.own ==> Cells(e).kecamatan.None?
    ensures Kelurahan !in e.own ==> Cells(e).kelurahan.None?
    ensures Kategori !in e.own ==> Cells(e).kategori.None?
    ensures Latitude !in e.own ==> Cells(e).latitude.None?
    ensures Longitude !in e.own ==> Cells(e).longitude.None?
    ensures Uid !in e.own ==> Cells(e).uid.None?
    ensures e.own == AllColumns ==> Cells(e) == e.raw
  {
    AllColumnsComplete();
  }

  /** `pd.concat([df24, df25], ignore_index=True)`: every 2024 row, in order, then every 2025 row. */
  function Concat(s24: Sheet, s25: Sheet): seq<Entry> {
    Tagged(Y2024, Schema(s24), s24.rows) + Tagged(Y2025, Schema(s25), s25.rows)
  }

  /** The rows of one workbook, each tagged with its year and that workbook's columns. */
  function Tagged(source: Source, own: set<Column>, rows: seq<RawRow>): (es: seq<Entry>)
    ensures |es| == |rows|
    ensures forall i :: 0 <= i < |rows| ==> es[i] == Entry(source, own, rows[i])
  {
    seq(|rows|, i requires 0 <= i < |rows| => Entry(source, own, rows[i]))
  }

  /** The concatenated frame holds every 2024 row, in order, then every 2025 row, each with its own workbook's columns. */
  lemma ConcatRows(s24: Sheet, s25: Sheet)
    ensures var es := Concat(s24, s25);
      && |es| == |s24.rows| + |s25.rows|
      && (forall i :: 0 <= i < |s24.rows| ==> es[i] == Entry(Y2024, Schema(s24), s24.rows[i]))
      && (forall j :: 0 <= j < |s25.rows| ==> es[|s24.rows| + j] == Entry(Y2025, Schema(s25), s25.rows[j]))
  {
    TaggedParts(Schema(s24), s24.rows, Schema(s25), s25.rows);
  }

  lemma TaggedParts(own24: set<Column>, rows24: seq<RawRow>, own25: set<Column>, rows25: seq<RawRow>)
    ensures var es := Tagged(Y2024, own24, rows24) + Tagged(Y2025, own25, rows25);
      && |es| == |rows24| + |rows25|
      && (forall i :: 0 <= i < |rows24| ==> es[i] == Entry(Y2024, own24, rows24[i]))
      && (forall j :: 0 <= j < |rows25| ==> es[|rows24| + j] == Entry(Y2025, own25, rows25[j]))
  {
  }

  /** The columns of the concatenated frame. */
  function Columns(s24: Sheet, s25: Sheet): (cols: set<Column>)
    ensures forall c :: c in cols <==> HasHeader(s24.headers, Name(c)) || HasHeader(s25.headers, Name(c))
  {
    Schema(s24) + Schema(s25)
  }

  /** The derived calendar fields: the day (`dt.date`, counted from the epoch) and `dt.hour`. */
  datatype Calendar = Calendar(day: int, hour: int)

  function CalendarOf(t: int): (c: Calendar)
    ensures 0 <= c.hour < 24
    ensures c.day * 86400 + c.hour * 3600 <= t < c.day * 86400 + (c.hour + 1) * 3600
  {
    Calendar(t / 86400, (t % 86400) / 3600)
  }

  /** `astype(str)`: a missing cell turns into the text "nan". */
  function AsText(cell: Option<string>): string {
    match cell
    case None => "nan"
    case Some(s) => s
  }

  const Unknown := "unknown"

  lemma UnknownIsNormal()
    ensures IsTrimmed(Unknown) && HasNoUpper(Unknown)
  {
  }

  /** `TIPE LAPORAN` after `astype(str).str.strip().str.lower()`. */
  function NormaliseType(cell: Option<string>): (t: string)
    ensures IsTrimmed(t) && HasNoUpper(t)
    ensures SameUpToCase(t, Strip(AsText(cell))) && |t| <= |AsText(cell)|
    ensures cell.None? ==> t == "nan"
  {
    NanIsNormal();
    Lower(Strip(AsText(cell)))
  }

  lemma NanIsNormal()
    ensures Strip("nan") == "nan" && Lower("nan") == "nan"
  {
    assert IsTrimmed("nan");
  }

  /** A trimmed, lower-case type is left alone: normalising twice is normalising once. */
  lemma NormaliseTypeIdempotent(cell: Option<string>)
    ensures NormaliseType(Some(NormaliseType(cell))) == NormaliseType(cell)
  {
    var t := NormaliseType(cell);
    assert AsText(Some(t)) == t;
    assert Strip(t) == t;
  }

  /** The texts that the place columns treat as "no place". */
  predicate IsPlaceholder(s: string) {
    s == "-" || s == "nan" || s == ""
  }

  /** What a cleaned place name looks like. */
  predicate IsPlaceName(s: string) {
    s != [] && IsTrimmed(s) && IsTitleCased(s) && !IsPlaceholder(s)
  }

  /**
   * `KECAMATAN` / `KELURAHAN` after `astype(str).str.strip()`, the placeholders
   * replaced by NA and everything else title-cased.
   */
  function CleanPlace(cell: Option<string>): (r: Option<string>)
    ensures r.None? <==> IsPlaceholder(Strip(AsText(cell)))
    ensures r.Some? ==> IsPlaceName(r.value) && Lower(r.value) == Lower(Strip(AsText(cell)))
  {
    var t := Strip(AsText(cell));
    if IsPlaceholder(t) then None
    else
      TitleKeepsLetters(t);
      TitleNotPlaceholder(t);
      Some(Title(t))
  }

  lemma TitleNotPlaceholder(t: string)
    requires !IsPlaceholder(t)
    ensures !IsPlaceholder(Title(t))
  {
  }

  /** A cleaned place name is its own cleaning: stripping, the placeholder test and title-casing leave it alone. */
  lemma CleanPlaceKeepsNames(v: string)
    requires IsPlaceName(v)
    ensures CleanPlace(Some(v)) == Some(v)
  {
    assert AsText(Some(v)) == v;
    assert Strip(v) == v;
    TitleCasedIsFixed(v);
  }

  /** One row of the processed frame. */
  datatype Report = Report(
    source: Source,
    time: Option<int>,
    calendar: Option<Calendar>,
    duration: Option<nat>,
    tipe: string,
    kecamatan: Option<string>,
    kelurahan: Option<string>,
    kategori: Option<string>,
    latitude: Option<real>,
    longitude: Option<real>,
    uid: Option<string>,
    ghostCall: bool,
    prankCall: bool,
    shortCall: bool,
    fakeLocation: bool,
    rapidRepeat: bool)

  /** The time-derived fields: present exactly when the report time is, and computed from it. */
  predicate TimeFields(r: Report) {
    && (r.calendar.Some? <==> r.time.Some?)
    && (r.time.Some? ==> r.calendar == Some(CalendarOf(r.time.value)))
  }

  /** The report type is normalised, "unknown" without the column, and decides the ghost and prank flags. */
  predicate TypeFields(cols: set<Column>, r: Report) {
    && IsTrimmed(r.tipe) && HasNoUpper(r.tipe)
    && (TipeLaporan !in cols ==> r.tipe == Unknown)
    && (r.ghostCall <==> r.tipe == "ghost")
    && (r.prankCall <==> r.tipe == "prank")
  }

  /** The short-call and fake-location flags. */
  predicate CallFlags(cols: set<Column>, r: Report) {
    && (r.shortCall <==> r.duration.Some? && r.duration.value <= 5)
    && (r.fakeLocation <==>
          Latitude in cols && Longitude in cols && r.latitude == Some(0.0) && r.longitude == Some(0.0))
  }

  /** Place names that are present are cleaned. */
  predicate PlaceFields(r: Report) {
    && (r.kecamatan.Some? ==> IsPlaceName(r.kecamatan.value))
    && (r.kelurahan.Some? ==> IsPlaceName(r.kelurahan.value))
  }

  /** The per-row facts the pipeline establishes, given the frame's columns. */
  predicate WellFormed(cols: set<Column>, r: Report) {
    TimeFields(r) && TypeFields(cols, r) && CallFlags(cols, r) && PlaceFields(r)
  }

  /** A row is never flagged both ghost and prank. */
  lemma GhostPrankExclusive(cols: set<Column>, r: Report)
    requires WellFormed(cols, r)
    ensures !(r.ghostCall && r.prankCall)
  {
    assert r.ghostCall ==> r.tipe == "ghost";
    assert r.prankCall ==> r.tipe == "prank";
  }

  /**
   * Every column assignment of the pipeline applied to one row, up to
   * `rapid_repeat`, which needs the other rows and starts out false.
   */
  function DeriveRow(cols: set<Column>, e: Entry): (r: Report)
    ensures WellFormed(cols, r) && !r.rapidRepeat
    ensures r.source == e.source && r.time == Cells(e).waktu && r.uid == Cells(e).uid
    ensures r.latitude == Cells(e).latitude && r.longitude == Cells(e).longitude
  {
    var raw := Cells(e);
    var duration := if DurasiPengerjaan in cols then ParseDuration(raw.durasi) else None;
    var tipe := TypeCell(TipeLaporan in cols, raw.tipe);
    var kecamatan := PlaceCell(Kecamatan in cols, raw.kecamatan);
    var kelurahan := PlaceCell(Kelurahan in cols, raw.kelurahan);
    AssembleFields(cols, e.source, raw, duration, tipe, kecamatan, kelurahan);
    AssembleType(cols, e.source, raw, duration, tipe, kecamatan, kelurahan);
    AssemblePlaces(cols, e.source, raw, duration, tipe, kecamatan, kelurahan);
    Assemble(cols, e.source, raw, duration, tipe, kecamatan, kelurahan)
  }

  /** `TIPE LAPORAN` of a row: the normalised cell, or "unknown" when the frame has no such column. */
  function TypeCell(present: bool, cell: Option<string>): (t: string)
    ensures IsTrimmed(t) && HasNoUpper(t)
    ensures !present ==> t == Unknown
  {
    UnknownIsNormal();
    if present then NormaliseType(cell) else Unknown
  }

  /** A place column of a row: the cleaned cell, or missing when the frame has no such column. */
  function PlaceCell(present: bool, cell: Option<string>): (p: Option<string>)
    ensures p.Some? ==> IsPlaceName(p.value)
  {
    if present then CleanPlace(cell) else None
  }

  /** The row from its cleaned cells: the time fields and the flags are computed here. */
  function Assemble(cols: set<Column>, source: Source, raw: RawRow, duration: Option<nat>, tipe: string,
                    kecamatan: Option<string>, kelurahan: Option<string>): Report
  {
    var calendar := if raw.waktu.Some? then Some(CalendarOf(raw.waktu.value)) else None;
    var fake := Latitude in cols && Longitude in cols && raw.latitude == Some(0.0) && raw.longitude == Some(0.0);
    Report(source, raw.waktu, calendar, duration, tipe, kecamatan, kelurahan, raw.kategori,
           raw.latitude, raw.longitude, raw.uid,
           tipe == "ghost", tipe == "prank", duration.Some? && duration.value <= 5, fake, false)
  }

  lemma AssembleFields(cols: set<Column>, source: Source, raw: RawRow, duration: Option<nat>, tipe: string,
                       kecamatan: Option<string>, kelurahan: Option<string>)
    ensures var r := Assemble(cols, source, raw, duration, tipe, kecamatan, kelurahan);
      && TimeFields(r) && CallFlags(cols, r) && !r.rapidRepeat
      && r.source == source && r.time == raw.waktu && r.uid == raw.uid
      && r.latitude == raw.latitude && r.longitude == raw.longitude
  {
  }

  lemma AssembleType(cols: set<Column>, source: Source, raw: RawRow, duration: Option<nat>, tipe: string,
                     kecamatan: Option<string>, kelurahan: Option<string>)
    requires IsTrimmed(tipe) && HasNoUpper(tipe) && (TipeLaporan !in cols ==> tipe == Unknown)
    ensures TypeFields(cols, Assemble(cols, source, raw, duration, tipe, kecamatan, kelurahan))
  {
  }

  lemma AssemblePlaces(cols: set<Column>, source: Source, raw: RawRow, duration: Option<nat>, tipe: string,
                       kecamatan: Option<string>, kelurahan: Option<string>)
    requires kecamatan.Some? ==> IsPlaceName(kecamatan.value)
    requires kelurahan.Some? ==> IsPlaceName(kelurahan.value)
    ensures PlaceFields(Assemble(cols, source, raw, duration, tipe, kecamatan, kelurahan))
  {
  }

  /**
   * Ghost and prank calls are recognised only by the normalised `TIPE LAPORAN`
   * text being exactly "ghost" or "prank"; without the column there are none.
   */
  lemma TypeFlags(cols: set<Column>, e: Entry)
    ensures var r := DeriveRow(cols, e);
      && r.tipe == (if TipeLaporan in cols then NormaliseType(Cells(e).tipe) else Unknown)
      && (r.ghostCall <==> TipeLaporan in cols && NormaliseType(Cells(e).tipe) == "ghost")
      && (r.prankCall <==> TipeLaporan in cols && NormaliseType(Cells(e).tipe) == "prank")
  {
    assert |Unknown| == 7;
  }

  /** A short call is a row whose `DURASI PENGERJAAN` parses to at most five seconds. */
  lemma DurationFlag(cols: set<Column>, e: Entry)
    ensures var r := DeriveRow(cols, e);
      && r.duration == (if DurasiPengerjaan in cols then ParseDuration(Cells(e).durasi) else None)
      && (r.shortCall <==> DurasiPengerjaan in cols && ParseDuration(Cells(e).durasi).Some? && ParseDuration(Cells(e).durasi).value <= 5)
  {
  }

  /** The place columns hold the cleaned cell when the column exists, and nothing otherwise. */
  lemma PlaceCells(cols: set<Column>, e: Entry)
    ensures var r := DeriveRow(cols, e);
      && r.kecamatan == (if Kecamatan in cols then CleanPlace(Cells(e).kecamatan) else None)
      && r.kelurahan == (if Kelurahan in cols then CleanPlace(Cells(e).kelurahan) else None)
      && r.kategori == Cells(e).kategori
  {
  }

  /**
   * A location is fake exactly when both coordinate columns exist and the
   * row's coerced latitude and longitude are both zero; the row keeps them.
   */
  lemma FakeLocationFlag(cols: set<Column>, e: Entry)
    ensures var r := DeriveRow(cols, e);
      && r.latitude == Cells(e).latitude && r.longitude == Cells(e).longitude
      && (r.fakeLocation <==>
            Latitude in cols && Longitude in cols && Cells(e).latitude == Some(0.0) && Cells(e).longitude == Some(0.0))
  {
  }
}
