# Call Center 112 dashboard: the data pipeline, in Dafny

The dashboard reads the 2024 and 2025 incident workbooks of the Call Center
112 service, merges them into one table of reports, derives a handful of
columns per report and lets the user filter the table by year, category
(`KATEGORI`) and district (`KECAMATAN`). This project models the part of
`dashboard.py` that computes something. It also proves what that part
promises.

- **Duration parsing.** `parse_duration_to_seconds` searches a
  `DURASI PENGERJAAN` cell for `<d> Hari : <h> Jam : <m> Menit : <s> Detik`
  and returns `d*86400 + h*3600 + m*60 + s`. The model is in `duration.dfy`.
  - The regular expression is written as a token list with a declarative
    meaning (`Derives`).
  - A greedy matcher (`MatchFrom`) implements the search.
  - The matcher is proved to find exactly the pattern's instances. So the
    parser returns the value of the leftmost instance of the regex, and
    nothing when there is none.
- **Loading and cleaning.** The body of `load_and_process_data` is modelled
  over two already-read workbooks.
  - Rows are tagged with their year and concatenated, and headers are
    stripped. The time-derived fields come next, then the duration. After
    that, `TIPE LAPORAN` is normalised and `KECAMATAN`/`KELURAHAN` are
    cleaned. Last come the flags `ghost_call`, `prank_call`, `short_call` and
    `fake_location`. This is in `records.dfy`.
  - The time sort and the per-UID previous-row scan that sets
    `rapid_repeat` are in `spam.dfy`. The scan is a method over an array
    that carries a map from UID to last time seen.
  - The `(df, error)` result is in `pipeline.dfy`.
- **Sidebar filters.** The option lists and the three successive mask
  filters of `main` are in `filters.dfy`.
- **Shared pieces.** Python's string operations used on the way are in
  `text.dfy`: `str.strip`, `lower`, `title`, `int()` on digit strings, and
  `sorted()` on strings. `wrappers.dfy` holds the optional values that stand
  for NaN, NaT and NA.

The model follows the code as written:

- The parser accepts only the full pattern. A bare number gives no value.
- Ghost and prank calls are recognised only by `TIPE LAPORAN` equal to
  `"ghost"` / `"prank"` after trimming and lower-casing. `KATEGORI`, the
  duration and the other columns play no part in it.
- The rapid-repeat test is `<= 2` minutes (120 s), as the code has it. The
  comment above it says "< 2 menit".
- Each workbook is read once. `KATEGORI` is never cleaned.

## Model

| member | source | states |
|---|---|---|
| Duration.ParseDuration | dashboard.py:38-61 | A missing cell gives no value; a value is a natural number (never negative) |
| Duration.MatchFromSound | dashboard.py:49-50 | Whatever the greedy matcher matches is an instance of the pattern, with the groups it reports |
| Duration.MatchFromComplete | dashboard.py:49-50 | Every instance of an unambiguous pattern is found by the greedy matcher, with its length and groups, whatever follows it |
| Duration.PatternUnambiguous | dashboard.py:49 | The duration pattern never needs backtracking: no group is followed by a digit, no `\s*` by a space |
| Duration.MatchesAtIff | dashboard.py:49-50 | An instance of the pattern at a position is exactly what the matcher returns there |
| Duration.SearchFindsFirst | dashboard.py:50 | The search returns the first position holding an instance, or nothing when no position does |
| Duration.ParseAbsentIffNoMatch | dashboard.py:43-61 | No value exactly when the stripped text contains no instance of the pattern |
| Duration.ParseIsFirstMatch | dashboard.py:46-59 | A value is `d*86400+h*3600+m*60+s` of the leftmost instance in the stripped text |
| Duration.FirstMatchIsParsed | dashboard.py:46-59 | Conversely, the leftmost instance determines the value |
| Duration.ParseRendered | dashboard.py:38-59 | Any `d`,`h`,`m`,`s` written in the format, after any digit-free prefix and before anything, parse to `d*86400+h*3600+m*60+s` |
| Duration.DocstringExample | dashboard.py:40 | `'0 Hari : 20 Jam : 41 Menit : 56 Detik'` parses to 74516 |
| Duration.MissingWordNoDuration | dashboard.py:49-61 | A text lacking one of the words `Hari`, `Jam`, `Menit`, `Detik`, `:` (including a wrong letter case) has no value |
| Duration.DigitsOnlyNoDuration | dashboard.py:49-61 | A bare number such as `"42"` has no value: there is no fallback |
| Text.Strip | dashboard.py:46 | `str.strip`: the result has no white space at either end, is the input when that is already trimmed, and is empty exactly for all-space input |
| Text.StripAround | dashboard.py:46 | Stripping a text whose middle part has non-space ends strips only the outer parts |
| Text.ReadDecimal | dashboard.py:53-56 | `int()` reads the decimal numeral of `n` back as `n` |
| Text.Lower | dashboard.py:103 | `str.lower`: differs from the input only in letter case, has no upper-case letter, fixes texts that have none, keeps trimming |
| Text.TitleKeepsLetters | dashboard.py:112 | `str.title` changes only letter case; in its result every letter that starts a word (does not follow a letter) is upper-case and every other letter lower-case; it keeps trimming |
| Text.TitleCasedIsFixed | dashboard.py:112 | A text is title-cased exactly when `str.title` leaves it unchanged |
| Text.SortedUnique | dashboard.py:173 | `sorted(set(...))`: strictly increasing in code-point order, with exactly the input's elements |
| Text.LessTotal | dashboard.py:173 | Python's string order is total on distinct strings |
| Records.Schema | dashboard.py:81 | A column is present exactly when some header equals its name after `str.strip` |
| Records.MissingColumnCells | dashboard.py:78 | A cell of a column that the row's own workbook lacks is missing after `pd.concat`; a row of a workbook with every column keeps its cells |
| Records.ConcatRows | dashboard.py:74-78 | All 2024 rows in order, tagged 2024, then all 2025 rows in order, tagged 2025 |
| Records.Columns | dashboard.py:78-81 | The merged frame has the columns of either workbook |
| Records.CalendarOf | dashboard.py:87-93 | The day and hour of a timestamp: `0 <= hour < 24` and the timestamp lies within that hour of that day |
| Records.NormaliseType | dashboard.py:102-105 | `TIPE LAPORAN` becomes the stripped cell text in lower case (trimmed, no upper-case letter, equal to the stripped text up to letter case); a missing cell becomes `"nan"` |
| Records.NormaliseTypeIdempotent | dashboard.py:103 | Normalising a normalised type changes nothing |
| Records.CleanPlace | dashboard.py:108-112 | No value exactly when the stripped text is `-`, `nan` or empty; otherwise a non-empty, trimmed, title-cased name that equals the stripped text up to letter case |
| Records.CleanPlaceKeepsNames | dashboard.py:110-112 | Cleaning the text of a present cleaned place name gives the same name back, so a cleaned name is the one title-cased, trimmed form of its text |
| Records.DeriveRow | dashboard.py:84-132 | Each derived row satisfies `WellFormed`, keeps its source, time, UID and coordinates, and starts with `rapid_repeat` false |
| Records.FakeLocationFlag | dashboard.py:128-132 | `fake_location` exactly when both coordinate columns exist and the row's coerced latitude and longitude are both zero; the row keeps those coordinates |
| Records.GhostPrankExclusive | dashboard.py:116-120 | No row is both a ghost and a prank call |
| Records.TypeFlags | dashboard.py:102-120 | Ghost/prank exactly when the normalised type is `"ghost"`/`"prank"`; `"unknown"` and no flag without the column |
| Records.DurationFlag | dashboard.py:96-124 | The duration is the parsed cell, absent without the column; short call exactly when it is present and at most 5 s |
| Records.PlaceCells | dashboard.py:108-112 | The place columns hold the cleaned cells, absent without the column; `KATEGORI` is left as read |
| Spam.SortByTime | dashboard.py:136 | The rows in non-decreasing report time with missing times last, a permutation of the input |
| Spam.LastWithUid | dashboard.py:138 | The nearest earlier row with the given UID, or none when no earlier row has it |
| Spam.ScanRow | dashboard.py:138-140 | One scan step returns the row's rapid flag and the memory for the next row |
| Spam.FlagRow | dashboard.py:138-140 | One step of the scan flags row `i` as `WithRapid` defines it, leaves the later rows as they were, and moves the memory past the row |
| Spam.MarkRapidRepeats | dashboard.py:137-141 | The in-place scan leaves every row with `rapid_repeat` set as `WithRapid` defines it, all else unchanged |
| Spam.RapidIff | dashboard.py:138-140 | Rapid repeat exactly when the nearest earlier row of the same UID and the row both have a time and are at most 120 s apart |
| Spam.NotRapid | dashboard.py:138-140 | The first row of a UID, a row without a time and a row without a UID are never rapid repeats |
| Spam.RapidGapInSortedOrder | dashboard.py:136-140 | In time order a rapid repeat's gap is between 0 and 120 s |
| Spam.WithRapidKeepsRows | dashboard.py:140 | Setting the flags keeps every per-row fact |
| Spam.ThreeCallsExample | dashboard.py:139-140 | One UID at 0, 60 and 180 s gives flags false, true, true (120 s counts) |
| Pipeline.LoadAndProcess | dashboard.py:67-150 | The step-by-step pipeline returns exactly `Process` of the two read outcomes |
| Pipeline.ResultShape | dashboard.py:145-150 | Exactly one of data and error is present; the "File tidak ditemukan" message exactly for a missing file, the first failed read decides; a frame without `WAKTU LAPOR` gives the loading error |
| Pipeline.SortAndMark | dashboard.py:134-140 | The sorted copy, after the in-place scan, is the time-ordered frame with each row flagged as `WithRapid` defines it |
| Pipeline.ProcessedRows | dashboard.py:73-132 | On success the frame has `len(df24)+len(df25)` rows, and every row satisfies the per-row facts |
| Pipeline.ConcatOrderWithoutUid | dashboard.py:142-143 | Without `UID` the rows stay in concatenation order, tagged by origin, none a rapid repeat |
| Pipeline.FlagSorted | dashboard.py:136-141 | Flagging sorted rows keeps them sorted and changes only `rapid_repeat` |
| Pipeline.SortedWithUid | dashboard.py:134-141 | With `UID` the rows are time-ordered, a permutation of the derived rows except for `rapid_repeat`, and each row's flag is its rapid-repeat status in that order |
| Filters.YearOptions | dashboard.py:173-174 | The year options are the distinct source labels present, sorted |
| Filters.CategoryChoices | dashboard.py:178-180 | The category choices are the distinct categories other than `-`, empty and `nan`, sorted |
| Filters.KecamatanChoices | dashboard.py:199-203 | The kecamatan choices are the distinct present kecamatans other than `-`, sorted |
| Filters.CategorySelection | dashboard.py:177-196 | The category selection is the user's pick when the column exists and has a valid choice, and empty otherwise |
| Filters.KecamatanSelection | dashboard.py:198-218 | The kecamatan selection is the user's pick when the column exists and has a choice, and empty otherwise |
| Filters.Select | dashboard.py:221-254 | A mask selection is an order-preserving subsequence holding every passing row as many times as the input does, and no other row |
| Filters.SelectTwice | dashboard.py:221-254 | Two successive selections are one selection by both conditions |
| Filters.FilterResult | dashboard.py:220-254 | The filtered frame is the subsequence of rows that pass the year, category and kecamatan filters |
| Filters.EmptySelectionKeepsAll | dashboard.py:223-242 | With every selection empty no row is removed |
| Filters.DefaultYearsKeepAll | dashboard.py:173-224 | The default year selection, all years offered, removes no row |
| Filters.SentinelAlone | dashboard.py:229-235 | Selecting only the "no value" option keeps exactly rows whose value is missing, `-` or empty |
| Filters.BlankKecamatanIsMissing | dashboard.py:244-250 | On pipeline rows "no location" means exactly a missing kecamatan, and the choices are every kecamatan present |

## Left out

- The Streamlit page, the sidebar widgets, the metrics, charts and tables are not modelled. They only present the data.
- Reading the workbooks (`pd.read_excel`) is outside the model. A read is an input: a sheet, or a failure that is either a missing file or any other error with its message text.
- Parsing `WAKTU LAPOR` with `pd.to_datetime` is outside the model. A report time is an optional whole number of seconds, with no time zone and no sub-second part.
- Records.CalendarOf: only the day (`dt.date`) and the hour are modelled. Year, month, `ym`, `day` and `weekday` need the civil calendar and are left out; like the day and hour, they are present exactly when the time is.
- Coordinates are taken after `pd.to_numeric` coercion, as optional reals. The fake-location test compares them with zero.
- Cells are text or missing. `astype(str)` of numbers or dates stored in text columns is not modelled, and neither is `sorted()` failing on mixed-type categories.
- Text.Lower, Text.TitleKeepsLetters: case mapping covers ASCII letters only. `\d` is modelled for ASCII digits only, while Python also accepts other Unicode decimal digits. `\s` and `str.strip` use Python's full white-space set.
- Spam.SortByTime: reports with equal times stay in input order. pandas' default sort is not stable, so its order of ties, and with it which of two same-time, same-UID rows gets the flag, may differ.
- Missing values: NaN, NaT and `pd.NA` are all `None`. A cleaned place that is missing is `pd.NA` in pandas, whose `astype(str)` is `"<NA>"` rather than `"nan"`; the dashboard never converts it again, so the model does not tell the two apart.
- Headers are text. A numeric header, on which `str.strip` raises and the loading error follows, is not modelled.
- Two headers that become equal only after stripping (for example `UID` in one workbook and `UID ` in the other) are not modelled. pandas would then hold duplicate columns.
- The sidebar widgets only offer the listed options. The model lets a selection be any list of texts.
- Caching with `@st.cache_data` is not modelled. It only memoises the same result.
- Pipeline.LoadAndProcess fills the derived columns row by row, where pandas assigns whole columns one after another. Each cell is computed from the same inputs either way.
