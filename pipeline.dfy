/**
 * `load_and_process_data`: read both workbooks, concatenate them, derive the
 * per-row columns, and, when the frame has a `UID` column, sort it by report
 * time and mark rapid repeats. The result is the pair `(df, error)` of the
 * source, exactly one of which is missing.
 */
module Pipeline {
  import opened Wrappers
  import opened Records
  import opened Spam

  /** Why `pd.read_excel` could not produce a sheet. */
  datatype Failure = FileNotFound(detail: string) | ReadFailed(detail: string)

  /** The outcome of reading one workbook; the reading itself is outside the model. */
  datatype ReadOutcome = Read(sheet: Sheet) | Failed(failure: Failure)

  /** The processed frame: its columns and its rows. */
  datatype Table = Table(columns: set<Column>, rows: seq<Report>)

  const NotFoundPrefix := "\U{274C} File tidak ditemukan: "
  const LoadErrorPrefix := "\U{274C} Error saat memuat data: "

  /** The text of the `KeyError` raised by `df['WAKTU LAPOR']` on a frame without that column. */
  const MissingTimeColumn := "'WAKTU LAPOR'"

  /** The two `except` clauses: a missing file, and every other exception. */
  function Message(f: Failure): string {
    match f
    case FileNotFound(d) => NotFoundPrefix + d
    case ReadFailed(d) => LoadErrorPrefix + d
  }

  /** Every row of the concatenated frame with its derived columns. */
  function Derived(cols: set<Column>, es: seq<Entry>): (rs: seq<Report>)
    ensures |rs| == |es|
    ensures forall i :: 0 <= i < |es| ==> rs[i] == DeriveRow(cols, es[i])
  {
    seq(|es|, i requires 0 <= i < |es| => DeriveRow(cols, es[i]))
  }

  /** Everything after both workbooks were read. */
  function Transform(s24: Sheet, s25: Sheet): (Option<Table>, Option<string>) {
    var cols := Columns(s24, s25);
    if WaktuLapor !in cols then (None, Some(LoadErrorPrefix + MissingTimeColumn))
    else
      var rows := Derived(cols, Concat(s24, s25));
      if Uid in cols then (Some(Table(cols, WithRapid(SortByTime(rows)))), None)
      else (Some(Table(cols, rows)), None)
  }

  /** The result of `load_and_process_data`; the 2024 workbook is read first. */
  function Process(r24: ReadOutcome, r25: ReadOutcome): (Option<Table>, Option<string>) {
    match (r24, r25)
    case (Failed(f), _) => (None, Some(Message(f)))
    case (Read(_), Failed(f)) => (None, Some(Message(f)))
    case (Read(s24), Read(s25)) => Transform(s24, s25)
  }

  /**
   * The pipeline step by step: the derived columns are filled into a fresh
   * frame, which is then sorted into a copy and scanned for rapid repeats when
   * the `UID` column exists.
   */
  method LoadAndProcess(r24: ReadOutcome, r25: ReadOutcome) returns (data: Option<Table>, error: Option<string>)
    ensures (data, error) == Process(r24, r25)
  {
    if r24.Failed? {
      return None, Some(Message(r24.failure));
    }
    if r25.Failed? {
      return None, Some(Message(r25.failure));
    }
    var s24, s25 := r24.sheet, r25.sheet;
    var cols := Columns(s24, s25);
    if WaktuLapor !in cols {
      return None, Some(LoadErrorPrefix + MissingTimeColumn);
    }
    assert Process(r24, r25) == Transform(s24, s25);
    var es := Concat(s24, s25);
    var df := new Report[|es|](i requires 0 <= i < |es| => DeriveRow(cols, es[i]));
    assert df[..] == Derived(cols, es);
    if Uid in cols {
      var rows := SortAndMark(df[..]);
      return Some(Table(cols, rows)), None;
    }
    return Some(Table(cols, df[..])), None;
  }

  /** `df.sort_values('WAKTU LAPOR').copy()`, then the rapid-repeat scan over the copy. */
  method SortAndMark(rows: seq<Report>) returns (out: seq<Report>)
    ensures out == WithRapid(SortByTime(rows))
  {
    var order := SortByTime(rows);
    var sorted := new Report[|order|](i requires 0 <= i < |order| => order[i]);
    assert sorted[..] == order;
    MarkRapidRepeats(sorted);
    out := sorted[..];
  }

  /** The first read that failed, in the order the workbooks are read. */
  function FirstFailure(r24: ReadOutcome, r25: ReadOutcome): Option<Failure> {
    if r24.Failed? then Some(r24.failure)
    else if r25.Failed? then Some(r25.failure)
    else None
  }

  lemma PrefixesDiffer(d: string)
    ensures !(NotFoundPrefix <= LoadErrorPrefix + d)
  {
    assert NotFoundPrefix[2] != (LoadErrorPrefix + d)[2];
  }

  /**
   * Exactly one half of the result is present. The error names a missing file
   * exactly when the first failed read was a missing file; any other failure,
   * including a frame without `WAKTU LAPOR`, gives the generic loading error.
   */
  lemma ResultShape(r24: ReadOutcome, r25: ReadOutcome)
    ensures var (data, error) := Process(r24, r25);
      && (data.None? <==> error.Some?)
      && (error.Some? ==> NotFoundPrefix <= error.value || LoadErrorPrefix <= error.value)
      && (error.Some? && NotFoundPrefix <= error.value <==> FirstFailure(r24, r25).Some? && FirstFailure(r24, r25).value.FileNotFound?)
      && (FirstFailure(r24, r25).Some? ==> error == Some(Message(FirstFailure(r24, r25).value)))
      && (FirstFailure(r24, r25).None? ==>
            (data.None? <==> WaktuLapor !in Columns(r24.sheet, r25.sheet)))
  {
    var (data, error) := Process(r24, r25);
    var f := FirstFailure(r24, r25);
    if f.Some? && f.value.ReadFailed? {
      PrefixesDiffer(f.value.detail);
    } else if f.None? && WaktuLapor !in Columns(r24.sheet, r25.sheet) {
      PrefixesDiffer(MissingTimeColumn);
    }
  }

  /** Every row of the result is one derived row of the input, with only `rapid_repeat` possibly changed. */
  function Unflagged(rs: seq<Report>): (out: seq<Report>)
    ensures |out| == |rs|
    ensures forall k :: 0 <= k < |rs| ==> out[k] == rs[k].(rapidRepeat := false)
  {
    seq(|rs|, k requires 0 <= k < |rs| => rs[k].(rapidRepeat := false))
  }

  lemma UnflaggedWithRapid(rs: seq<Report>)
    requires forall k :: 0 <= k < |rs| ==> !rs[k].rapidRepeat
    ensures Unflagged(WithRapid(rs)) == rs
  {
  }

  /** Rapid flags depend only on the UIDs and times, which setting the flags does not change. */
  lemma {:induction false} LastWithUidSameKeys(xs: seq<Report>, ys: seq<Report>, u: string, k: nat)
    requires k <= |xs| == |ys|
    requires forall i :: 0 <= i < |xs| ==> xs[i].uid == ys[i].uid
    ensures LastWithUid(xs, u, k) == LastWithUid(ys, u, k)
    decreases k
  {
    if k > 0 {
      LastWithUidSameKeys(xs, ys, u, k - 1);
    }
  }

  lemma RapidOfFlagged(rs: seq<Report>, k: nat)
    requires k < |rs|
    ensures RapidAt(WithRapid(rs), k) == RapidAt(rs, k)
  {
    var out := WithRapid(rs);
    if rs[k].uid.Some? {
      LastWithUidSameKeys(out, rs, rs[k].uid.value, k);
    }
  }

  /** Sorting keeps the rows' facts, since it only reorders them. */
  lemma SortKeepsRows(cols: set<Column>, rs: seq<Report>)
    requires forall r :: r in rs ==> WellFormed(cols, r)
    ensures forall r :: r in SortByTime(rs) ==> WellFormed(cols, r)
  {
    var out := SortByTime(rs);
    forall r | r in out ensures WellFormed(cols, r) {
      assert r in multiset(out);
    }
  }

  /**
   * On success the frame has one row per input row, and each row satisfies the
   * per-row facts: derived time fields, normalised type, cleaned places and
   * the flags.
   */
  lemma ProcessedRows(s24: Sheet, s25: Sheet)
    requires Transform(s24, s25).0.Some?
    ensures var t := Transform(s24, s25).0.value;
      && t.columns == Columns(s24, s25)
      && |t.rows| == |s24.rows| + |s25.rows|
      && forall r :: r in t.rows ==> WellFormed(t.columns, r)
  {
    var cols := Columns(s24, s25);
    var rows := Derived(cols, Concat(s24, s25));
    ConcatRows(s24, s25);
    forall r | r in rows ensures WellFormed(cols, r) {
      var i :| 0 <= i < |rows| && rows[i] == r;
    }
    if Uid in cols {
      SortKeepsRows(cols, rows);
      WithRapidKeepsRows(cols, SortByTime(rows));
    }
  }

  /**
   * `rows` are the rows of the concatenated frame in concatenation order: the
   * 2024 rows, then the 2025 rows, each derived from its own input row, none
   * of them a rapid repeat.
   */
  predicate InConcatOrder(s24: Sheet, s25: Sheet, cols: set<Column>, rows: seq<Report>) {
    var n := |s24.rows|;
    && |rows| == n + |s25.rows|
    && (forall i :: 0 <= i < n ==>
          rows[i] == DeriveRow(cols, Entry(Y2024, Schema(s24), s24.rows[i])))
    && (forall j :: 0 <= j < |s25.rows| ==>
          rows[n + j] == DeriveRow(cols, Entry(Y2025, Schema(s25), s25.rows[j])))
    && (forall i :: 0 <= i < |rows| ==> !rows[i].rapidRepeat)
    && (forall i :: 0 <= i < |rows| ==> rows[i].source == (if i < n then Y2024 else Y2025))
  }

  lemma DerivedInConcatOrder(s24: Sheet, s25: Sheet, cols: set<Column>)
    ensures InConcatOrder(s24, s25, cols, Derived(cols, Concat(s24, s25)))
  {
    var es := Concat(s24, s25);
    var rows := Derived(cols, es);
    var n := |s24.rows|;
    ConcatRows(s24, s25);
    forall i | 0 <= i < n ensures rows[i] == DeriveRow(cols, Entry(Y2024, Schema(s24), s24.rows[i])) {
      assert es[i] == Entry(Y2024, Schema(s24), s24.rows[i]);
    }
    forall j | 0 <= j < |s25.rows| ensures rows[n + j] == DeriveRow(cols, Entry(Y2025, Schema(s25), s25.rows[j])) {
      assert es[n + j] == Entry(Y2025, Schema(s25), s25.rows[j]);
    }
  }

  /** Without a `UID` column the frame keeps the concatenation order and flags no row. */
  lemma ConcatOrderWithoutUid(s24: Sheet, s25: Sheet)
    requires WaktuLapor in Columns(s24, s25) && Uid !in Columns(s24, s25)
    ensures Transform(s24, s25).0.Some?
    ensures InConcatOrder(s24, s25, Columns(s24, s25), Transform(s24, s25).0.value.rows)
  {
    var cols := Columns(s24, s25);
    DerivedInConcatOrder(s24, s25, cols);
    assert Transform(s24, s25).0.value == Table(cols, Derived(cols, Concat(s24, s25)));
  }

  /** Flagging the time-ordered rows keeps the order and changes nothing but the flag. */
  lemma FlagSorted(xs: seq<Report>)
    requires forall k :: 0 <= k < |xs| ==> !xs[k].rapidRepeat
    ensures var rows := WithRapid(SortByTime(xs));
      && SortedByTime(rows)
      && multiset(Unflagged(rows)) == multiset(xs)
      && (forall k :: 0 <= k < |rows| ==> rows[k].rapidRepeat == RapidAt(rows, k))
  {
    var sorted := SortByTime(xs);
    var rows := WithRapid(sorted);
    forall i, j | 0 <= i < j < |rows| ensures TimeLeq(rows[i].time, rows[j].time) {
      assert rows[i].time == sorted[i].time && rows[j].time == sorted[j].time;
    }
    forall k | 0 <= k < |sorted| ensures !sorted[k].rapidRepeat {
      assert sorted[k] in multiset(xs);
    }
    UnflaggedWithRapid(sorted);
    forall k | 0 <= k < |rows| ensures rows[k].rapidRepeat == RapidAt(rows, k) {
      RapidOfFlagged(sorted, k);
    }
  }

  /**
   * With a `UID` column the frame is ordered by report time (missing times
   * last), is a reordering of the derived rows apart from `rapid_repeat`, and
   * every row's `rapid_repeat` is the flag of its position in that order.
   */
  lemma SortedWithUid(s24: Sheet, s25: Sheet)
    requires WaktuLapor in Columns(s24, s25) && Uid in Columns(s24, s25)
    ensures var t := Transform(s24, s25).0.value;
      var derived := Derived(t.columns, Concat(s24, s25));
      && SortedByTime(t.rows)
      && multiset(Unflagged(t.rows)) == multiset(derived)
      && (forall k :: 0 <= k < |t.rows| ==> t.rows[k].rapidRepeat == RapidAt(t.rows, k))
  {
    var cols := Columns(s24, s25);
    var derived := Derived(cols, Concat(s24, s25));
    assert Transform(s24, s25).0.value == Table(cols, WithRapid(SortByTime(derived)));
    FlagSorted(derived);
  }
}
