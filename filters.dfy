/**
 * The sidebar of the dashboard: the option lists offered for year, category
 * and kecamatan, and the successive row filters applied with the user's
 * selections.
 */
module Filters {
  import opened Wrappers
  import opened Text
  import opened Records

  /** The extra options that stand for rows without a category or a location. */
  const NoCategory := "[Tanpa Kategori (Ghost/Prank)]"
  const NoLocation := "[Tanpa Lokasi (Ghost/Prank)]"

  // ---------------------------------------------------------------------------
  // Option lists
  // ---------------------------------------------------------------------------

  function Labels(rows: seq<Report>): (ls: seq<string>)
    ensures |ls| == |rows|
    ensures forall i :: 0 <= i < |rows| ==> ls[i] == Label(rows[i].source)
  {
    seq(|rows|, i requires 0 <= i < |rows| => Label(rows[i].source))
  }

  /** `sorted(df['source'].unique())`: each year label present in the frame, once, in order. */
  function YearOptions(rows: seq<Report>): (opts: seq<string>)
    ensures StrictlySorted(opts)
    ensures forall y :: y in opts <==> exists r :: r in rows && Label(r.source) == y
  {
    var ls := Labels(rows);
    assert forall r :: r in rows ==> Label(r.source) in ls by {
      forall r | r in rows ensures Label(r.source) in ls {
        var i :| 0 <= i < |rows| && rows[i] == r;
        assert ls[i] == Label(r.source);
      }
    }
    SortedUnique(ls)
  }

  /** The category texts the source refuses as options (after `fillna('-')`). */
  predicate IsBlankCategory(c: string) {
    c == "-" || c == "" || c == "nan"
  }

  /** The `KATEGORI` values of the rows that can be offered as options, in row order. */
  function CategoryValues(rows: seq<Report>): (vs: seq<string>)
    ensures forall c :: c in vs <==> exists r :: r in rows && r.kategori == Some(c) && !IsBlankCategory(c)
  {
    if rows == [] then []
    else
      var head := match rows[0].kategori
        case Some(c) => if IsBlankCategory(c) then [] else [c]
        case None => [];
      assert forall r :: r in rows <==> r == rows[0] || r in rows[1..];
      head + CategoryValues(rows[1..])
  }

  /** `valid_categories`: the distinct non-blank categories, sorted. */
  function CategoryChoices(rows: seq<Report>): (cs: seq<string>)
    ensures StrictlySorted(cs)
    ensures forall c :: c in cs <==> exists r :: r in rows && r.kategori == Some(c) && !IsBlankCategory(c)
  {
    SortedUnique(CategoryValues(rows))
  }

  /** The `KECAMATAN` values left by `dropna()` and `!= '-'`, in row order. */
  function KecamatanValues(rows: seq<Report>): (vs: seq<string>)
    ensures forall k :: k in vs <==> exists r :: r in rows && r.kecamatan == Some(k) && k != "-"
  {
    if rows == [] then []
    else
      var head := match rows[0].kecamatan
        case Some(k) => if k == "-" then [] else [k]
        case None => [];
      assert forall r :: r in rows <==> r == rows[0] || r in rows[1..];
      head + KecamatanValues(rows[1..])
  }

  /** `kecamatans_list`: the distinct kecamatan names, sorted. */
  function KecamatanChoices(rows: seq<Report>): (ks: seq<string>)
    ensures StrictlySorted(ks)
    ensures forall k :: k in ks <==> exists r :: r in rows && r.kecamatan == Some(k) && k != "-"
  {
    SortedUnique(KecamatanValues(rows))
  }

  /** The widget lists: the "no value" option first, then the choices. */
  function CategoryOptions(rows: seq<Report>): seq<string> {
    [NoCategory] + CategoryChoices(rows)
  }

  function KecamatanOptions(rows: seq<Report>): seq<string> {
    [NoLocation] + KecamatanChoices(rows)
  }

  /**
   * The selection the filters receive: what the user picked when the column
   * exists and has at least one choice (the widget is shown), nothing otherwise.
   */
  function CategorySelection(cols: set<Column>, rows: seq<Report>, picked: seq<string>): (sel: seq<string>)
    ensures sel == [] || sel == picked
    ensures sel != [] ==> Kategori in cols && exists r :: r in rows && r.kategori.Some? && !IsBlankCategory(r.kategori.value)
    ensures Kategori in cols && |CategoryChoices(rows)| > 0 ==> sel == picked
  {
    if Kategori in cols && |CategoryChoices(rows)| > 0 then
      assert CategoryChoices(rows)[0] in CategoryChoices(rows);
      picked
    else []
  }

  function KecamatanSelection(cols: set<Column>, rows: seq<Report>, picked: seq<string>): (sel: seq<string>)
    ensures sel == [] || sel == picked
    ensures sel != [] ==> Kecamatan in cols && exists r :: r in rows && r.kecamatan.Some? && r.kecamatan.value != "-"
    ensures Kecamatan in cols && |KecamatanChoices(rows)| > 0 ==> sel == picked
  {
    if Kecamatan in cols && |KecamatanChoices(rows)| > 0 then
      assert KecamatanChoices(rows)[0] in KecamatanChoices(rows);
      picked
    else []
  }

  // ---------------------------------------------------------------------------
  // Row filters
  // ---------------------------------------------------------------------------

  /** `xs` is `ys` with some elements left out, the rest in their order. */
  predicate IsSubsequence<T(==)>(xs: seq<T>, ys: seq<T>)
    decreases |ys|
  {
    if xs == [] then true
    else if ys == [] then false
    else (xs[0] == ys[0] && IsSubsequence(xs[1..], ys[1..])) || IsSubsequence(xs, ys[1..])
  }

  /** A boolean-mask selection `df[mask]`: the rows that pass, in their order. */
  function Select(rows: seq<Report>, keep: Report -> bool): (out: seq<Report>)
    ensures IsSubsequence(out, rows)
    ensures forall r :: r in out <==> r in rows && keep(r)
    ensures |out| <= |rows|
    ensures forall r :: multiset(out)[r] == if keep(r) then multiset(rows)[r] else 0
  {
    if rows == [] then []
    else
      var rest := Select(rows[1..], keep);
      assert rows == [rows[0]] + rows[1..];
      assert forall r :: r in rows <==> r == rows[0] || r in rows[1..];
      if keep(rows[0]) then
        assert ([rows[0]] + rest)[1..] == rest;
        [rows[0]] + rest
      else rest
  }

  /** The year filter: all rows for an empty selection, else those whose label is selected. */
  predicate YearAdmits(selected: seq<string>, r: Report) {
    |selected| == 0 || Label(r.source) in selected
  }

  /** A value that the "no value" option stands for: missing, `'-'` or `''`. */
  predicate IsBlank(v: Option<string>) {
    v.None? || v.value == "-" || v.value == ""
  }

  /**
   * The category and kecamatan filters: all rows for an empty selection;
   * with the `sentinel` selected, the blank values and the other selected
   * values; otherwise exactly the selected values (`isin`, which a missing
   * value never passes).
   */
  predicate ValueAdmits(selected: seq<string>, sentinel: string, v: Option<string>) {
    if |selected| == 0 then true
    else if sentinel in selected then IsBlank(v) || (v.Some? && v.value in selected && v.value != sentinel)
    else v.Some? && v.value in selected
  }

  /** Everything the three filters ask of one row. */
  predicate Admitted(years: seq<string>, cats: seq<string>, kecs: seq<string>, r: Report) {
    YearAdmits(years, r) && ValueAdmits(cats, NoCategory, r.kategori) && ValueAdmits(kecs, NoLocation, r.kecamatan)
  }

  /** The filters in the order the dashboard applies them: year, category, kecamatan. */
  function ApplyFilters(rows: seq<Report>, years: seq<string>, cats: seq<string>, kecs: seq<string>): seq<Report> {
    var byYear := Select(rows, (r: Report) => YearAdmits(years, r));
    var byCategory := Select(byYear, (r: Report) => ValueAdmits(cats, NoCategory, r.kategori));
    Select(byCategory, (r: Report) => ValueAdmits(kecs, NoLocation, r.kecamatan))
  }

  /** Two selections in a row are one selection by both conditions. */
  lemma {:induction false} SelectTwice(rows: seq<Report>, p: Report -> bool, q: Report -> bool)
    ensures Select(Select(rows, p), q) == Select(rows, (r: Report) => p(r) && q(r))
    decreases |rows|
  {
    if rows != [] {
      SelectTwice(rows[1..], p, q);
      var rest := Select(rows[1..], p);
      if p(rows[0]) {
        assert Select(rows, p) == [rows[0]] + rest;
        assert ([rows[0]] + rest)[1..] == rest;
      }
    }
  }

  /** Selections by conditions that agree on every row are equal. */
  lemma {:induction false} SelectSame(rows: seq<Report>, p: Report -> bool, q: Report -> bool)
    requires forall r :: p(r) == q(r)
    ensures Select(rows, p) == Select(rows, q)
    decreases |rows|
  {
    if rows != [] {
      SelectSame(rows[1..], p, q);
    }
  }

  /** A selection that keeps every row is the identity. */
  lemma {:induction false} SelectAll(rows: seq<Report>, keep: Report -> bool)
    requires forall r :: r in rows ==> keep(r)
    ensures Select(rows, keep) == rows
    decreases |rows|
  {
    if rows != [] {
      assert forall r :: r in rows[1..] ==> r in rows;
      SelectAll(rows[1..], keep);
      assert rows == [rows[0]] + rows[1..];
    }
  }

  /**
   * The filtered frame is the subsequence of the rows that pass all three
   * filters: order is kept and a row is in it exactly when it passes.
   */
  lemma FilterResult(rows: seq<Report>, years: seq<string>, cats: seq<string>, kecs: seq<string>)
    ensures ApplyFilters(rows, years, cats, kecs) == Select(rows, (r: Report) => Admitted(years, cats, kecs, r))
    ensures IsSubsequence(ApplyFilters(rows, years, cats, kecs), rows)
    ensures forall r :: r in ApplyFilters(rows, years, cats, kecs) <==> r in rows && Admitted(years, cats, kecs, r)
  {
    var p := (r: Report) => YearAdmits(years, r);
    var q := (r: Report) => ValueAdmits(cats, NoCategory, r.kategori);
    var s := (r: Report) => ValueAdmits(kecs, NoLocation, r.kecamatan);
    SelectTwice(rows, p, q);
    var pq := (r: Report) => p(r) && q(r);
    SelectTwice(rows, pq, s);
    SelectSame(rows, (r: Report) => pq(r) && s(r), (r: Report) => Admitted(years, cats, kecs, r));
  }

  /** With nothing selected in any filter every row is shown. */
  lemma EmptySelectionKeepsAll(rows: seq<Report>)
    ensures ApplyFilters(rows, [], [], []) == rows
  {
    FilterResult(rows, [], [], []);
    SelectAll(rows, (r: Report) => Admitted([], [], [], r));
  }

  /** The default year selection, every year offered, keeps every row. */
  lemma DefaultYearsKeepAll(rows: seq<Report>)
    ensures Select(rows, (r: Report) => YearAdmits(YearOptions(rows), r)) == rows
  {
    var opts := YearOptions(rows);
    forall r | r in rows ensures YearAdmits(opts, r) {
      assert Label(r.source) in opts;
    }
    SelectAll(rows, (r: Report) => YearAdmits(opts, r));
  }

  /** Selecting only the "no value" option keeps exactly the rows whose value is blank. */
  lemma SentinelAlone(sentinel: string, v: Option<string>)
    ensures ValueAdmits([sentinel], sentinel, v) <==> IsBlank(v)
  {
    assert sentinel in [sentinel];
  }

  /**
   * On the pipeline's rows a kecamatan is never `'-'` or `''`, so the
   * "no location" option stands exactly for rows whose kecamatan is missing,
   * and the list of choices is every kecamatan present.
   */
  lemma BlankKecamatanIsMissing(cols: set<Column>, rows: seq<Report>)
    requires forall r :: r in rows ==> WellFormed(cols, r)
    ensures forall r :: r in rows ==> (IsBlank(r.kecamatan) <==> r.kecamatan.None?)
    ensures forall k :: k in KecamatanChoices(rows) <==> exists r :: r in rows && r.kecamatan == Some(k)
  {
    forall r | r in rows ensures r.kecamatan.Some? ==> r.kecamatan.value != "-" && r.kecamatan.value != "" {
      assert WellFormed(cols, r);
    }
  }
}
